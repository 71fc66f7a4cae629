# SideStage: a verified model

SideStage is a live-selling web application. This project models, in Dafny, the parts of its client
and of its catalog sync that carry real structure, and proves what those parts promise.

| file | models |
|---|---|
| `DockLayout.dfy`, `DockMigration.dfy` | saved dock layouts: pruning retired panels, inserting Inventory, migrating both boards, foregrounding a panel |
| `DockStore.dfy`, `DockKeys.dfy` | the stored row, the self-healing wrapper, the board size on the same row, and the storage keys |
| `SignatureText.dfy`, `VariantPicker.dfy` | escaped option signatures, the index keyed by them, and the availability filter |
| `CatalogSync.dfy` | keyset paging, the carry buffer, batching, and retried calls |
| `StreamSession.dfy`, `DeepgramSession.dfy`, `PublisherWait.dfy`, `LiveTranscript.dfy` | the asynchronous protocols, as steps between awaits |
| `TranscriptText.dfy`, `ProductFocus.dfy`, `SellerProducts.dfy` | text normalisation, spoken-product detection, and alias derivation |
| `RunOfShow.dfy`, `LoadSimulator.dfy`, `BootstrapRetry.dfy` | stage time, the load schedule, and bootstrap backoff |

How the source's forms are kept. Expressions over trees and lists are functions. Loops that fill arrays,
maps and sets are methods proved against functions. Each object whose fields change over time is a class;
its methods say which step of a state machine (`Step`) they take, and the theorems about all runs (`Run`)
are about that machine. One `Step` is one stretch of code between two awaits, so a run is any interleaving.

Findings, each with a lemma:

- Pruning one id after another equals one pass exactly unless some strip slips: its selection is lost, and
  the head that takes it leaves a namesake behind when it goes (`DockLayout.PruneEachIsOnePass`). Ids unique
  within each strip rule that out, but are not needed; `DockMigration.SharedIdsBreakFusion` is a saved board on
  which the migration does slip. Removing no id at all is one pass exactly on trees in normal form
  (`DockMigration.EmptyReduceIsNoPass`), and the default board is not in normal form
  (`DockMigration.DefaultHasGroupOfOne`).
- The stage log drops the running time of a product whose id is the empty string
  (`RunOfShow.ChangePreservesSeconds` gives the exact condition, `RunOfShow.EmptyIdLosesTime` such a log).
- A Deepgram attempt that is not the newest can disturb the session in two ways, and in no other
  (`Deepgram.StaleAttemptIsQuietUnless`). Its own failure runs the shared cleanup, unless the session is already
  stopped in error; and a handler left on its socket or recorder reports an error, unless the session is in error
  already, or is stopping and the socket merely closes. The runs are `Deepgram.StaleFailureStopsNewAttempt`,
  `Deepgram.LateCloseStopsConnecting` and `Deepgram.LateCloseEndsListening`.
- The comment above the publisher retry schedule speaks of 10 offers; the code makes 11, ten of them
  after a wait, in the run of `PublisherWait.ElevenOffersSuffice`.
- Bootstrap waits follow the capped doubling from the first wait on only if the first wait does not exceed
  the cap (`BootstrapRetry.DelaysAreCappedDoublings`).
- The row of a viewer without a seller is shared with a named seller exactly when its board name spells
  that seller's key (`DockKeys.SharedRowMeets`); no board name without a colon does, so neither of the two
  Studio boards is affected (`DockKeys.OwnBoardsNeverMeet`).
- The picker keeps an explicit default that is sold out. An axis then offers a value exactly when some in-stock
  variant differs from the default on that axis at most (`VariantPicker.OpeningOffers`), and there are catalogs
  in which no axis offers any (`VariantPicker.StrandedIsReal`).

## Model

| member | source | states |
|---|---|---|
| `DockLayout.PassesAreOne` | apps/web/src/seller-dock-store.ts:176-195 | any number of passes over a tree leave what one pass removing all their panels leaves, inherited sizes and selected tabs included, exactly unless some strip slips; what survives and at which size agrees even then |
| `DockLayout.PruneFusion` | apps/web/src/seller-dock-store.ts:176-195 | removing one set of panels and then another is one removal of both exactly unless some strip slips between them |
| `DockLayout.TwoPassSlip` | apps/web/src/seller-dock-store.ts:176-187 | for two passes, slipping read off the two sets of survivors: the first pass loses the selection, and the head that takes it shares its id with a survivor of both that is not the final head |
| `DockLayout.PruneEachIsOnePass` | apps/web/src/seller-dock-store.ts:233-236 | the reduce over a non-empty list of retired ids is one pass removing them all exactly unless some strip slips |
| `DockLayout.UniqueNeverSlips` | apps/web/src/seller-dock-store.ts:176-187 | where ids are unique within each strip, no strip slips |
| `DockLayout.RetiredOrderIrrelevant` | apps/web/src/seller-dock-store.ts:233-236 | where ids are unique within each strip, lists with the same retired ids prune to the same tree, whatever their order |
| `DockMigration.SharedIdsBreakFusion` | apps/web/src/seller-dock-store.ts:224-236 | a saved board on which the migration retires Transcript and On Deck in turn and selects another tab than one pass would |
| `DockMigration.PruneIsIdentity` | apps/web/src/seller-dock-store.ts:176-195 | a pass leaves a tree alone exactly when it is in normal form and holds none of the named panels |
| `DockMigration.EmptyReduceIsNoPass` | apps/web/src/seller-dock-store.ts:233-236 | a reduce over no id, which leaves every tree alone, agrees with one pass removing nothing exactly on trees in normal form |
| `DockMigration.PruneNormalForm` | apps/web/src/seller-dock-store.ts:176-195 | what a prune leaves has no empty strip, no group with fewer than two children, and every selected tab a member |
| `DockLayout.KeepIs` | apps/web/src/seller-dock-store.ts:176-179 | a removal keeps, in place, the panels neither whose id nor whose type is named |
| `DockLayout.HoldsMeans` | apps/web/src/seller-dock-store.ts:197-200 | a strip answers to a name exactly when a panel has it as id or as type |
| `DockMigration.PruneFromAbove` | apps/web/src/seller-dock-store.ts:176-195 | the pruned tree seen from the top down: a group stands exactly where two or more children live, a slot hands its declared size down to the only one that lives, and a strip selects its old tab or, when that is gone, its first |
| `DockMigration.TraceDecodes` | apps/web/src/seller-dock-store.ts:176-195 | that view from above determines the tree |
| `DockMigration.PruneSize` | apps/web/src/seller-dock-store.ts:194 | a survivor has the size its slot declares, else that of the only living child, else none |
| `DockMigration.PruneStrips` | apps/web/src/seller-dock-store.ts:176-195 | panels are conserved: the surviving strips, in reading order, are the old ones minus the named panels, and nothing survives exactly when every panel was named |
| `DockMigration.ContainsStrips` | apps/web/src/seller-dock-store.ts:197-202 | the recursive search finds a name exactly when some strip in reading order holds it |
| `DockMigration.AddBesideStrips` | apps/web/src/seller-dock-store.ts:267-280 | insertion succeeds exactly when run-of-show is present, appends Inventory to the first strip holding it, and changes nothing else of the tree |
| `DockMigration.RetiredInIs` | apps/web/src/seller-dock-store.ts:225-227 | the ids collected are exactly the retired ids some root or floating strip holds |
| `DockMigration.MigrationPrunesOnce` | apps/web/src/seller-dock-store.ts:225-236 | pruning by the ids found equals one pass over all retired ids exactly unless a strip of the root slips, which none does where ids are unique within strips |
| `DockMigration.MigrateConserves` | apps/web/src/seller-dock-store.ts:224-297 | the board is reseeded under the stated condition; otherwise its strips are exactly the surviving ones in order, with Inventory appended to the first strip holding run-of-show where it was missing |
| `DockMigration.MigrateKeepsBoard` | apps/web/src/seller-dock-store.ts:233-294 | a board that is kept keeps its root as the passes left it and its pruned floating groups, but for the panels of the strip that takes Inventory |
| `DockMigration.KeptFloatingIs` | apps/web/src/seller-dock-store.ts:238-250 | each floating group is pruned on its own, keeping id, place and extent, and gone when no panel is left |
| `DockMigration.MigrateNormal` | apps/web/src/seller-dock-store.ts:224-297 | a board that lost a retired panel and was not reseeded comes out in normal form, root and floating groups alike: no empty strip, no group of one, every selected tab a member; a board with nothing to retire keeps its form |
| `DockMigration.DefaultHasGroupOfOne` | apps/web/src/seller-dock-layout.ts:91-124 | the default board is not in normal form: its rail is a group of one |
| `DockMigration.DefaultFromAbove` | apps/web/src/seller-dock-layout.ts:91-124 | the default board, strip by strip, with its sizes |
| `DockMigration.MigrateUpToDate` | apps/web/src/seller-dock-store.ts:224-297 | after migration no retired panel is left in root or floating groups and Inventory is present |
| `DockMigration.MigrateFixpoint` | apps/web/src/seller-dock-store.ts:224-297 | migrating again changes nothing, and a layout is returned unchanged exactly when it was up to date |
| `DockMigration.DefaultUpToDate` | apps/web/src/seller-dock-layout.ts:91-124 | the default board itself needs no migration and holds run-of-show |
| `DockMigration.MigrateManagerConverges` | apps/web/src/seller-dock-store.ts:308-316 | every Event Manager board converges on its single pane, and exactly the canonical boards are kept |
| `DockMigration.CanonicalManagerMeans` | apps/web/src/seller-dock-store.ts:308-316 | a board is canonical exactly when its only panel is the Event Manager, selected in a root strip |
| `DockMigration.ForegroundSelects` | apps/web/src/seller-dock-store.ts:326-345 | foregrounding succeeds exactly when some strip has the panel id, selects it in the first such strip, and keeps every panel and every other selection |
| `DockMigration.ForegroundKeepsBoard` | apps/web/src/seller-dock-store.ts:326-345 | foregrounding keeps trees, sizes, places and version, whatever it selects |
| `DockMigration.ForegroundStaysUpToDate` | apps/web/src/seller-dock-store.ts:376-388 | foregrounding never makes a migrated board stale |
| `DockStore.ResizesAreInvisible` | apps/web/src/seller-dock-store.ts:562-597 | over any interleaving, erasing the resizes changes no row but for its size and no outcome of any load, save or reset, so no conflict is caused by a resize |
| `DockStore.LastSizeSurvives` | apps/web/src/seller-dock-store.ts:454-470 | the last size outlives every load, save and migration until the row is removed or resized again |
| `DockStore.SizeSeen` | apps/web/src/seller-dock-store.ts:500-531 | a reader sees the stored size exactly when it is two positive numbers on a row that can be parsed |
| `DockStore.RemovalForgetsSize` | apps/web/src/seller-dock-store.ts:466-470 | removing the row forgets the size with it |
| `DockStore.RefusalsChangeNothing` | apps/web/src/seller-dock-store.ts:415-436 | a conflicting, invalid or otherwise refused operation leaves every row as it was, and no operation touches another key |
| `DockStore.NoLostUpdate` | apps/web/src/seller-dock-store.ts:390-400 | with fresh timestamps, a save presenting the loaded timestamp conflicts exactly when the row is there and differs from what was loaded in more than its size |
| `DockStore.SavesAreCurrent` | apps/web/src/seller-dock-store.ts:461-474 | a save that succeeds stores the given document under the current version and time, beside the size that was there |
| `DockStore.EachBoardConverges` | apps/web/src/seller-dock-store.ts:390-400 | each board is brought to its own up-to-date form and left alone exactly when it has it |
| `DockStore.MigratingLoadRaces` | apps/web/src/seller-dock-store.ts:390-412 | whatever others do between a load and its migration, the migrating save conflicts exactly when the row is there and changed beyond its size, and then storage is left as found; otherwise the migrated layout is stored beside the size the row has by then |
| `DockStore.SellerDockStore.Load` | apps/web/src/seller-dock-store.ts:403-413 | while nobody else writes in between: fails only if an unreadable row cannot be removed; otherwise the stored or freshly seeded row holds the migrated layout, with its size and, if nothing was migrated, its timestamp, and is returned with the destination panel selected; only a board that lost that panel is reset to the seed |
| `DockStore.SellerDockStore.Save` | apps/web/src/seller-dock-store.ts:415-436 | which saves conflict, which are invalid, that these change nothing, that a corrupt row is discarded, and that the size is kept |
| `DockStore.SellerDockStore.Migrate` | apps/web/src/seller-dock-store.ts:390-400 | stores the migrated layout, keeps the size, and writes nothing when there is nothing to migrate |
| `DockStore.SellerDockStore.BringForward` | apps/web/src/seller-dock-store.ts:376-388 | selects the destination panel, or resets the board that lost it and selects it in the seed |
| `DockStore.SellerDockStore.WriteBoardSize` | apps/web/src/seller-dock-store.ts:576-597 | writes the size or refuses, the next read sees what was written, and nothing else changes |
| `DockKeys.SellersAreIsolated` | apps/web/src/seller-dock-store.ts:69-108 | two named sellers share a row exactly when they are the same seller on the same board |
| `DockKeys.DecodeEncode` | apps/web/src/seller-dock-store.ts:102-108 | the percent encoding of a seller can be undone |
| `DockKeys.PlainCharacters` | apps/web/src/seller-dock-store.ts:102-108 | which characters of a seller id stand for themselves |
| `DockKeys.SharedKeyReads` | apps/web/src/seller-dock-store.ts:69-74 | the key of the shared Active Event row, letter by letter |
| `DockKeys.SharedRowMeets` | apps/web/src/seller-dock-store.ts:102-108 | the row without a seller is a named seller's exactly when its board name spells that seller's encoded id, a colon and the other board's name |
| `DockKeys.PlainNamesNeverMeet` | apps/web/src/seller-dock-store.ts:69-108 | a board whose name holds no colon never shares the row of a named seller |
| `DockKeys.OwnBoardsNeverMeet` | apps/web/src/seller-dock-layout.ts:58-62 | the two Studio boards never share a named seller's row |
| `SignatureText.EscapeIsOnePass` | apps/web/src/variant-picker.ts:68-70 | the three replacement passes equal one escape per character |
| `SignatureText.UnescapeEscape` | apps/web/src/variant-picker.ts:68-70 | the escape has a left inverse |
| `SignatureText.EscapesChar` | apps/web/src/variant-picker.ts:68-70 | backslash, bar and equals sign get a backslash, and no other character does |
| `SignatureText.JoinSpells` | apps/web/src/variant-picker.ts:94-97 | a signature grows by a bar, an escaped name, an equals sign and an escaped value |
| `SignatureText.JoinDecodes` | apps/web/src/variant-picker.ts:94-97 | joined segments can be read back in one way only |
| `VariantPicker.SortedAxesOrdered` | apps/web/src/variant-picker.ts:52-54 | the axes used are the given ones, ordered by position |
| `VariantPicker.BuildAxisLookup` | apps/web/src/variant-picker.ts:56-66 | the nested loops build the last-wins lookup |
| `VariantPicker.CanonicalVariantSignature` | apps/web/src/variant-picker.ts:78-98 | the loop computes the signature, or nothing on the same selections |
| `VariantPicker.SignatureExists` | apps/web/src/variant-picker.ts:78-98 | a selection has a signature exactly when every chosen value belongs to its axis and every required axis is chosen |
| `VariantPicker.SignatureDecodes` | apps/web/src/variant-picker.ts:78-98 | two selections have the same signature exactly when they choose the same value on every axis |
| `VariantPicker.BaseIsEmpty` | apps/web/src/variant-picker.ts:97 | `base` is the signature of the empty selection only, and no signature is empty |
| `VariantPicker.IndexVariants` | apps/web/src/variant-picker.ts:117-124 | the loop builds the last-wins index over the signatures |
| `VariantPicker.SignatureMeansChosen` | apps/web/src/variant-picker.ts:100-114 | a selection carries a variant's signature exactly when it chooses each of that variant's options |
| `VariantPicker.ResolveIsScan` | apps/web/src/variant-picker.ts:127-134 | looking a selection up in the index is scanning the variants for it |
| `VariantPicker.AvailableValueIds` | apps/web/src/variant-picker.ts:161-178 | a value is offered exactly when some in-stock variant has it on that axis and agrees with what is chosen on the others; an unknown axis offers nothing |
| `VariantPicker.AxisOffers` | apps/web/src/variant-picker.ts:136-178 | an axis offers a value exactly when some in-stock variant matches what is chosen on the other axes |
| `VariantPicker.EveryAxisOffers` | apps/web/src/variant-picker.ts:136-178 | where some in-stock variant matches, every axis offers an available value |
| `VariantPicker.PickerHasNoDeadEnd` | apps/web/src/variant-picker.ts:136-187 | over any run of picks the filter allows, an in-stock match remains, every axis keeps offering, and a complete selection resolves to the in-stock variant with those options |
| `VariantPicker.DefaultIs` | apps/web/src/variant-picker.ts:190-196 | the picker opens on the named default if there is one, else on the first variant in stock, else on the first |
| `VariantPicker.DefaultOpensLive` | apps/web/src/variant-picker.ts:190-196 | opening on stock opens on a selection with an in-stock match, and on no stock only by name or when nothing is in stock |
| `VariantPicker.OpeningOffers` | apps/web/src/variant-picker.ts:190-209 | on whatever variant the picker opens, an axis offers a value exactly when some in-stock variant differs from it on that axis at most |
| `VariantPicker.SoldOutDefaultStrands` | apps/web/src/variant-picker.ts:190-196 | a sold-out explicit default is kept, and where the only variant in stock shares no option with it neither of two axes offers a value |
| `VariantPicker.StrandedIsReal` | apps/web/src/variant-picker.ts:190-196 | a concrete valid catalog in which that happens |
| `VariantPicker.SelectionRoundTrip` | apps/web/src/variant-picker.ts:199-209 | selecting a variant and resolving the selection gives that variant back, in stock or not |
| `CatalogSync.QueryResumes` | scripts/typesense-sync.ts:114-142 | the page after the cursor is exactly the next rows of the sorted table, as many as the limit allows |
| `CatalogSync.StrLessDecides` | scripts/typesense-sync.ts:138-140 | the key order: the first difference decides, and a text comes before those it begins |
| `CatalogSync.DocNames` | scripts/typesense-sync.ts:61-88 | a document is named after its group and takes slug, name, category, picture and group id from the group's first row |
| `CatalogSync.DocBrand` | scripts/typesense-sync.ts:76 | an absent, empty or unknown brand is left blank |
| `CatalogSync.DocDescription` | scripts/typesense-sync.ts:75 | the description is cut at 2000 characters |
| `CatalogSync.DocPrices` | scripts/typesense-sync.ts:64-82 | the price range is tight over the group's rows, an absent price being zero |
| `CatalogSync.DocFacets` | scripts/typesense-sync.ts:65-86 | each condition code and each colour is listed once, and without a colour no list is sent |
| `CatalogSync.CodeIs` | scripts/typesense-sync.ts:65-68 | condition codes are trimmed and capitalised, colour labels trimmed only |
| `CatalogSync.DocTiers` | scripts/typesense-sync.ts:70-90 | the ten tier columns are sent exactly when the first of them is set |
| `CatalogSync.DocQuantity` | scripts/typesense-sync.ts:69 | the quantity adds up the rows' quantities, an absent or negative one counting nothing |
| `CatalogSync.PictureIs` | scripts/typesense-sync.ts:78 | the picture is the first primary image, else the first image, else none |
| `CatalogSync.TrimIs` | scripts/typesense-sync.ts:65-68 | trimming takes away blanks at the two ends and nothing else |
| `CatalogSync.TrimIsTight` | scripts/typesense-sync.ts:65-68 | trimming leaves no blank at either end |
| `CatalogSync.RunsAreGroupBy` | scripts/typesense-sync.ts:145-151 | runs of equal keys with increasing keys are the plain group-by of the rows they spell |
| `CatalogSync.GroupByPartitions` | scripts/typesense-sync.ts:145-158 | the plain group-by loses no row, repeats none, and each group is all the rows of its own key |
| `CatalogSync.FlushDocs` | scripts/typesense-sync.ts:104-111 | flushing keeps the documents in order, sends only full batches unless forced, and counts what it sent |
| `CatalogSync.ReadRow` | scripts/typesense-sync.ts:145-151 | one row keeps closed groups plus carry equal to the rows read |
| `CatalogSync.Sync` | scripts/typesense-sync.ts:98-157 | for any page and batch size the documents sent are those of the plain group-by, in order; every batch but the last is full; `imported` is their number; total quantity is the sum of the rows' quantities, an absent or negative one counting nothing |
| `CatalogSync.RetryCallBounded` | scripts/typesense-sync.ts:25-41 | at most eleven calls, only transient failures retried, waits of 1 s doubling up to 30 s, and the last call decides the result |
| `StreamSession.EveryRunConserves` | apps/web/src/hooks.ts:50-105 | over every interleaving, each session a connect returned is held or was stopped exactly once, and the held one belongs to the newest attempt |
| `StreamSession.NothingLeaks` | apps/web/src/hooks.ts:50-105 | whenever nothing is held, the sessions stopped are exactly the sessions ever returned, once each |
| `StreamSession.StaleSettlesQuietly` | apps/web/src/hooks.ts:72-88 | a stale attempt settling changes neither session, attempt, flag nor status |
| `StreamSession.SettlesOnce` | apps/web/src/hooks.ts:71-93 | an attempt settles once |
| `StreamSession.StartsWhenFree` | apps/web/src/hooks.ts:60-69 | a start is refused exactly while a session is held or connecting, and a refused one changes nothing |
| `StreamSession.NewestConnectIsHeld` | apps/web/src/hooks.ts:71-86 | a connect that returns to the newest attempt is held, and live unless attaching throws |
| `StreamSession.NewestConnectFails` | apps/web/src/hooks.ts:87-93 | a connect of the newest attempt that throws leaves nothing held and the pane free |
| `StreamSession.EndingReleases` | apps/web/src/hooks.ts:50-58 | a stop or unmount stops what is held and supersedes what is connecting |
| `StreamSession.SupersededOnlyByStop` | apps/web/src/hooks.ts:60-105 | until it settles, an attempt stays the newest exactly as long as nobody stops or unmounts |
| `StreamSession.StreamSessionHook.BeginStart` | apps/web/src/hooks.ts:60-69 | refuses while a session is held or connecting, else hands out a fresh attempt |
| `StreamSession.StreamSessionHook.FinishStart` | apps/web/src/hooks.ts:71-86 | the step after a connect returned, an attach that throws included |
| `StreamSession.StreamSessionHook.FailStart` | apps/web/src/hooks.ts:87-93 | the step after a connect threw |
| `StreamSession.StreamSessionHook.StopSession` | apps/web/src/hooks.ts:96-105 | the stop step |
| `StreamSession.StreamSessionHook.TearDown` | apps/web/src/hooks.ts:50-58 | the unmount step |
| `Deepgram.ListeningHoldsBoth` | apps/web/src/transcription.ts:376-519 | in every reachable state, listening means holding a recorder and a socket of the newest attempt, not stopped |
| `Deepgram.OnlyNewestEntersListening` | apps/web/src/transcription.ts:439-465 | only the newest un-stopped attempt, with a live stream and a recorder that starts, enters listening |
| `Deepgram.NewestGetsThrough` | apps/web/src/transcription.ts:428-465 | a usable token wires the newest attempt, and its open socket with a started recorder starts it listening |
| `Deepgram.StartBegins` | apps/web/src/transcription.ts:409-426 | a start begins a fresh attempt on a live stream, is refused on any other, and is ignored while one is under way |
| `Deepgram.ComplaintsAreErrors` | apps/web/src/transcription.ts:456-472 | a handler that reports puts the session in error and changes nothing else, whichever attempt it belongs to |
| `Deepgram.StopSilences` | apps/web/src/transcription.ts:482-491 | from a stop until the next start on a live stream the session is neither listening nor connecting and holds neither recorder nor socket |
| `Deepgram.StoppedAttemptNeverListens` | apps/web/src/transcription.ts:388-396 | an attempt that was stopped never attaches a recorder and never is the one listening |
| `Deepgram.StaleAttemptIsQuietUnless` | apps/web/src/transcription.ts:388-480 | an event of an attempt that is not the newest changes nothing of the session exactly unless the attempt fails while the session is not already stopped in error, or a handler it left behind complains while the session is not in error; a failure leaves nothing held, a complaint leaves everything held and only reports the error |
| `Deepgram.LateCloseStopsConnecting` | apps/web/src/transcription.ts:466-472 | a run from the start in which the late close of a stopped attempt's socket puts the attempt started since in error |
| `Deepgram.LateCloseEndsListening` | apps/web/src/transcription.ts:456-472 | a run from the start in which the close of an older attempt's socket ends listening in error while the newer recorder and socket stay held |
| `Deepgram.FailureSilences` | apps/web/src/transcription.ts:475-518 | whoever fails, after the shared cleanup nothing is held and nobody listens until the next start on a live stream |
| `Deepgram.StaleFailureStopsNewAttempt` | apps/web/src/transcription.ts:475-479 | two runs from the start in which an older attempt's refused token ends a newer one, one while it connects and one while it listens |
| `Deepgram.StaleFailureIsReachable` | apps/web/src/transcription.ts:409-480 | the states those runs reach before the failure: the second attempt connecting, and listening, with the first still waiting for its token |
| `Deepgram.DeepgramSession.BeginStart` | apps/web/src/transcription.ts:409-426 | when a start begins, is refused, or does nothing |
| `Deepgram.DeepgramSession.ResumeWithToken` | apps/web/src/transcription.ts:428-438 | the step after the token |
| `Deepgram.DeepgramSession.OnOpen` | apps/web/src/transcription.ts:440-465 | the step when the socket opens |
| `Deepgram.DeepgramSession.StopSession` | apps/web/src/transcription.ts:482-491 | after a stop nothing is held, whatever was in flight |
| `Deepgram.DeepgramSession.OnClose` | apps/web/src/transcription.ts:468-472 | the step when any attempt's socket closes |
| `Deepgram.DeepgramSession.OnComplaint` | apps/web/src/transcription.ts:456-467 | the step when any attempt's socket or recorder errs, or its message cannot be read |
| `PublisherWait.ChainsAreBounded` | apps/web/src/BuyerTab.tsx:458-500 | over every run, one chain makes at most 11 offers and waits at most 96 s |
| `PublisherWait.RefusedOffersReach` | apps/web/src/BuyerTab.tsx:467-497 | after k refused offers and k waits, up to ten, exactly offer number k is in flight and the chain has made k + 1 offers |
| `PublisherWait.ElevenOffersSuffice` | apps/web/src/buyer-stream-recovery.ts:64-80 | the run in which every offer is refused makes exactly 11 offers, waits 96 s and ends with the publisher absent and nothing armed or in flight |
| `PublisherWait.RefusalArmsNext` | apps/web/src/BuyerTab.tsx:478-497 | a refused offer of the newest chain arms the next one by the schedule, or ends the chain when it is spent |
| `PublisherWait.AnswerEndsChain` | apps/web/src/BuyerTab.tsx:474-477 | an answered offer of the newest chain ends it |
| `PublisherWait.StaleOutcomeIsQuiet` | apps/web/src/BuyerTab.tsx:474 | an outcome of a superseded chain changes nothing |
| `PublisherWait.LossCostsAChain` | apps/web/src/BuyerTab.tsx:505-515 | a lost connection spends one of the budget on a chain, or shows the publisher absent |
| `PublisherWait.LiveRestoresBudget` | apps/web/src/BuyerTab.tsx:517-535 | a live event restores the whole loss budget and starts a chain |
| `PublisherWait.SupersededChainIsSilent` | apps/web/src/BuyerTab.tsx:467-497 | a superseded chain makes no further offer and schedules no further wait |
| `PublisherWait.LossBudgetBoundsChains` | apps/web/src/BuyerTab.tsx:505-515 | between live events and manual retries, chains started plus losses left stay constant |
| `PublisherWait.PublisherWaiter.ConnectStreamUntilPublisher` | apps/web/src/BuyerTab.tsx:467-474 | starting a chain supersedes the previous one and makes one offer |
| `PublisherWait.PublisherWaiter.OnOutcome` | apps/web/src/BuyerTab.tsx:474-497 | the step after an offer: settled, spent, or a timer armed |
| `PublisherWait.PublisherWaiter.OnConnectionLost` | apps/web/src/BuyerTab.tsx:506-514 | the loss step and its budget |
| `LiveTranscript.PendingIsAlwaysSound` | apps/web/src/use-live-transcript.ts:138-276 | in every reachable state the pending suggestion is not the active row, has confidence at least 0.84, and was proposed at least 45 s after every dismissal of that row |
| `LiveTranscript.HeardAdopts` | apps/web/src/use-live-transcript.ts:198-250 | what a final segment leaves pending: the suggested row with its evidence and its two or more choices unless it is on stage or was dismissed less than 45 s ago, nothing when the words are about the row on stage, else what had not expired; and when a classifier request is sent |
| `LiveTranscript.HonouredAdopts` | apps/web/src/use-live-transcript.ts:242-250 | an honoured reply proposes the catalog row it names |
| `LiveTranscript.ReachableRemembers` | apps/web/src/use-live-transcript.ts:138-182 | in every reachable state, the cooldowns are those of the dismissals so far |
| `LiveTranscript.HonouredIffUndisturbed` | apps/web/src/use-live-transcript.ts:233-250 | a reply is honoured exactly when no stage, dismissal, suggestion, clearing, newer request, active change or stop came since its request, and it names another catalog row at or above the floor |
| `LiveTranscript.IgnoredReplyLeavesNoTrace` | apps/web/src/use-live-transcript.ts:242-249 | over any run that follows a reply not honoured, every state is the one in which the reply never came, but for its request being answered |
| `LiveTranscript.OnlyUnexpiredIsConfirmed` | apps/web/src/use-live-transcript.ts:210-216 | a spoken confirmation stages only an unexpired pending suggestion, always a catalog row not on stage |
| `LiveTranscript.ConfirmationStages` | apps/web/src/use-live-transcript.ts:210-216 | a spoken confirmation of an unexpired suggestion stages it as a click would |
| `LiveTranscript.ConfirmsByWords` | apps/web/src/use-live-transcript.ts:68 | a segment confirms exactly when its words are those of a confirmation |
| `LiveTranscript.StagingIs` | apps/web/src/use-live-transcript.ts:166-175 | staging the row on stage only clears the suggestion, an unknown row does nothing, any other is staged |
| `LiveTranscript.ClearingIs` | apps/web/src/use-live-transcript.ts:177-196 | dismissing, leaving the product and leaving the panel clear the suggestion, and only dismissing starts a cooldown |
| `LiveTranscript.RequestsAreKept` | apps/web/src/use-live-transcript.ts:235-242 | request numbers are never reused |
| `LiveTranscript.Controller.OnFinalSegment` | apps/web/src/use-live-transcript.ts:198-250 | the step of a final segment, and the fresh number of the request it makes |
| `LiveTranscript.Controller.OnReply` | apps/web/src/use-live-transcript.ts:242-250 | the step of a classifier reply |
| `LiveTranscript.Controller.DismissSuggestion` | apps/web/src/use-live-transcript.ts:177-182 | the dismissal step |
| `LiveTranscript.Controller.StageProduct` | apps/web/src/use-live-transcript.ts:166-175 | the staging step |
| `TranscriptText.NormalizeJoinsWords` | apps/web/src/transcript-product-focus.ts:121-132 | the pipeline spells exactly the maximal words of a-z and 0-9 of the lower-cased text without apostrophes, joined by single spaces |
| `TranscriptText.FoldsChar` | apps/web/src/transcript-product-focus.ts:121-129 | letters lose their case, the three apostrophes vanish |
| `TranscriptText.ApostrophesVanish` | apps/web/src/transcript-product-focus.ts:124-128 | a text has the same words with an apostrophe as without it |
| `TranscriptText.SeparatorsPart` | apps/web/src/transcript-product-focus.ts:130 | any other character than a-z and 0-9 parts the words on its two sides |
| `TranscriptText.OneWord` | apps/web/src/transcript-product-focus.ts:130 | letters and digits in a row are one word |
| `TranscriptText.NormalizeIdempotent` | apps/web/src/transcript-product-focus.ts:121-132 | normalising twice is normalising once, and keeps the words |
| `TranscriptText.SearchIsWordSearch` | apps/web/src/transcript-product-focus.ts:159-162 | the padded substring test holds exactly when the term's words are a contiguous run of the text's words |
| `ProductFocus.WindowIsRecent` | apps/web/src/transcript-product-focus.ts:134-141 | the window is the last four segments with a word in them, or all where there are fewer |
| `ProductFocus.CollectSignalTerms` | apps/web/src/transcript-product-focus.ts:168-201 | the loops collect the terms of a row |
| `ProductFocus.SignalTermsExact` | apps/web/src/transcript-product-focus.ts:168-201 | which terms a row has and how strong each is; a weak term counts only if no other row shares it |
| `ProductFocus.RecognisedBy` | apps/web/src/transcript-product-focus.ts:168-186 | what a row can be recognised by at all |
| `ProductFocus.MentionsExact` | apps/web/src/transcript-product-focus.ts:203-225 | a row is mentioned by a term exactly when the segment speaks the term's words in a row |
| `ProductFocus.MentionsPlaced` | apps/web/src/transcript-product-focus.ts:164-225 | a mention is after the transition exactly when a cue stands in its segment and the last one starts before the term is first spoken |
| `ProductFocus.BestIsFirstBest` | apps/web/src/transcript-product-focus.ts:227-234 | the best mention is the earliest of those no other is ahead of |
| `ProductFocus.VariantChoicesFor` | apps/web/src/transcript-product-focus.ts:243-251 | the loop keeps the first mention of each row id |
| `ProductFocus.MultipleMeansProducts` | apps/web/src/transcript-product-focus.ts:285-330 | "multiple products" is answered exactly when several products, not rows, are named off stage and the words after a transition do not single one out |
| `ProductFocus.RowsOfOneProduct` | apps/web/src/transcript-product-focus.ts:28-30 | rows that share a group key never make the answer "multiple products", whatever their ids |
| `ProductFocus.DecideExact` | apps/web/src/transcript-product-focus.ts:285-366 | the whole decision: which answer, evidence, confidence and choices each pattern of mentions gives, and when the classifier is worth asking |
| `ProductFocus.DetectDecides` | apps/web/src/transcript-product-focus.ts:260-300 | what the detection decides on: the window's mentions, the product on stage, and whether the words of a transition or comparison cue were spoken in a row |
| `ProductFocus.DetectSound` | apps/web/src/transcript-product-focus.ts:260-366 | a suggestion is outside the active group, has confidence in [0.84, 0.99], offers distinct rows of its own group, and each evidence segment is recent and speaks a term of that product |
| `SellerProducts.AliasTokenRuns` | apps/web/src/seller-products.ts:65-83 | the loop splits a title into runs of speakable words |
| `SellerProducts.SpeakableMeans` | apps/web/src/seller-products.ts:65-74 | a speakable word has three letters or more, no digit, and is no stop or spec word |
| `SellerProducts.RunsHoldPhrases` | apps/web/src/seller-products.ts:57-83 | a phrase lies in one run exactly when its words are speakable and contiguous in the title |
| `SellerProducts.TitleNgrams` | apps/web/src/seller-products.ts:86-96 | the nested loops list the n-grams of the runs |
| `SellerProducts.NgramsArePhrases` | apps/web/src/seller-products.ts:86-96 | the n-grams are exactly the unbroken two- and three-word phrases of the title, each once |
| `SellerProducts.VariantsToTranscriptOptions` | apps/web/src/seller-products.ts:116-150 | an option's aliases are exactly the title phrases only its group uses, plus its brand |
| `SellerProducts.AliasesDoNotCross` | apps/web/src/seller-products.ts:98-115 | an alias taken from one product's title, the brand included where it is such a phrase, never occurs, word for word, in a title of another product |
| `SellerProducts.SiblingsShareAliases` | apps/web/src/seller-products.ts:98-125 | a phrase that only variants of one group use is an alias of each of them |
| `SellerProducts.SharedPhrasesNameNobody` | apps/web/src/seller-products.ts:98-125 | a phrase that variants of two groups use is an alias of neither, unless it is the brand |
| `RunOfShow.ChangePreservesSeconds` | apps/web/src/run-of-show.ts:100-129 | a change at time t alters no product's seconds at t, exactly unless an empty id with running time leaves the stage |
| `RunOfShow.EmptyIdLosesTime` | apps/web/src/run-of-show.ts:100-129 | a log, reached from the empty one, that loses the second an empty id was on stage |
| `RunOfShow.SecondsSumToTotal` | apps/web/src/run-of-show.ts:123-129 | the per-product seconds sum to the total elapsed |
| `RunOfShow.SpentIsRounded` | apps/web/src/run-of-show.ts:99-104 | time on stage is rounded to the nearest second, a half up, and is never negative |
| `RunOfShow.TotalWithinHalfSecondEach` | apps/web/src/run-of-show.ts:99-120 | with times that never go back, the total differs from true time on stage by at most half a second per appearance |
| `RunOfShow.ViewIsConsistent` | apps/web/src/run-of-show.ts:192-218 | slot states partition the plan with at most one active, the active slot and the detour exclude each other, and next-up is the earliest upcoming slot |
| `RunOfShow.SlotShows` | apps/web/src/run-of-show.ts:192-216 | what each slot shows: on stage, left behind with time on it, or still to come; its time and its distance from the budget |
| `RunOfShow.PaceShows` | apps/web/src/run-of-show.ts:225-232 | there is a pace once a budgeted slot has been on stage |
| `RunOfShow.PaceAddsUp` | apps/web/src/run-of-show.ts:225-232 | the pace adds up slot by slot, the one on stage counting only what it is over |
| `RunOfShow.PlanConservesSeconds` | apps/web/src/run-of-show.ts:192-243 | planned plus off-plan seconds equal the total |
| `RunOfShow.PaceNeverDecreases` | apps/web/src/run-of-show.ts:225-232 | while the staged product is unchanged the pace never decreases, appears or vanishes |
| `RunOfShow.ClockRoundTrip` | apps/web/src/run-of-show.ts:267-275 | clock text decodes to the seconds it was made from |
| `RunOfShow.ClockShape` | apps/web/src/run-of-show.ts:267-275 | clock text is minutes and two digits of seconds, or hours and two digits of each |
| `LoadSimulator.SimulateLoad` | apps/web/src/load-simulator.ts:63-104 | rejects the first bad dimension, else sends users times rate times duration messages, the one at each position as scheduled, with their counts |
| `LoadSimulator.FieldReported` | apps/web/src/load-simulator.ts:64-66 | the first dimension below one is the one rejected |
| `LoadSimulator.DefaultAsksEveryKind` | apps/web/src/load-simulator.ts:8-16 | the corpus used when none is given asks one question of every kind |
| `LoadSimulator.SentIsUses` | apps/web/src/load-simulator.ts:75-87 | messages that ask the corpus round robin ask each entry as often as the positions holding it are used |
| `LoadSimulator.FairShare` | apps/web/src/load-simulator.ts:75-87 | after any number of messages sent, each entry was asked its number of copies in the corpus times the floor share, plus its copies among the first (messages mod size) positions |
| `LoadSimulator.CoverageIsEarlyKinds` | apps/web/src/load-simulator.ts:90-101 | coverage is complete exactly when every kind occurs in the first min(total, corpus size) entries |
| `LoadSimulator.RateEverySecond` | apps/web/src/load-simulator.ts:76-81 | a client's messages in one whole second are exactly `rate` consecutive positions |
| `BootstrapRetry.BootstrapWithRetry` | apps/api/src/bootstrap-retry.ts:84-133 | the run ends at the first attempt that starts or spends a budget, giving up rethrows that attempt's error, and the waits are the backoff in order |
| `BootstrapRetry.EndsWhen` | apps/api/src/bootstrap-retry.ts:109-124 | exactly what ends a run: a start, a conflict that spends the conflict budget, or the attempt budget |
| `BootstrapRetry.DelaysAreCappedDoublings` | apps/api/src/bootstrap-retry.ts:97-130 | every wait is min(initial times 2^k, max) exactly when the first wait does not exceed the cap |
| `BootstrapRetry.RunIsBounded` | apps/api/src/bootstrap-retry.ts:109-124 | a run ends by its attempt budget, and the conflicts over the whole run before its end stay below the conflict budget |
| `BootstrapRetry.BudgetsEndTheRun` | apps/api/src/bootstrap-retry.ts:109-124 | a finite attempt budget ends every run that has as many outcomes, and as many port conflicts as their budget end it wherever they fall |

## Left out

- React rendering, effects other than those named above, CSS, and every panel component.
- The workbench's local-storage store is not part of this model as code. Its contract is taken from the comments: a save validates the incoming layout, re-reads the row, compares the expected timestamp with an existing row, and spreads the other fields; a reset removes the row. Whether a reset also writes the seed it returns is left open, and both cases are covered. A layout counts as valid when it has the tree shape and schema version 1.
- Layout trees are values. `foregroundSellerDockPanel` assigns to a JSON clone in place; the model gives the resulting tree and captures no aliasing inside the clone. Fields of panels, strips and groups that the code only spreads through are not listed.
- `DockMigration.MigrateFixpoint`: the store compares object identity; the model compares values, which decides the same cases because every fresh result differs from its input.
- `DockKeys.SellersAreIsolated`: a seller id is given as its trimmed UTF-8 bytes; the trimming and the UTF-8 encoding step are not modelled.
- `CatalogSync.CodeIs`: condition codes are upper-cased in ASCII only.
- `CatalogSync.DocDescription`: texts are cut by characters, not UTF-16 units.
- `CatalogSync.Sync`: the query is a pure function of a fixed sorted table, text is ordered character by character, and an import call that fails for good, ending the sync, is not modelled.
- `TranscriptText.NormalizeJoinsWords`: lower-casing follows the root locale, not the Turkic or Lithuanian ones. Characters beyond ASCII other than the Kelvin sign and the dotted capital I are left alone: in either case none of them becomes a letter a-z or a digit.
- `SellerProducts.VariantsToTranscriptOptions`: in a brand alias, letters beyond ASCII keep their case, which no match depends on.
- `ProductFocus.DetectSound`: strengths and confidences are exact decimals, without floating-point rounding.
- `LiveTranscript.PendingIsAlwaysSound`: the wall clock never goes back, and a change of the active product and the effect that clears the suggestion are one step. Interim segments and the replacement of the session are not modelled.
- `LoadSimulator.SimulateLoad`: dimensions are integers, and elapsed times are exact where the code multiplies a floating-point quotient.
- `RunOfShow.ViewIsConsistent`: titles, planned totals, the unplanned list and seeded plans only add simple members.
- `VariantPicker.ResolveIsScan`: assumes what the catalog guarantees: distinct axes by id, slug and position, value ids non-empty and unique, value slugs unique within an axis, and one option per axis with distinct option tuples.
- `StreamSession.EveryRunConserves`: a connect returns a session of its own, named by its attempt; the video element is not modelled.
- Plain records keyed by product, axis or kind are maps: keys that a JavaScript object inherits from `Object.prototype`, such as `constructor`, are not modelled.
- Deepgram: listeners do not call back into the session; segment numbering, message contents and the data sent to the socket are not modelled; setting a token in the options is the case where the token arrives at once. The Web Speech session and the provider chooser are not modelled.
- PublisherWait: what an offer does is one of two outcomes, not ready or anything else; the session lifecycle behind it is the separate model `StreamSession`.
- Auction bids, judging, message triage, routing, buyer identity and Link-header parsing.
