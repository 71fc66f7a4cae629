/**
 * Which product the seller is talking about: terms, mentions and the focus decision, which counts
 * products and not the catalog rows of one product.
 */
module ProductFocus {
  import opened Prelude
  import opened TranscriptText

  datatype Traits = Traits(name: string, aliases: seq<string>, brand: Option<string>, productType: Option<string>,
                           color: Option<string>, sku: Option<string>)

  datatype Product = Product(id: string, groupKey: Option<string>, traits: Traits)

  function GroupOf(p: Product): string {
    p.groupKey.GetOr(p.id)
  }

  /** The product a row belongs to: its group, or the row itself when it has none. */
  ghost function ProductKey(p: Product): string {
    if p.groupKey.Some? then p.groupKey.value else p.id
  }

  datatype Segment = Segment(id: string, text: string)

  const WINDOW_SEGMENTS := 4
  const CONFIDENCE_FLOOR := 0.84

  const TRANSITION_CUES := [
    "move on to", "moving on to", "switch to", "switching to", "make active", "put on stage", "take live",
    "up next", "next up", "now showing", "now let us look at", "now lets look at", "let us look at",
    "lets look at", "want to show", "going to show"]

  const COMPARISON_CUES := [
    "compared with", "compared to", "cheaper than", "more than", "less than", "unlike", "versus", "vs"]

  // ---------------------------------------------------------------- lists

  /** Keeps the first occurrence of each entry. */
  function Dedup<T(==)>(s: seq<T>): seq<T> {
    if s == [] then []
    else
      var init := Dedup(s[..|s| - 1]);
      if s[|s| - 1] in init then init else init + [s[|s| - 1]]
  }

  lemma {:induction false} DedupMembers<T>(s: seq<T>)
    ensures Distinct(Dedup(s))
    ensures forall x :: x in Dedup(s) <==> x in s
  {
    if s != [] {
      DedupMembers(s[..|s| - 1]);
      assert s == s[..|s| - 1] + [s[|s| - 1]];
    }
  }

  /** Entries stay in the order of their first occurrence. */
  lemma DedupSnoc<T>(s: seq<T>, x: T)
    ensures Dedup<T>([]) == []
    ensures Dedup(s + [x]) == if x in s then Dedup(s) else Dedup(s) + [x]
  {
    SnocInit(s, x);
    DedupMembers(s);
  }

  function Filter<T>(f: T -> bool, s: seq<T>): seq<T> {
    if s == [] then [] else (if f(s[0]) then [s[0]] else []) + Filter(f, s[1..])
  }

  lemma {:induction false} FilterMembers<T>(f: T -> bool, s: seq<T>)
    ensures forall x :: x in Filter(f, s) <==> x in s && f(x)
  {
    if s != [] {
      FilterMembers(f, s[1..]);
      assert s == [s[0]] + s[1..];
    }
  }

  lemma {:induction false} FilterSnoc<T>(f: T -> bool, s: seq<T>, x: T)
    ensures Filter(f, s + [x]) == Filter(f, s) + if f(x) then [x] else []
  {
    if s == [] {
      ConcatEmpty([x]);
      assert [x][1..] == [];
    } else {
      ConcatHead(s, [x]);
      FilterSnoc(f, s[1..], x);
      ConcatAssociates(if f(s[0]) then [s[0]] else [], Filter(f, s[1..]), if f(x) then [x] else []);
    }
  }

  // ---------------------------------------------------------------- the window

  predicate NonBlank(s: Segment) {
    Normalize(s.text) != ""
  }

  function LastOf<T>(s: seq<T>, n: nat): seq<T> {
    if |s| <= n then s else s[|s| - n..]
  }

  function Window(segments: seq<Segment>): seq<Segment> {
    LastOf(Filter(NonBlank, segments), WINDOW_SEGMENTS)
  }

  lemma SpokenIsNonBlank(s: Segment)
    ensures NonBlank(s) <==> Words(s.text) != []
  {
    NormalizeJoinsWords(s.text);
    if Words(s.text) != [] { JoinEdges(Words(s.text)); }
  }

  lemma SpokenSegments(segments: seq<Segment>)
    ensures forall s :: s in Filter(NonBlank, segments) <==> s in segments && Words(s.text) != []
    ensures Filter(NonBlank, segments) == [] <==> forall s :: s in segments ==> Words(s.text) == []
  {
    var spoken := Filter(NonBlank, segments);
    FilterMembers(NonBlank, segments);
    forall s ensures s in spoken <==> s in segments && Words(s.text) != [] {
      SpokenIsNonBlank(s);
    }
    if spoken != [] { assert spoken[0] in spoken; }
  }

  lemma LastOfIs<T>(s: seq<T>, n: nat)
    ensures |LastOf(s, n)| == Min(n, |s|)
    ensures exists older :: s == older + LastOf(s, n)
    ensures forall x :: x in LastOf(s, n) ==> x in s
  {
    assert s == s[..|s| - |LastOf(s, n)|] + LastOf(s, n);
  }

  /** The window is the last four segments with a word in them, or all of them where there are fewer. */
  lemma WindowIsRecent(segments: seq<Segment>)
    ensures |Window(segments)| == Min(4, |Filter(NonBlank, segments)|)
    ensures forall s :: s in Window(segments) ==> s in segments && Words(s.text) != []
    ensures Window(segments) == [] <==> forall s :: s in segments ==> Words(s.text) == []
    ensures exists older :: Filter(NonBlank, segments) == older + Window(segments)
  {
    SpokenSegments(segments);
    LastOfIs(Filter(NonBlank, segments), WINDOW_SEGMENTS);
  }

  // ---------------------------------------------------------------- terms of a product

  datatype Signal = Signal(term: string, strength: real, explicitName: bool)

  function NormalizeAll(texts: seq<string>): seq<string> {
    seq(|texts|, i requires 0 <= i < |texts| => Normalize(texts[i]))
  }

  function AliasSignals(aliases: seq<string>, name: string): seq<Signal> {
    if aliases == [] then []
    else
      var init := AliasSignals(aliases[..|aliases| - 1], name);
      var alias := aliases[|aliases| - 1];
      if |alias| >= 3 && alias != name
      then init + [Signal(alias, if ' ' in alias then 0.92 else 0.86, false)] else init
  }

  function StrongSignals(p: Product): seq<Signal> {
    var name := Normalize(p.traits.name);
    (if |name| >= 2 then [Signal(name, 0.98, true)] else []) + AliasSignals(NormalizeAll(p.traits.aliases), name)
  }

  predicate HasTerm(signals: seq<Signal>, term: string) {
    exists i :: 0 <= i < |signals| && signals[i].term == term
  }

  function WithWeak(signals: seq<Signal>, weak: seq<string>, others: seq<string>): seq<Signal> {
    if weak == [] then signals
    else
      var init := WithWeak(signals, weak[..|weak| - 1], others);
      var term := weak[|weak| - 1];
      if |term| < 3 || HasTerm(init, term) || term in others then init else init + [Signal(term, 0.66, false)]
  }

  function WeakTerms(p: Product): seq<string> {
    NormalizeAll([p.traits.brand.GetOr(""), p.traits.productType.GetOr(""), p.traits.color.GetOr(""),
                  p.traits.sku.GetOr("")])
  }

  /** Every text a row can be recognised by. */
  function TermsOf(p: Product): seq<string> {
    [Normalize(p.traits.name)] + NormalizeAll(p.traits.aliases) + WeakTerms(p)
  }

  /** Every text another row could be recognised by. */
  function OtherTerms(p: Product, products: seq<Product>): seq<string> {
    if products == [] then []
    else
      (if products[0].id == p.id then [] else TermsOf(products[0]))
      + OtherTerms(p, products[1..])
  }

  function SignalTerms(p: Product, products: seq<Product>): seq<Signal> {
    WithWeak(StrongSignals(p), WeakTerms(p), OtherTerms(p, products))
  }

  method CollectAliasSignals(aliases: seq<string>, name: string) returns (signals: seq<Signal>)
    ensures signals == AliasSignals(aliases, name)
  {
    signals := [];
    for i := 0 to |aliases|
      invariant signals == AliasSignals(aliases[..i], name)
    {
      assert aliases[..i + 1][..i] == aliases[..i];
      if |aliases[i]| >= 3 && aliases[i] != name {
        signals := signals + [Signal(aliases[i], if ' ' in aliases[i] then 0.92 else 0.86, false)];
      }
    }
    assert aliases[..|aliases|] == aliases;
  }

  method CollectSignalTerms(p: Product, products: seq<Product>) returns (signals: seq<Signal>)
    ensures signals == SignalTerms(p, products)
  {
    var name := Normalize(p.traits.name);
    var weak := WeakTerms(p);
    var others := OtherTerms(p, products);
    signals := CollectAliasSignals(NormalizeAll(p.traits.aliases), name);
    signals := (if |name| >= 2 then [Signal(name, 0.98, true)] else []) + signals;
    for i := 0 to |weak|
      invariant signals == WithWeak(StrongSignals(p), weak[..i], others)
    {
      assert weak[..i + 1][..i] == weak[..i];
      if |weak[i]| < 3 || HasTerm(signals, weak[i]) { continue; }
      if weak[i] in others { continue; }
      signals := signals + [Signal(weak[i], 0.66, false)];
    }
    assert weak[..|weak|] == weak;
  }

  lemma {:induction false} OtherTermsAre(p: Product, products: seq<Product>, t: string)
    ensures t in OtherTerms(p, products) <==> exists q :: q in products && q.id != p.id && t in TermsOf(q)
  {
    if products != [] {
      OtherTermsAre(p, products[1..], t);
      assert products == [products[0]] + products[1..];
      assert products[0] in products;
    }
  }

  function AliasSignal(term: string): Signal {
    Signal(term, if ' ' in term then 0.92 else 0.86, false)
  }

  lemma {:induction false} AliasSignalsAre(aliases: seq<string>, name: string, s: Signal)
    ensures s in AliasSignals(aliases, name) <==>
      s.term in aliases && |s.term| >= 3 && s.term != name && s == AliasSignal(s.term)
  {
    if aliases != [] {
      var init := aliases[..|aliases| - 1];
      AliasSignalsAre(init, name, s);
      assert aliases == init + [aliases[|aliases| - 1]];
    }
  }

  lemma HasTermSnoc(signals: seq<Signal>, s: Signal, t: string)
    ensures HasTerm(signals + [s], t) <==> HasTerm(signals, t) || s.term == t
  {
    if HasTerm(signals, t) {
      var i :| 0 <= i < |signals| && signals[i].term == t;
      assert (signals + [s])[i].term == t;
    }
    assert (signals + [s])[|signals|] == s;
  }

  lemma {:induction false} WithWeakAre(signals: seq<Signal>, weak: seq<string>, others: seq<string>, s: Signal)
    ensures s in WithWeak(signals, weak, others) <==>
      s in signals
      || (s.term in weak && |s.term| >= 3 && !HasTerm(signals, s.term) && s.term !in others && s == Signal(s.term, 0.66, false))
    ensures forall t :: HasTerm(WithWeak(signals, weak, others), t) <==>
      HasTerm(signals, t) || (t in weak && |t| >= 3 && t !in others)
  {
    if weak != [] {
      var init, term := weak[..|weak| - 1], weak[|weak| - 1];
      WithWeakAre(signals, init, others, s);
      assert weak == init + [term];
      var before := WithWeak(signals, init, others);
      forall t ensures HasTerm(before + [Signal(term, 0.66, false)], t) <==> HasTerm(before, t) || t == term {
        HasTermSnoc(before, Signal(term, 0.66, false), t);
      }
    }
  }

  lemma NormalizedIn(texts: seq<string>, t: string)
    ensures t in NormalizeAll(texts) <==> exists x :: x in texts && t == Normalize(x)
  {
    if x :| x in texts && t == Normalize(x) {
      var i :| 0 <= i < |texts| && texts[i] == x;
      assert NormalizeAll(texts)[i] == t;
    }
    if t in NormalizeAll(texts) {
      var i :| 0 <= i < |texts| && NormalizeAll(texts)[i] == t;
      assert texts[i] in texts;
    }
  }

  /** What a row can be recognised by: its name and aliases; its brand, type, colour and SKU only weakly. */
  lemma RecognisedBy(p: Product, t: string)
    ensures t in WeakTerms(p) <==>
      || t == Normalize(p.traits.brand.GetOr("")) || t == Normalize(p.traits.productType.GetOr(""))
      || t == Normalize(p.traits.color.GetOr("")) || t == Normalize(p.traits.sku.GetOr(""))
    ensures t in TermsOf(p) <==>
      t == Normalize(p.traits.name) || t in WeakTerms(p) || exists alias :: alias in p.traits.aliases && t == Normalize(alias)
  {
    NormalizedIn(p.traits.aliases, t);
    var weak := WeakTerms(p);
    assert |weak| == 4;
    assert weak[0] == Normalize(p.traits.brand.GetOr("")) && weak[1] == Normalize(p.traits.productType.GetOr(""));
    assert weak[2] == Normalize(p.traits.color.GetOr("")) && weak[3] == Normalize(p.traits.sku.GetOr(""));
  }

  /**
   * The terms of a row, exactly: its name; its longer aliases, stronger when they have several words;
   * and a brand, type, colour or SKU that is not a term already and no other row shares.
   */
  lemma SignalTermsExact(p: Product, products: seq<Product>, s: Signal)
    ensures s in SignalTerms(p, products) <==>
      || (s == Signal(Normalize(p.traits.name), 0.98, true) && |s.term| >= 2)
      || (s.term in NormalizeAll(p.traits.aliases) && |s.term| >= 3 && s.term != Normalize(p.traits.name)
          && s == AliasSignal(s.term))
      || (s.term in WeakTerms(p) && |s.term| >= 3 && !HasTerm(StrongSignals(p), s.term)
          && s == Signal(s.term, 0.66, false)
          && !exists q :: q in products && q.id != p.id && s.term in TermsOf(q))
  {
    AliasSignalsAre(NormalizeAll(p.traits.aliases), Normalize(p.traits.name), s);
    WithWeakAre(StrongSignals(p), WeakTerms(p), OtherTerms(p, products), s);
    OtherTermsAre(p, products, s.term);
  }

  /** A usable term: normalised text of at least one word, with one of the four strengths. */
  ghost predicate GoodSignal(s: Signal) {
    && s.term != ""
    && (exists text :: s.term == Normalize(text))
    && (s.strength == 0.98 || s.strength == 0.92 || s.strength == 0.86 || s.strength == 0.66)
  }

  lemma {:induction false} AliasSignalsGood(texts: seq<string>, name: string)
    ensures forall s :: s in AliasSignals(NormalizeAll(texts), name) ==> GoodSignal(s)
  {
    if texts != [] {
      var init := texts[..|texts| - 1];
      AliasSignalsGood(init, name);
      assert NormalizeAll(texts)[..|texts| - 1] == NormalizeAll(init);
    }
  }

  lemma {:induction false} WithWeakGood(signals: seq<Signal>, texts: seq<string>, others: seq<string>)
    requires forall s :: s in signals ==> GoodSignal(s)
    ensures forall s :: s in WithWeak(signals, NormalizeAll(texts), others) ==> GoodSignal(s)
  {
    if texts != [] {
      var init := texts[..|texts| - 1];
      WithWeakGood(signals, init, others);
      assert NormalizeAll(texts)[..|texts| - 1] == NormalizeAll(init);
    }
  }

  lemma SignalTermsGood(p: Product, products: seq<Product>)
    ensures forall s :: s in SignalTerms(p, products) ==> GoodSignal(s)
  {
    AliasSignalsGood(p.traits.aliases, Normalize(p.traits.name));
    WithWeakGood(StrongSignals(p), [p.traits.brand.GetOr(""), p.traits.productType.GetOr(""), p.traits.color.GetOr(""),
                                    p.traits.sku.GetOr("")], OtherTerms(p, products));
  }

  // ---------------------------------------------------------------- mentions

  datatype Mention = Mention(product: Product, segmentId: string, segmentIndex: nat, signal: Signal, afterTransition: bool)

  /** First position of `part` at or after `from`. */
  function FirstIndex(text: string, part: string, from: nat): Option<nat>
    decreases |text| - from
  {
    if OccursAt(text, part, from) then Some(from)
    else if from >= |text| then None
    else FirstIndex(text, part, from + 1)
  }

  /** Last position of `part` below `limit`, or -1. */
  function LastIndex(text: string, part: string, limit: nat): int {
    if limit == 0 then -1
    else if OccursAt(text, part, limit - 1) then limit - 1
    else LastIndex(text, part, limit - 1)
  }

  /** Largest last position of any cue: a plain search, not a word search. */
  function LastTransition(text: string, cues: seq<string>): int {
    if cues == [] then -1
    else
      var rest, here := LastTransition(text, cues[1..]), LastIndex(text, cues[0], |text| + 1);
      if here > rest then here else rest
  }

  lemma {:induction false} FirstIndexFinds(text: string, part: string, from: nat)
    ensures FirstIndex(text, part, from).Some? ==> OccursAt(text, part, FirstIndex(text, part, from).value)
    ensures FirstIndex(text, part, from).None? ==> forall p :: from <= p <= |text| ==> !OccursAt(text, part, p)
    decreases |text| - from
  {
    if !OccursAt(text, part, from) && from < |text| { FirstIndexFinds(text, part, from + 1); }
  }

  function SignalMentions(segment: Segment, index: nat, p: Product, signals: seq<Signal>): seq<Mention> {
    if signals == [] then []
    else
      var text := Normalize(segment.text);
      var transition := LastTransition(text, TRANSITION_CUES);
      (match FirstIndex(Padded(text), Padded(signals[0].term), 0)
       case None => []
       case Some(at) => [Mention(p, segment.id, index, signals[0], transition >= 0 && at > transition)])
      + SignalMentions(segment, index, p, signals[1..])
  }

  function ProductMentions(segment: Segment, index: nat, rows: seq<Product>, products: seq<Product>): seq<Mention> {
    if rows == [] then []
    else SignalMentions(segment, index, rows[0], SignalTerms(rows[0], products))
         + ProductMentions(segment, index, rows[1..], products)
  }

  function MentionsFrom(segments: seq<Segment>, index: nat, products: seq<Product>): seq<Mention>
    decreases |segments| - index
  {
    if index >= |segments| then []
    else ProductMentions(segments[index], index, products, products) + MentionsFrom(segments, index + 1, products)
  }

  /** The mention is backed by words: a term of the row, spoken as a run of words in the segment. */
  ghost predicate Backed(m: Mention, segments: seq<Segment>, products: seq<Product>) {
    && m.product in products
    && m.segmentIndex < |segments| && segments[m.segmentIndex].id == m.segmentId
    && m.signal in SignalTerms(m.product, products) && GoodSignal(m.signal)
    && HasRun(Words(segments[m.segmentIndex].text), Words(m.signal.term))
  }

  lemma SpokenIffRun(text: string, s: Signal)
    requires GoodSignal(s)
    ensures FirstIndex(Padded(Normalize(text)), Padded(s.term), 0).Some? <==> HasRun(Words(text), Words(s.term))
  {
    var raw :| s.term == Normalize(raw);
    NormalizeIdempotent(raw);
    SearchIsWordSearch(text, s.term);
    var hay, needle := Padded(Normalize(text)), Padded(s.term);
    FirstIndexFinds(hay, needle, 0);
  }

  lemma {:induction false} SignalMentionsBacked(segments: seq<Segment>, index: nat, p: Product, products: seq<Product>,
                                                signals: seq<Signal>)
    requires index < |segments| && p in products
    requires forall s :: s in signals ==> s in SignalTerms(p, products)
    ensures forall m :: m in SignalMentions(segments[index], index, p, signals) ==> Backed(m, segments, products)
  {
    if signals != [] {
      SignalTermsGood(p, products);
      assert signals[0] in signals;
      SpokenIffRun(segments[index].text, signals[0]);
      SignalMentionsBacked(segments, index, p, products, signals[1..]);
    }
  }

  /** Mentions of a row by a term in a segment. */
  ghost predicate MentionedBy(mentions: seq<Mention>, p: Product, s: Signal, index: nat) {
    exists m :: m in mentions && m.product == p && m.signal == s && m.segmentIndex == index
  }

  lemma {:induction false} SignalMentionsComplete(segment: Segment, index: nat, p: Product, signals: seq<Signal>, s: Signal)
    requires s in signals && GoodSignal(s) && HasRun(Words(segment.text), Words(s.term))
    ensures MentionedBy(SignalMentions(segment, index, p, signals), p, s, index)
  {
    var all := SignalMentions(segment, index, p, signals);
    if s == signals[0] {
      SpokenIffRun(segment.text, s);
      assert all[0] in all && all[0].product == p && all[0].signal == s && all[0].segmentIndex == index;
    } else {
      var rest := SignalMentions(segment, index, p, signals[1..]);
      SignalMentionsComplete(segment, index, p, signals[1..], s);
      var m :| m in rest && m.product == p && m.signal == s && m.segmentIndex == index;
      assert m in all;
    }
  }

  lemma {:induction false} ProductMentionsBacked(segments: seq<Segment>, index: nat, rows: seq<Product>, products: seq<Product>)
    requires index < |segments| && forall p :: p in rows ==> p in products
    ensures forall m :: m in ProductMentions(segments[index], index, rows, products) ==> Backed(m, segments, products)
  {
    if rows != [] {
      SignalMentionsBacked(segments, index, rows[0], products, SignalTerms(rows[0], products));
      ProductMentionsBacked(segments, index, rows[1..], products);
    }
  }

  lemma {:induction false} MentionsBacked(segments: seq<Segment>, index: nat, products: seq<Product>)
    ensures forall m :: m in MentionsFrom(segments, index, products) ==> Backed(m, segments, products)
    decreases |segments| - index
  {
    if index < |segments| {
      ProductMentionsBacked(segments, index, products, products);
      MentionsBacked(segments, index + 1, products);
    }
  }

  lemma MentionedInEither(xs: seq<Mention>, ys: seq<Mention>, p: Product, s: Signal, index: nat)
    requires MentionedBy(xs, p, s, index) || MentionedBy(ys, p, s, index)
    ensures MentionedBy(xs + ys, p, s, index)
  {
    var m :| (m in xs || m in ys) && m.product == p && m.signal == s && m.segmentIndex == index;
    assert m in xs + ys;
  }

  lemma {:induction false} ProductMentionsComplete(segments: seq<Segment>, index: nat, rows: seq<Product>,
                                                   products: seq<Product>, p: Product, s: Signal)
    requires index < |segments| && (forall q :: q in rows ==> q in products)
    requires p in rows && s in SignalTerms(p, products) && HasRun(Words(segments[index].text), Words(s.term))
    ensures MentionedBy(ProductMentions(segments[index], index, rows, products), p, s, index)
  {
    var first := SignalMentions(segments[index], index, rows[0], SignalTerms(rows[0], products));
    var rest := ProductMentions(segments[index], index, rows[1..], products);
    if p == rows[0] {
      SignalTermsGood(p, products);
      SignalMentionsComplete(segments[index], index, p, SignalTerms(p, products), s);
    } else {
      ProductMentionsComplete(segments, index, rows[1..], products, p, s);
    }
    MentionedInEither(first, rest, p, s, index);
  }

  lemma {:induction false} MentionsComplete(segments: seq<Segment>, from: nat, products: seq<Product>, p: Product, s: Signal,
                                            index: nat)
    requires from <= index < |segments| && p in products && s in SignalTerms(p, products)
    requires HasRun(Words(segments[index].text), Words(s.term))
    ensures MentionedBy(MentionsFrom(segments, from, products), p, s, index)
    decreases index - from
  {
    var here, rest := ProductMentions(segments[from], from, products, products), MentionsFrom(segments, from + 1, products);
    if from == index {
      ProductMentionsComplete(segments, index, products, products, p, s);
    } else {
      MentionsComplete(segments, from + 1, products, p, s, index);
    }
    MentionedInEither(here, rest, p, s, index);
  }

  ghost predicate FirstAt(text: string, part: string, at: int) {
    0 <= at && OccursAt(text, part, at) && forall p :: 0 <= p < at ==> !OccursAt(text, part, p)
  }

  /** Some transition cue stands in the text, words or not, and every one of them starts before `at`. */
  ghost predicate AfterEveryCue(text: string, cues: seq<string>, at: int) {
    && (exists cue, p :: cue in cues && OccursAt(text, cue, p))
    && (forall cue, p :: cue in cues && OccursAt(text, cue, p) ==> p < at)
  }

  lemma {:induction false} LastIndexIs(text: string, part: string, limit: nat)
    ensures var last := LastIndex(text, part, limit);
      && -1 <= last < limit && (last >= 0 ==> OccursAt(text, part, last))
      && forall p :: 0 <= p < limit && OccursAt(text, part, p) ==> p <= last
  {
    if limit > 0 && !OccursAt(text, part, limit - 1) { LastIndexIs(text, part, limit - 1); }
  }

  lemma {:induction false} LastTransitionIs(text: string, cues: seq<string>)
    ensures var last := LastTransition(text, cues);
      && last >= -1 && (last >= 0 ==> exists cue :: cue in cues && OccursAt(text, cue, last))
      && forall cue, p :: cue in cues && OccursAt(text, cue, p) ==> p <= last
  {
    if cues != [] {
      LastTransitionIs(text, cues[1..]);
      LastIndexIs(text, cues[0], |text| + 1);
      HeadAndTail(cues);
    }
  }

  lemma {:induction false} FirstIndexIs(text: string, part: string, from: nat)
    requires FirstIndex(text, part, from).Some?
    ensures var at := FirstIndex(text, part, from).value;
      at >= from && OccursAt(text, part, at) && forall p :: from <= p < at ==> !OccursAt(text, part, p)
    decreases |text| - from
  {
    if !OccursAt(text, part, from) { FirstIndexIs(text, part, from + 1); }
  }

  /** Where a mention stands: at the first place its term is spoken, after the last transition cue or not. */
  ghost predicate Placed(m: Mention, text: string) {
    exists at :: FirstAt(Padded(text), Padded(m.signal.term), at)
      && (m.afterTransition <==> AfterEveryCue(text, TRANSITION_CUES, at))
  }

  lemma {:induction false} SignalMentionsPlaced(segment: Segment, index: nat, p: Product, signals: seq<Signal>)
    ensures forall m :: m in SignalMentions(segment, index, p, signals) ==> Placed(m, Normalize(segment.text))
  {
    if signals != [] {
      SignalMentionsPlaced(segment, index, p, signals[1..]);
      var text := Normalize(segment.text);
      LastTransitionIs(text, TRANSITION_CUES);
      if FirstIndex(Padded(text), Padded(signals[0].term), 0).Some? {
        FirstIndexIs(Padded(text), Padded(signals[0].term), 0);
        var m := SignalMentions(segment, index, p, signals)[0];
        assert FirstAt(Padded(text), Padded(m.signal.term), FirstIndex(Padded(text), Padded(signals[0].term), 0).value);
      }
    }
  }

  lemma {:induction false} SignalMentionsIndexed(segment: Segment, index: nat, p: Product, signals: seq<Signal>)
    ensures forall m :: m in SignalMentions(segment, index, p, signals) ==> m.segmentIndex == index
  {
    if signals != [] { SignalMentionsIndexed(segment, index, p, signals[1..]); }
  }

  lemma {:induction false} ProductMentionsPlaced(segment: Segment, index: nat, rows: seq<Product>, products: seq<Product>)
    ensures forall m :: m in ProductMentions(segment, index, rows, products) ==>
      m.segmentIndex == index && Placed(m, Normalize(segment.text))
  {
    if rows != [] {
      SignalMentionsPlaced(segment, index, rows[0], SignalTerms(rows[0], products));
      SignalMentionsIndexed(segment, index, rows[0], SignalTerms(rows[0], products));
      ProductMentionsPlaced(segment, index, rows[1..], products);
    }
  }

  /** Every mention is after the last transition cue of its segment exactly when its term is first spoken there. */
  lemma {:induction false} MentionsPlaced(segments: seq<Segment>, from: nat, products: seq<Product>)
    ensures forall m :: m in MentionsFrom(segments, from, products) ==>
      m.segmentIndex < |segments| && Placed(m, Normalize(segments[m.segmentIndex].text))
    decreases |segments| - from
  {
    if from < |segments| {
      ProductMentionsPlaced(segments[from], from, products, products);
      MentionsPlaced(segments, from + 1, products);
    }
  }

  /** A row is mentioned by a term exactly when the term's words are spoken in a row, in that segment. */
  lemma MentionsExact(segments: seq<Segment>, products: seq<Product>, p: Product, s: Signal, index: nat)
    requires index < |segments| && p in products && s in SignalTerms(p, products)
    ensures MentionedBy(MentionsFrom(segments, 0, products), p, s, index)
       <==> HasRun(Words(segments[index].text), Words(s.term))
  {
    MentionsBacked(segments, 0, products);
    if HasRun(Words(segments[index].text), Words(s.term)) {
      MentionsComplete(segments, 0, products, p, s, index);
    }
  }

  /** Strictly ahead in the order: after a transition, then later, then stronger, then longer. */
  predicate Ahead(a: Mention, b: Mention) {
    if a.afterTransition != b.afterTransition then a.afterTransition
    else if a.segmentIndex != b.segmentIndex then a.segmentIndex > b.segmentIndex
    else if a.signal.strength != b.signal.strength then a.signal.strength > b.signal.strength
    else |a.signal.term| > |b.signal.term|
  }

  /** The head of a stable sort: the first mention nothing is ahead of. */
  function Best(mentions: seq<Mention>): Mention
    requires mentions != []
  {
    var last := mentions[|mentions| - 1];
    if |mentions| == 1 then last
    else var best := Best(mentions[..|mentions| - 1]); if Ahead(last, best) then last else best
  }

  /** The order of the sort: after a transition first, then the later segment, the stronger and the longer term. */
  ghost predicate Outranks(a: Mention, b: Mention) {
    || (a.afterTransition && !b.afterTransition)
    || (a.afterTransition == b.afterTransition
        && (|| a.segmentIndex > b.segmentIndex
            || (a.segmentIndex == b.segmentIndex
                && (|| a.signal.strength > b.signal.strength
                    || (a.signal.strength == b.signal.strength && |a.signal.term| > |b.signal.term|)))))
  }

  lemma AheadOutranks(a: Mention, b: Mention)
    ensures Ahead(a, b) <==> Outranks(a, b)
  {
  }

  lemma AheadIsWeakOrder(a: Mention, b: Mention, c: Mention)
    ensures Ahead(a, b) && !Ahead(c, b) ==> Ahead(a, c)
    ensures Ahead(a, b) ==> !Ahead(b, a)
  {
  }

  ghost predicate FirstBest(mentions: seq<Mention>, k: int) {
    && 0 <= k < |mentions|
    && (forall i :: 0 <= i < k ==> Outranks(mentions[k], mentions[i]))
    && (forall i :: 0 <= i < |mentions| ==> !Outranks(mentions[i], mentions[k]))
  }

  /** The best mention is the earliest of those nothing is ahead of. */
  lemma {:induction false} BestIsFirstBest(mentions: seq<Mention>) returns (k: nat)
    requires mentions != []
    ensures FirstBest(mentions, k) && mentions[k] == Best(mentions)
  {
    var n := |mentions| - 1;
    if n == 0 { return 0; }
    var init, last := mentions[..n], mentions[n];
    var j := BestIsFirstBest(init);
    AheadOutranks(last, init[j]);
    forall i | 0 <= i < n ensures mentions[i] == init[i] && !Outranks(mentions[i], init[j]) {
    }
    if Ahead(last, init[j]) {
      forall i | 0 <= i < n ensures Outranks(last, mentions[i]) && !Outranks(mentions[i], last) {
        AheadOutranks(mentions[i], init[j]);
        AheadIsWeakOrder(last, init[j], mentions[i]);
        AheadIsWeakOrder(last, mentions[i], last);
        AheadOutranks(last, mentions[i]);
        AheadOutranks(mentions[i], last);
      }
      k := n;
    } else {
      k := j;
    }
  }

  // ---------------------------------------------------------------- the decision

  datatype Reason =
    | ExplicitName | ExplicitTransition | RepeatedFocus
    | EmptyContext | ActiveProductOnly | NoCatalogSignal | WeakCatalogSignal | MultipleProducts | Comparison

  datatype Decision =
    | Suggest(product: Product, confidence: real, evidence: seq<string>, reason: Reason, variantChoices: seq<Product>)
    | NoSuggestion(ambiguous: bool, confidence: real, evidence: seq<string>, reason: Reason, needsSemantic: bool)

  function SegmentIds(mentions: seq<Mention>): seq<string> {
    seq(|mentions|, i requires 0 <= i < |mentions| => mentions[i].segmentId)
  }

  function Groups(mentions: seq<Mention>): seq<string> {
    Dedup(seq(|mentions|, i requires 0 <= i < |mentions| => GroupOf(mentions[i].product)))
  }

  function Evidence(mentions: seq<Mention>): seq<string> {
    Dedup(SegmentIds(mentions))
  }

  predicate HasRow(rows: seq<Product>, id: string) {
    exists i :: 0 <= i < |rows| && rows[i].id == id
  }

  /** Distinct rows by id, the first mention of each id winning. */
  function DistinctRows(mentions: seq<Mention>): seq<Product> {
    if mentions == [] then []
    else
      var init, p := DistinctRows(mentions[..|mentions| - 1]), mentions[|mentions| - 1].product;
      if HasRow(init, p.id) then init else init + [p]
  }

  function VariantChoices(mentions: seq<Mention>): seq<Product> {
    if |DistinctRows(mentions)| > 1 then DistinctRows(mentions) else []
  }

  method VariantChoicesFor(mentions: seq<Mention>) returns (choices: seq<Product>)
    ensures choices == VariantChoices(mentions)
  {
    var rows: seq<Product> := [];
    for i := 0 to |mentions|
      invariant rows == DistinctRows(mentions[..i])
    {
      assert mentions[..i + 1][..i] == mentions[..i];
      var p := mentions[i].product;
      if !HasRow(rows, p.id) { rows := rows + [p]; }
    }
    assert mentions[..|mentions|] == mentions;
    choices := if |rows| > 1 then rows else [];
  }

  function FindRow(products: seq<Product>, id: string): Option<Product> {
    if products == [] then None else if products[0].id == id then Some(products[0]) else FindRow(products[1..], id)
  }

  /** The group on stage, when the active row is in the catalog. */
  function ActiveGroup(products: seq<Product>, activeId: Option<string>): Option<string> {
    if activeId.None? then None
    else match FindRow(products, activeId.value) case None => None case Some(p) => Some(GroupOf(p))
  }

  /** The row on stage: the first one with the active id. */
  ghost predicate ActiveRow(products: seq<Product>, activeId: Option<string>, k: int) {
    && 0 <= k < |products| && activeId == Some(products[k].id)
    && forall i :: 0 <= i < k ==> products[i].id != products[k].id
  }

  lemma {:induction false} ActiveGroupIs(products: seq<Product>, activeId: Option<string>, k: int)
    requires ActiveRow(products, activeId, k)
    ensures ActiveGroup(products, activeId) == Some(ProductKey(products[k]))
  {
    if k > 0 {
      assert products[1..][k - 1] == products[k];
      assert products[0].id != products[k].id;
      ActiveGroupIs(products[1..], activeId, k - 1);
    }
  }

  lemma {:induction false} NoActiveGroup(products: seq<Product>, activeId: Option<string>)
    ensures ActiveGroup(products, activeId) == None <==> forall p :: p in products ==> activeId != Some(p.id)
  {
    if products != [] && activeId != Some(products[0].id) {
      NoActiveGroup(products[1..], activeId);
      HeadAndTail(products);
    }
  }

  predicate OnStage(active: Option<string>, m: Mention) {
    active == Some(GroupOf(m.product))
  }

  function WindowText(segments: seq<Segment>): string {
    Join(seq(|segments|, i requires 0 <= i < |segments| => Normalize(segments[i].text)), " ")
  }

  predicate ContainsPhrase(text: string, phrases: seq<string>) {
    exists i :: 0 <= i < |phrases| && Includes(Padded(text), Padded(phrases[i]))
  }

  // ---------------------------------------------------------------- cues, word by word

  ghost function SpokenWords(segments: seq<Segment>): seq<string> {
    if segments == [] then [] else Words(segments[0].text) + SpokenWords(segments[1..])
  }

  lemma {:induction false} WindowTextJoins(segments: seq<Segment>)
    requires forall s :: s in segments ==> Words(s.text) != []
    ensures AllWords(SpokenWords(segments)) && (segments != [] ==> SpokenWords(segments) != [])
    ensures WindowText(segments) == Join(SpokenWords(segments), " ")
  {
    if segments != [] {
      var first, rest := segments[0], segments[1..];
      WindowTextJoins(rest);
      NormalizeJoinsWords(first.text);
      var texts := seq(|segments|, i requires 0 <= i < |segments| => Normalize(segments[i].text));
      assert texts[1..] == seq(|rest|, i requires 0 <= i < |rest| => Normalize(rest[i].text));
      if rest == [] {
        ConcatEmpty(Words(first.text));
      } else {
        JoinConcat(Words(first.text), SpokenWords(rest));
        ConcatAssociates(texts[0], " ", WindowText(rest));
      }
    }
  }

  /** One of the cues is spoken, its words in a row, anywhere in what was said. */
  ghost predicate CueSpoken(said: seq<string>, cues: seq<seq<string>>) {
    exists i :: 0 <= i < |cues| && HasRun(said, cues[i])
  }

  ghost predicate Spells(phrase: string, cue: seq<string>) {
    cue != [] && AllWords(cue) && phrase == Join(cue, " ")
  }

  /** The phrases spell the cues. */
  ghost predicate Spell(phrases: seq<string>, cues: seq<seq<string>>) {
    |phrases| == |cues| && forall i :: 0 <= i < |cues| ==> Spells(phrases[i], cues[i])
  }

  lemma ContainsSpoken(segments: seq<Segment>, phrases: seq<string>, cues: seq<seq<string>>)
    requires segments != [] && (forall s :: s in segments ==> Words(s.text) != []) && Spell(phrases, cues)
    ensures ContainsPhrase(WindowText(segments), phrases) <==> CueSpoken(SpokenWords(segments), cues)
  {
    WindowTextJoins(segments);
    var said, text := SpokenWords(segments), WindowText(segments);
    forall i | 0 <= i < |cues| ensures Includes(Padded(text), Padded(phrases[i])) <==> HasRun(said, cues[i]) {
      PaddedSearchFindsRuns(said, cues[i]);
    }
  }

  ghost const TRANSITION_WORDS := [
    ["move", "on", "to"], ["moving", "on", "to"], ["switch", "to"], ["switching", "to"], ["make", "active"],
    ["put", "on", "stage"], ["take", "live"], ["up", "next"], ["next", "up"], ["now", "showing"],
    ["now", "let", "us"] + ["look", "at"], ["now"] + ["lets", "look", "at"], ["let", "us"] + ["look", "at"],
    ["lets", "look", "at"], ["want", "to", "show"], ["going", "to", "show"]]

  ghost const COMPARISON_WORDS := [
    ["compared", "with"], ["compared", "to"], ["cheaper", "than"], ["more", "than"], ["less", "than"],
    ["unlike"], ["versus"], ["vs"]]

  lemma PhraseOfThree(phrase: string, a: string, b: string, c: string)
    requires IsWord(a) && IsWord(b) && IsWord(c) && phrase == a + " " + (b + " " + c)
    ensures Spells(phrase, [a, b, c])
  {
    JoinThree(a, b, c);
  }

  lemma PhraseOfTwo(phrase: string, a: string, b: string)
    requires IsWord(a) && IsWord(b) && phrase == a + " " + b
    ensures Spells(phrase, [a, b])
  {
    JoinThree(a, b, b);
  }

  lemma PhraseOfOne(a: string)
    requires IsWord(a)
    ensures Spells(a, [a])
  {
    JoinThree(a, a, a);
  }

  lemma PhraseOfMore(phrase: string, p: string, xs: seq<string>, q: string, ys: seq<string>)
    requires Spells(p, xs) && Spells(q, ys) && phrase == p + (" " + q)
    ensures Spells(phrase, xs + ys)
  {
    JoinConcat(xs, ys);
  }

  lemma EarlyCueSpells(i: nat)
    requires i < 5
    ensures Spells(TRANSITION_CUES[i], TRANSITION_WORDS[i])
  {
    if i == 0 { PhraseOfThree("move on to", "move", "on", "to"); }
    else if i == 1 { PhraseOfThree("moving on to", "moving", "on", "to"); }
    else if i == 2 { PhraseOfTwo("switch to", "switch", "to"); }
    else if i == 3 { PhraseOfTwo("switching to", "switching", "to"); }
    else { PhraseOfTwo("make active", "make", "active"); }
  }

  lemma MiddleCueSpells(i: nat)
    requires 5 <= i < 10
    ensures Spells(TRANSITION_CUES[i], TRANSITION_WORDS[i])
  {
    if i == 5 { PhraseOfThree("put on stage", "put", "on", "stage"); }
    else if i == 6 { PhraseOfTwo("take live", "take", "live"); }
    else if i == 7 { PhraseOfTwo("up next", "up", "next"); }
    else if i == 8 { PhraseOfTwo("next up", "next", "up"); }
    else { PhraseOfTwo("now showing", "now", "showing"); }
  }

  lemma NowLetUsSpells()
    ensures Spells(TRANSITION_CUES[10], TRANSITION_WORDS[10])
  {
    PhraseOfThree("now let us", "now", "let", "us");
    PhraseOfTwo("look at", "look", "at");
    PhraseOfMore("now let us look at", "now let us", ["now", "let", "us"], "look at", ["look", "at"]);
  }

  lemma NowLetsSpells()
    ensures Spells(TRANSITION_CUES[11], TRANSITION_WORDS[11])
  {
    PhraseOfOne("now");
    PhraseOfThree("lets look at", "lets", "look", "at");
    PhraseOfMore("now lets look at", "now", ["now"], "lets look at", ["lets", "look", "at"]);
  }

  lemma LetUsSpells()
    ensures Spells(TRANSITION_CUES[12], TRANSITION_WORDS[12])
  {
    PhraseOfTwo("let us", "let", "us");
    PhraseOfTwo("look at", "look", "at");
    PhraseOfMore("let us look at", "let us", ["let", "us"], "look at", ["look", "at"]);
  }

  lemma LateCueSpells(i: nat)
    requires 13 <= i < 16
    ensures Spells(TRANSITION_CUES[i], TRANSITION_WORDS[i])
  {
    if i == 13 { PhraseOfThree("lets look at", "lets", "look", "at"); }
    else if i == 14 { PhraseOfThree("want to show", "want", "to", "show"); }
    else { PhraseOfThree("going to show", "going", "to", "show"); }
  }

  lemma TransitionsSpell()
    ensures Spell(TRANSITION_CUES, TRANSITION_WORDS)
  {
    forall i | 0 <= i < |TRANSITION_WORDS| ensures Spells(TRANSITION_CUES[i], TRANSITION_WORDS[i]) {
      if i < 5 { EarlyCueSpells(i); }
      else if i < 10 { MiddleCueSpells(i); }
      else if i == 10 { NowLetUsSpells(); }
      else if i == 11 { NowLetsSpells(); }
      else if i == 12 { LetUsSpells(); }
      else { LateCueSpells(i); }
    }
  }

  lemma ComparisonsSpell()
    ensures Spell(COMPARISON_CUES, COMPARISON_WORDS)
  {
    PhraseOfTwo("compared with", "compared", "with");
    PhraseOfTwo("compared to", "compared", "to");
    PhraseOfTwo("cheaper than", "cheaper", "than");
    PhraseOfTwo("more than", "more", "than");
    PhraseOfTwo("less than", "less", "than");
    PhraseOfOne("unlike");
    PhraseOfOne("versus");
    PhraseOfOne("vs");
  }

  function AtMost(x: real, y: real): real {
    if x < y then x else y
  }

  function AtLeast(x: real, y: real): real {
    if x > y then x else y
  }

  function Alternatives(mentions: seq<Mention>, active: Option<string>): seq<Mention> {
    Filter((m: Mention) => !OnStage(active, m), mentions)
  }

  function AfterTransition(mentions: seq<Mention>): seq<Mention> {
    Filter((m: Mention) => m.afterTransition, mentions)
  }

  lemma GroupsNonEmpty(mentions: seq<Mention>)
    ensures Groups(mentions) != [] <==> mentions != []
  {
    var keys := seq(|mentions|, i requires 0 <= i < |mentions| => GroupOf(mentions[i].product));
    DedupMembers(keys);
    if mentions != [] { assert keys[0] in Groups(mentions); }
  }

  function Decide(mentions: seq<Mention>, active: Option<string>, transition: bool, comparison: bool, textLength: nat)
    : Decision
  {
    var onStage := Filter((m: Mention) => OnStage(active, m), mentions);
    var others := Alternatives(mentions, active);
    var moved := AfterTransition(others);
    if others == [] then
      if onStage != [] then NoSuggestion(false, 1.0, Evidence(mentions), ActiveProductOnly, false)
      else NoSuggestion(false, 0.0, [], NoCatalogSignal, transition || textLength >= 24)
    else if |Groups(moved)| == 1 then
      GroupsNonEmpty(moved);
      var best := Best(moved);
      Suggest(best.product, AtLeast(CONFIDENCE_FLOOR, best.signal.strength), Evidence(moved), ExplicitTransition,
              VariantChoices(moved))
    else if |Groups(others)| > 1 then NoSuggestion(true, 0.0, Evidence(mentions), MultipleProducts, true)
    else if onStage != [] && (comparison || !transition) then
      NoSuggestion(true, 0.0, Evidence(mentions), Comparison, true)
    else
      var best := Best(others);
      var repeated := |Evidence(others)| > 1;
      if best.signal.strength >= CONFIDENCE_FLOOR then
        Suggest(best.product, AtMost(0.99, best.signal.strength + if repeated then 0.04 else 0.0), Evidence(others),
                if repeated then RepeatedFocus else ExplicitName, VariantChoices(others))
      else NoSuggestion(true, best.signal.strength, Evidence(mentions), WeakCatalogSignal, true)
  }

  function Detect(segments: seq<Segment>, products: seq<Product>, activeId: Option<string>): Decision {
    var window := Window(segments);
    if window == [] then NoSuggestion(false, 0.0, [], EmptyContext, false)
    else
      var text := WindowText(window);
      var active := ActiveGroup(products, activeId);
      Decide(MentionsFrom(window, 0, products), active, ContainsPhrase(text, TRANSITION_CUES),
             ContainsPhrase(text, COMPARISON_CUES), |text|)
  }

  /**
   * What the detection decides on: the mentions of the recent window, the product on stage, and whether the
   * words of a transition or of a comparison were spoken in a row anywhere in it.
   */
  lemma DetectDecides(segments: seq<Segment>, products: seq<Product>, activeId: Option<string>)
    ensures var d, window := Detect(segments, products, activeId), Window(segments);
      var said := SpokenWords(window);
      if window == [] then d == NoSuggestion(false, 0.0, [], EmptyContext, false)
      else d == Decide(MentionsFrom(window, 0, products), ActiveGroup(products, activeId),
                       CueSpoken(said, TRANSITION_WORDS), CueSpoken(said, COMPARISON_WORDS), |Join(said, " ")|)
  {
    var window := Window(segments);
    WindowIsRecent(segments);
    if window != [] {
      WindowTextJoins(window);
      TransitionsSpell();
      ComparisonsSpell();
      ContainsSpoken(window, TRANSITION_CUES, TRANSITION_WORDS);
      ContainsSpoken(window, COMPARISON_CUES, COMPARISON_WORDS);
    }
  }

  lemma GroupsAre(mentions: seq<Mention>)
    ensures forall m :: m in mentions ==> ProductKey(m.product) in Groups(mentions)
    ensures forall g :: g in Groups(mentions) ==> exists m :: m in mentions && ProductKey(m.product) == g
    ensures Distinct(Groups(mentions))
  {
    var keys := seq(|mentions|, i requires 0 <= i < |mentions| => GroupOf(mentions[i].product));
    DedupMembers(keys);
    forall m | m in mentions ensures ProductKey(m.product) in Groups(mentions) {
      var i :| 0 <= i < |mentions| && mentions[i] == m;
      assert keys[i] in keys;
    }
    forall g | g in Groups(mentions) ensures exists m :: m in mentions && ProductKey(m.product) == g {
      var i :| 0 <= i < |keys| && keys[i] == g;
      assert mentions[i] in mentions;
    }
  }

  ghost predicate DifferentProducts(m: Mention, n: Mention) {
    ProductKey(m.product) != ProductKey(n.product)
  }

  ghost predicate TwoProducts(mentions: seq<Mention>) {
    exists m, n :: m in mentions && n in mentions && DifferentProducts(m, n)
  }

  /** One entry in the group list means one product, however many rows were mentioned. */
  lemma OneGroup(mentions: seq<Mention>)
    ensures |Groups(mentions)| == 1 <==> mentions != [] && !TwoProducts(mentions)
  {
    GroupsAre(mentions);
    GroupsNonEmpty(mentions);
    var groups := Groups(mentions);
    if |groups| > 1 {
      assert groups[0] in groups && groups[1] in groups;
      var m :| m in mentions && ProductKey(m.product) == groups[0];
      var n :| n in mentions && ProductKey(n.product) == groups[1];
      assert DifferentProducts(m, n);
    }
    if |groups| == 1 {
      forall m, n | m in mentions && n in mentions ensures !DifferentProducts(m, n) {
        assert ProductKey(m.product) in groups && ProductKey(n.product) in groups;
      }
    }
  }

  lemma EvidenceIs(mentions: seq<Mention>)
    ensures Distinct(Evidence(mentions)) && (mentions != [] ==> Evidence(mentions) != [])
    ensures forall id :: id in Evidence(mentions) <==> exists m :: m in mentions && m.segmentId == id
  {
    var ids := SegmentIds(mentions);
    DedupMembers(ids);
    if mentions != [] { assert ids[0] in Evidence(mentions); }
    forall m | m in mentions ensures m.segmentId in ids {
      var i :| 0 <= i < |mentions| && mentions[i] == m;
      assert ids[i] == m.segmentId;
    }
    forall id | id in Evidence(mentions) ensures exists m :: m in mentions && m.segmentId == id {
      var i :| 0 <= i < |ids| && ids[i] == id;
      assert mentions[i] in mentions;
    }
  }

  ghost predicate Mentioned(mentions: seq<Mention>, p: Product) {
    exists m :: m in mentions && m.product == p
  }

  ghost predicate DistinctIds(rows: seq<Product>) {
    forall i, j :: 0 <= i < j < |rows| ==> rows[i].id != rows[j].id
  }

  lemma {:induction false} DistinctRowsAre(mentions: seq<Mention>)
    ensures forall p :: p in DistinctRows(mentions) ==> Mentioned(mentions, p)
    ensures forall m :: m in mentions ==> HasRow(DistinctRows(mentions), m.product.id)
    ensures DistinctIds(DistinctRows(mentions))
  {
    if mentions != [] {
      var init, last := mentions[..|mentions| - 1], mentions[|mentions| - 1];
      DistinctRowsAre(init);
      assert mentions == init + [last];
      var rows, all := DistinctRows(init), DistinctRows(mentions);
      forall p | p in all ensures Mentioned(mentions, p) {
        if p in rows {
          var m :| m in init && m.product == p;
          assert m in mentions;
        } else {
          assert last in mentions;
        }
      }
      forall m | m in mentions ensures HasRow(all, m.product.id) {
        if m in init {
          var i :| 0 <= i < |rows| && rows[i].id == m.product.id;
          assert all[i] == rows[i];
        } else if !HasRow(rows, last.product.id) {
          assert all[|rows|] == last.product;
        }
      }
    }
  }

  ghost predicate SpokenIn(mentions: seq<Mention>, id: string, group: string) {
    exists m :: m in mentions && m.segmentId == id && ProductKey(m.product) == group
  }

  /** Two or more rows with distinct ids, all mentioned, all of the suggested product, its own row among them. */
  ghost predicate SoundChoices(d: Decision, from: seq<Mention>)
    requires d.Suggest?
  {
    && |d.variantChoices| > 1
    && DistinctIds(d.variantChoices)
    && (forall p :: p in d.variantChoices ==> ProductKey(p) == ProductKey(d.product) && Mentioned(from, p))
    && HasRow(d.variantChoices, d.product.id)
  }

  /** What the surface may rely on when a product is suggested from these mentions. */
  ghost predicate SoundSuggestion(d: Decision, from: seq<Mention>, active: Option<string>)
    requires d.Suggest?
  {
    && Some(ProductKey(d.product)) != active
    && Mentioned(from, d.product)
    && 0.84 <= d.confidence <= 0.99
    && d.evidence != [] && Distinct(d.evidence)
    && (forall id :: id in d.evidence ==> SpokenIn(from, id, ProductKey(d.product)))
    && (d.variantChoices == [] || SoundChoices(d, from))
  }

  lemma ChoicesSound(d: Decision, chosen: seq<Mention>, from: seq<Mention>)
    requires d.Suggest? && d.variantChoices == VariantChoices(chosen)
    requires Mentioned(chosen, d.product)
    requires forall m :: m in chosen ==> m in from && ProductKey(m.product) == ProductKey(d.product)
    ensures d.variantChoices == [] || SoundChoices(d, from)
  {
    DistinctRowsAre(chosen);
    forall p | p in DistinctRows(chosen) ensures ProductKey(p) == ProductKey(d.product) && Mentioned(from, p) {
      var m :| m in chosen && m.product == p;
      assert m in from;
    }
  }

  /** A suggestion drawn from the mentions of one product is sound, and offers all its mentioned rows. */
  lemma OneProductSuggestion(d: Decision, chosen: seq<Mention>, from: seq<Mention>, active: Option<string>)
    requires d.Suggest? && chosen != [] && |Groups(chosen)| == 1
    requires forall m :: m in chosen ==> m in from && !OnStage(active, m)
    requires d.product == Best(chosen).product && d.evidence == Evidence(chosen)
    requires d.variantChoices == VariantChoices(chosen) && 0.84 <= d.confidence <= 0.99
    ensures SoundSuggestion(d, from, active)
  {
    var k := BestIsFirstBest(chosen);
    assert Best(chosen) in chosen;
    OneGroup(chosen);
    assert !TwoProducts(chosen);
    forall m | m in chosen ensures ProductKey(m.product) == ProductKey(d.product) {
      assert !DifferentProducts(m, Best(chosen));
    }
    EvidenceIs(chosen);
    forall id | id in d.evidence ensures SpokenIn(from, id, ProductKey(d.product)) {
      var m :| m in chosen && m.segmentId == id;
      assert m in from;
    }
    ChoicesSound(d, chosen, from);
  }

  /** The mentions of the one product a suggestion is drawn from. */
  function Chosen(mentions: seq<Mention>, active: Option<string>): seq<Mention> {
    var others := Alternatives(mentions, active);
    if |Groups(AfterTransition(others))| == 1 then AfterTransition(others) else others
  }

  lemma SuggestionShape(mentions: seq<Mention>, active: Option<string>, transition: bool, comparison: bool, textLength: nat)
    requires forall m :: m in Chosen(mentions, active) ==> GoodSignal(m.signal)
    ensures var d := Decide(mentions, active, transition, comparison, textLength);
      var chosen := Chosen(mentions, active);
      d.Suggest? ==>
        && chosen != [] && |Groups(chosen)| == 1 && d.product == Best(chosen).product
        && d.evidence == Evidence(chosen) && d.variantChoices == VariantChoices(chosen) && 0.84 <= d.confidence <= 0.99
  {
    var chosen := Chosen(mentions, active);
    GroupsNonEmpty(chosen);
    if chosen != [] {
      var k := BestIsFirstBest(chosen);
      assert Best(chosen) in chosen;
      assert GoodSignal(Best(chosen).signal);
    }
  }

  lemma ChosenMembers(mentions: seq<Mention>, active: Option<string>)
    ensures forall m :: m in Chosen(mentions, active) ==> m in mentions && !OnStage(active, m)
  {
    FilterMembers((m: Mention) => !OnStage(active, m), mentions);
    FilterMembers((m: Mention) => m.afterTransition, Alternatives(mentions, active));
  }

  /** The decision over any mentions: sound when it suggests. */
  lemma DecideSound(mentions: seq<Mention>, active: Option<string>, transition: bool, comparison: bool, textLength: nat)
    requires forall m :: m in mentions ==> GoodSignal(m.signal)
    ensures var d := Decide(mentions, active, transition, comparison, textLength);
      d.Suggest? ==> SoundSuggestion(d, mentions, active)
  {
    ChosenMembers(mentions, active);
    SuggestionShape(mentions, active, transition, comparison, textLength);
    var d := Decide(mentions, active, transition, comparison, textLength);
    if d.Suggest? { OneProductSuggestion(d, Chosen(mentions, active), mentions, active); }
  }

  /**
   * "Multiple products" is answered exactly when products off stage, not rows, are several and the
   * words after a transition do not single one out.
   */
  lemma MultipleMeansProducts(mentions: seq<Mention>, active: Option<string>, transition: bool, comparison: bool, textLength: nat)
    ensures var others := Alternatives(mentions, active);
      Decide(mentions, active, transition, comparison, textLength).reason == MultipleProducts <==>
        TwoProducts(others) && (AfterTransition(others) == [] || TwoProducts(AfterTransition(others)))
  {
    var others := Alternatives(mentions, active);
    OneGroup(others);
    OneGroup(AfterTransition(others));
    GroupsNonEmpty(others);
  }

  /** Rows of one product group are one product: they never make the answer ambiguous, whatever their ids. */
  lemma RowsOfOneProduct(mentions: seq<Mention>, key: string, active: Option<string>, transition: bool,
                         comparison: bool, textLength: nat)
    requires forall m :: m in mentions ==> m.product.groupKey == Some(key)
    ensures Decide(mentions, active, transition, comparison, textLength).reason != MultipleProducts
  {
    MultipleMeansProducts(mentions, active, transition, comparison, textLength);
    ChosenMembers(mentions, active);
    FilterMembers((m: Mention) => !OnStage(active, m), mentions);
  }

  ghost predicate IsStaged(m: Mention, active: Option<string>) {
    active == Some(ProductKey(m.product))
  }

  ghost function Larger(x: real, y: real): real {
    if y <= x then x else y
  }

  ghost function Smaller(x: real, y: real): real {
    if y <= x then y else x
  }

  /** The mentions off stage; after a transition only, where asked. */
  ghost predicate OffStage(m: Mention, mentions: seq<Mention>, active: Option<string>, afterTransition: bool) {
    m in mentions && !IsStaged(m, active) && (afterTransition ==> m.afterTransition)
  }

  ghost predicate Ambiguous(mentions: seq<Mention>, active: Option<string>, afterTransition: bool) {
    exists m, n :: OffStage(m, mentions, active, afterTransition) && OffStage(n, mentions, active, afterTransition)
      && DifferentProducts(m, n)
  }

  ghost predicate AnyOffStage(mentions: seq<Mention>, active: Option<string>, afterTransition: bool) {
    exists m :: OffStage(m, mentions, active, afterTransition)
  }

  /** The mentions single out one product off stage. */
  ghost predicate SinglesOut(mentions: seq<Mention>, active: Option<string>, afterTransition: bool) {
    AnyOffStage(mentions, active, afterTransition) && !Ambiguous(mentions, active, afterTransition)
  }

  lemma AskedAre(mentions: seq<Mention>, active: Option<string>, afterTransition: bool)
    ensures var others := Alternatives(mentions, active);
      var asked := if afterTransition then AfterTransition(others) else others;
      forall m :: m in asked <==> OffStage(m, mentions, active, afterTransition)
  {
    FilterMembers((m: Mention) => !OnStage(active, m), mentions);
    FilterMembers((m: Mention) => m.afterTransition, Alternatives(mentions, active));
  }

  lemma AskedGroups(asked: seq<Mention>, mentions: seq<Mention>, active: Option<string>, afterTransition: bool)
    requires forall m :: m in asked <==> OffStage(m, mentions, active, afterTransition)
    ensures asked != [] <==> AnyOffStage(mentions, active, afterTransition)
    ensures |Groups(asked)| == 1 <==> SinglesOut(mentions, active, afterTransition)
    ensures |Groups(asked)| > 1 <==> Ambiguous(mentions, active, afterTransition)
  {
    OneGroup(asked);
    GroupsNonEmpty(asked);
    if asked != [] { assert asked[0] in asked && OffStage(asked[0], mentions, active, afterTransition); }
  }

  lemma OffStageGroups(mentions: seq<Mention>, active: Option<string>, afterTransition: bool)
    ensures var others := Alternatives(mentions, active);
      var asked := if afterTransition then AfterTransition(others) else others;
      && (forall m :: m in asked <==> OffStage(m, mentions, active, afterTransition))
      && (asked != [] <==> AnyOffStage(mentions, active, afterTransition))
      && (|Groups(asked)| == 1 <==> SinglesOut(mentions, active, afterTransition))
      && (|Groups(asked)| > 1 <==> Ambiguous(mentions, active, afterTransition))
  {
    var others := Alternatives(mentions, active);
    var asked := if afterTransition then AfterTransition(others) else others;
    AskedAre(mentions, active, afterTransition);
    AskedGroups(asked, mentions, active, afterTransition);
  }

  lemma StageTest(mentions: seq<Mention>, active: Option<string>)
    ensures var onStage := Filter((m: Mention) => OnStage(active, m), mentions);
      && (onStage != [] <==> exists m :: m in mentions && IsStaged(m, active))
      && (mentions == [] <==> !AnyOffStage(mentions, active, false) && onStage == [])
  {
    var onStage := Filter((m: Mention) => OnStage(active, m), mentions);
    FilterMembers((m: Mention) => OnStage(active, m), mentions);
    if mentions != [] {
      assert mentions[0] in mentions;
      if !IsStaged(mentions[0], active) { assert OffStage(mentions[0], mentions, active, false); }
    }
    if onStage != [] { assert onStage[0] in onStage; }
  }

  /** What the tests of the decision ask. */
  lemma DecideTests(mentions: seq<Mention>, active: Option<string>)
    ensures var others := Alternatives(mentions, active);
      var onStage := Filter((m: Mention) => OnStage(active, m), mentions);
      && (others == [] <==> !AnyOffStage(mentions, active, false))
      && (onStage != [] <==> exists m :: m in mentions && IsStaged(m, active))
      && (mentions == [] <==> others == [] && onStage == [])
      && (|Groups(AfterTransition(others))| == 1 <==> SinglesOut(mentions, active, true))
      && (|Groups(others)| > 1 <==> Ambiguous(mentions, active, false))
      && (SinglesOut(mentions, active, true) || SinglesOut(mentions, active, false) ==> Chosen(mentions, active) != [])
  {
    OffStageGroups(mentions, active, false);
    OffStageGroups(mentions, active, true);
    StageTest(mentions, active);
  }

  /** The answer when one product is named off stage: by a strong enough term, better still in several segments. */
  ghost function NamedAlone(mentions: seq<Mention>, chosen: seq<Mention>): Decision
    requires chosen != []
  {
    var strength := Best(chosen).signal.strength;
    if strength < 0.84 then NoSuggestion(true, strength, Evidence(mentions), WeakCatalogSignal, true)
    else if |Evidence(chosen)| > 1 then
      Suggest(Best(chosen).product, Smaller(0.99, strength + 0.04), Evidence(chosen), RepeatedFocus, VariantChoices(chosen))
    else
      Suggest(Best(chosen).product, Smaller(0.99, strength), Evidence(chosen), ExplicitName, VariantChoices(chosen))
  }

  /**
   * The whole decision, by what was mentioned: which answer is given, with which evidence and confidence,
   * and when the classifier is worth asking.
   */
  lemma DecideExact(mentions: seq<Mention>, active: Option<string>, transition: bool, comparison: bool, textLength: nat)
    ensures mentions == [] ==>
      Decide(mentions, active, transition, comparison, textLength)
        == NoSuggestion(false, 0.0, [], NoCatalogSignal, transition || textLength >= 24)
    ensures mentions != [] && !AnyOffStage(mentions, active, false) ==>
      Decide(mentions, active, transition, comparison, textLength)
        == NoSuggestion(false, 1.0, Evidence(mentions), ActiveProductOnly, false)
    ensures SinglesOut(mentions, active, true) ==>
      var chosen := Chosen(mentions, active);
      chosen != [] && Decide(mentions, active, transition, comparison, textLength)
        == Suggest(Best(chosen).product, Larger(0.84, Best(chosen).signal.strength), Evidence(chosen),
                   ExplicitTransition, VariantChoices(chosen))
    ensures !SinglesOut(mentions, active, true) && Ambiguous(mentions, active, false) ==>
      Decide(mentions, active, transition, comparison, textLength)
        == NoSuggestion(true, 0.0, Evidence(mentions), MultipleProducts, true)
    ensures !SinglesOut(mentions, active, true) && SinglesOut(mentions, active, false) ==>
      Chosen(mentions, active) != [] && Decide(mentions, active, transition, comparison, textLength)
        == if (comparison || !transition) && exists m :: m in mentions && IsStaged(m, active)
           then NoSuggestion(true, 0.0, Evidence(mentions), Comparison, true)
           else NamedAlone(mentions, Chosen(mentions, active))
  {
    DecideTests(mentions, active);
  }

  ghost predicate EvidenceFor(m: Mention, id: string, segments: seq<Segment>, products: seq<Product>, group: string) {
    m.segmentId == id && ProductKey(m.product) == group && Backed(m, Window(segments), products)
  }

  /**
   * A suggestion is never in the group on stage, its confidence lies in [0.84, 0.99], its choices are
   * distinct rows of its own group, and each evidence segment is one of the last four non-blank
   * segments and speaks, word for word, a term of a row of the suggested product.
   */
  lemma DetectSound(segments: seq<Segment>, products: seq<Product>, activeId: Option<string>)
    ensures var d := Detect(segments, products, activeId);
      d.Suggest? ==>
        && d.product in products
        && (forall k :: ActiveRow(products, activeId, k) ==> ProductKey(d.product) != ProductKey(products[k]))
        && 0.84 <= d.confidence <= 0.99
        && d.evidence != [] && Distinct(d.evidence)
        && (forall id :: id in d.evidence ==> exists m :: EvidenceFor(m, id, segments, products, ProductKey(d.product)))
        && (d.variantChoices == [] || SoundChoices(d, MentionsFrom(Window(segments), 0, products)))
        && (forall p :: p in d.variantChoices ==> p in products)
  {
    var d := Detect(segments, products, activeId);
    var window, active := Window(segments), ActiveGroup(products, activeId);
    var mentions := MentionsFrom(window, 0, products);
    MentionsBacked(window, 0, products);
    forall k | ActiveRow(products, activeId, k) ensures active == Some(ProductKey(products[k])) {
      ActiveGroupIs(products, activeId, k);
    }
    if d.Suggest? {
      var text := WindowText(window);
      DecideSound(mentions, active, ContainsPhrase(text, TRANSITION_CUES), ContainsPhrase(text, COMPARISON_CUES), |text|);
      forall id | id in d.evidence ensures exists m :: EvidenceFor(m, id, segments, products, ProductKey(d.product)) {
        assert SpokenIn(mentions, id, ProductKey(d.product));
        var m :| m in mentions && m.segmentId == id && ProductKey(m.product) == ProductKey(d.product);
        assert EvidenceFor(m, id, segments, products, ProductKey(d.product));
      }
    }
  }
}
