/**
 * Spoken aliases for catalog variants: two- and three-word phrases of a title, broken at words nobody
 * says to name a product, and kept only when a single product group uses them.
 */
module SellerProducts {
  import opened Prelude
  import opened TranscriptText
  import Focus = ProductFocus

  datatype Variant = Variant(id: string, groupId: Option<string>, title: string, brand: string,
                             productType: Option<string>, color: Option<string>, sku: Option<string>)

  function GroupOf(v: Variant): string {
    v.groupId.GetOr(v.id)
  }

  const STOPWORDS := {
    "the", "and", "for", "with", "from", "this", "that", "are", "was", "has",
    "have", "per", "pack", "set", "into", "onto", "over", "under"}

  const SPEC_WORDS := {
    "inch", "inches", "width", "height", "length", "depth", "diameter", "weight", "quot", "amp"}

  predicate HasDigit(token: string) {
    exists i :: 0 <= i < |token| && '0' <= token[i] <= '9'
  }

  predicate Speakable(token: string) {
    |token| > 2 && !HasDigit(token) && token !in STOPWORDS && token !in SPEC_WORDS
  }

  /** A token names a product when it has three letters or more, no digit, and is not glue or a measure. */
  lemma SpeakableMeans(token: string)
    ensures Speakable(token) <==>
      && |token| >= 3 && (forall i :: 0 <= i < |token| ==> !('0' <= token[i] <= '9'))
      && token !in STOPWORDS + SPEC_WORDS
  {
  }

  // ---------------------------------------------------------------- token runs

  /** Pieces between single spaces; the empty text is one empty piece. */
  function Split(s: string): seq<string> {
    if s == "" then [""]
    else
      var rest := Split(s[1..]);
      if s[0] == ' ' then [""] + rest
      else if rest == [] then [[s[0]]]
      else [[s[0]] + rest[0]] + rest[1..]
  }

  lemma {:induction false} SplitWord(w: string, rest: string)
    requires forall i :: 0 <= i < |w| ==> IsWordChar(w[i])
    ensures Split(w) == [w]
    ensures Split(w + " " + rest) == [w] + Split(rest)
  {
    if w == "" {
      assert w + " " + rest == " " + rest;
      assert (" " + rest)[1..] == rest;
    } else {
      SplitWord(w[1..], rest);
      assert (w + " " + rest)[1..] == w[1..] + " " + rest;
      assert [w[0]] + w[1..] == w;
      assert ([w[1..]] + Split(rest))[1..] == Split(rest);
    }
  }

  lemma {:induction false} SplitJoin(words: seq<string>)
    requires AllWords(words)
    ensures Split(Join(words, " ")) == if words == [] then [""] else words
  {
    if words != [] {
      assert IsWord(words[0]);
      if |words| > 1 {
        SplitJoin(words[1..]);
        SplitWord(words[0], Join(words[1..], " "));
      } else {
        SplitWord(words[0], "");
      }
    }
  }

  /** Closed runs and the run still open after reading the tokens. */
  function Reading(tokens: seq<string>): (seq<seq<string>>, seq<string>) {
    if tokens == [] then ([], [])
    else
      var (runs, run) := Reading(tokens[..|tokens| - 1]);
      var token := tokens[|tokens| - 1];
      if Speakable(token) then (runs, run + [token])
      else (if run == [] then runs else runs + [run], [])
  }

  function RunsOf(tokens: seq<string>): seq<seq<string>> {
    var (runs, run) := Reading(tokens);
    if run == [] then runs else runs + [run]
  }

  method AliasTokenRuns(title: string) returns (runs: seq<seq<string>>)
    ensures runs == RunsOf(Split(Normalize(title)))
  {
    runs := [];
    var run: seq<string> := [];
    var tokens := Split(Normalize(title));
    for i := 0 to |tokens|
      invariant Reading(tokens[..i]) == (runs, run)
    {
      assert tokens[..i + 1][..i] == tokens[..i];
      if Speakable(tokens[i]) {
        run := run + [tokens[i]];
        continue;
      }
      if |run| > 0 { runs := runs + [run]; }
      run := [];
    }
    assert tokens[..|tokens|] == tokens;
    if |run| > 0 { runs := runs + [run]; }
  }

  predicate IsSuffix(g: seq<string>, words: seq<string>) {
    |g| <= |words| && words[|words| - |g|..] == g
  }

  lemma HasRunSnoc(words: seq<string>, w: string, g: seq<string>)
    requires g != []
    ensures HasRun(words + [w], g) <==> HasRun(words, g) || IsSuffix(g, words + [w])
  {
    var all := words + [w];
    if HasRun(all, g) {
      var k: int :| RunAt(all, g, k);
      if k + |g| <= |words| {
        assert all[k..k + |g|] == words[k..k + |g|];
        assert RunAt(words, g, k);
      } else {
        assert all[k..k + |g|] == all[|all| - |g|..];
      }
    }
    if HasRun(words, g) {
      var k: int :| RunAt(words, g, k);
      assert all[k..k + |g|] == words[k..k + |g|];
      assert RunAt(all, g, k);
    }
    if IsSuffix(g, all) {
      assert all[|all| - |g|..] == all[|all| - |g|..|all| - |g| + |g|];
      assert RunAt(all, g, |all| - |g|);
    }
  }

  predicate AllSpeakable(g: seq<string>) {
    forall i :: 0 <= i < |g| ==> Speakable(g[i])
  }

  ghost predicate InSomeRun(runs: seq<seq<string>>, g: seq<string>) {
    exists r :: r in runs && HasRun(r, g)
  }

  lemma InSomeRunSnoc(runs: seq<seq<string>>, run: seq<string>, g: seq<string>)
    ensures InSomeRun(runs + [run], g) <==> InSomeRun(runs, g) || HasRun(run, g)
  {
    if InSomeRun(runs, g) {
      var r :| r in runs && HasRun(r, g);
      assert r in runs + [run];
    }
    assert run in runs + [run];
  }

  /** The open run is the longest speakable end of the tokens. */
  ghost predicate OpenRun(tokens: seq<string>, run: seq<string>) {
    && IsSuffix(run, tokens) && AllSpeakable(run)
    && (|run| < |tokens| ==> !Speakable(tokens[|tokens| - |run| - 1]))
  }

  lemma SuffixAt(g: seq<string>, words: seq<string>, i: int)
    ensures IsSuffix(g, words) && 0 <= i < |g| ==> g[i] == words[|words| - |g| + i]
  {
    if IsSuffix(g, words) && 0 <= i < |g| {
      assert words[|words| - |g|..][i] == g[i];
    }
  }

  lemma SpeakableSuffix(tokens: seq<string>, run: seq<string>, g: seq<string>)
    requires OpenRun(tokens, run) && AllSpeakable(g)
    ensures IsSuffix(g, tokens) <==> IsSuffix(g, run)
  {
    SuffixAt(g, tokens, |g| - |run| - 1);
    if |g| <= |run| {
      assert tokens[|tokens| - |g|..] == run[|run| - |g|..];
    }
  }

  lemma HasRunOfNothing(g: seq<string>)
    requires g != []
    ensures !HasRun([], g)
  {
  }

  lemma SuffixSnoc(init: seq<string>, token: string, n: nat)
    requires n <= |init|
    ensures (init + [token])[|init| - n..] == init[|init| - n..] + [token]
  {
  }

  lemma {:induction false} ReadingIsOpen(tokens: seq<string>)
    ensures OpenRun(tokens, Reading(tokens).1)
  {
    if tokens != [] {
      var init, token := tokens[..|tokens| - 1], tokens[|tokens| - 1];
      ReadingIsOpen(init);
      var run := Reading(init).1;
      if Speakable(token) {
        SnocInit(run, token);
        assert tokens == init + [token];
        SuffixSnoc(init, token, |run|);
      }
    }
  }

  lemma {:induction false} ReadingFindsRuns(tokens: seq<string>, g: seq<string>)
    requires g != [] && AllSpeakable(g)
    ensures InSomeRun(Reading(tokens).0, g) || HasRun(Reading(tokens).1, g) <==> HasRun(tokens, g)
  {
    HasRunOfNothing(g);
    if tokens != [] {
      var init, token := tokens[..|tokens| - 1], tokens[|tokens| - 1];
      ReadingFindsRuns(init, g);
      assert tokens == init + [token];
      var (runs, run) := Reading(init);
      HasRunSnoc(init, token, g);
      if Speakable(token) {
        HasRunSnoc(run, token, g);
        ReadingIsOpen(tokens);
        SpeakableSuffix(tokens, run + [token], g);
      } else {
        InSomeRunSnoc(runs, run, g);
        SuffixAt(g, tokens, |g| - 1);
      }
    }
  }

  /** A phrase lies inside one token run exactly when its words are speakable and contiguous in the title. */
  lemma RunsHoldPhrases(title: string, g: seq<string>)
    requires g != [] && AllSpeakable(g)
    ensures InSomeRun(RunsOf(Split(Normalize(title))), g) <==> HasRun(Words(title), g)
  {
    NormalizeJoinsWords(title);
    SplitJoin(Words(title));
    var tokens := Split(Normalize(title));
    ReadingFindsRuns(tokens, g);
    var (runs, run) := Reading(tokens);
    InSomeRunSnoc(runs, run, g);
    HasRunOfNothing(g);
    if Words(title) == [] {
      assert Reading([""]) == ([], []) by { assert [""][..0] == []; }
    }
  }

  lemma {:induction false} RunsAreSpeakable(tokens: seq<string>)
    ensures forall r :: r in Reading(tokens).0 ==> AllSpeakable(r)
    ensures AllSpeakable(Reading(tokens).1)
  {
    if tokens != [] { RunsAreSpeakable(tokens[..|tokens| - 1]); }
  }

  // ---------------------------------------------------------------- phrases of a title

  /** Two or three speakable words, contiguous in the title. */
  ghost predicate PhraseWords(title: string, g: seq<string>) {
    2 <= |g| <= 3 && AllSpeakable(g) && HasRun(Words(title), g)
  }

  ghost predicate IsPhrase(title: string, text: string) {
    exists g :: PhraseWords(title, g) && text == Join(g, " ")
  }

  function AddNew(s: seq<string>, x: string): seq<string> {
    if x in s then s else s + [x]
  }

  function Starts(run: seq<string>, size: nat): nat {
    if |run| >= size then |run| - size + 1 else 0
  }

  function GramsAt(grams: seq<string>, run: seq<string>, size: nat, n: nat): seq<string>
    requires n <= Starts(run, size)
  {
    if n == 0 then grams else AddNew(GramsAt(grams, run, size, n - 1), Join(run[n - 1..n - 1 + size], " "))
  }

  /** All phrases of a run with at least two and fewer than `size` words. */
  function GramsBelow(grams: seq<string>, run: seq<string>, size: nat): seq<string> {
    if size <= 2 then grams else GramsAt(GramsBelow(grams, run, size - 1), run, size - 1, Starts(run, size - 1))
  }

  function GramsOfRun(grams: seq<string>, run: seq<string>): seq<string> {
    GramsBelow(grams, run, 4)
  }

  function GramsOf(runs: seq<seq<string>>): seq<string> {
    if runs == [] then [] else GramsOfRun(GramsOf(runs[..|runs| - 1]), runs[|runs| - 1])
  }

  method CollectGrams(before: seq<string>, run: seq<string>, size: nat) returns (grams: seq<string>)
    ensures grams == GramsAt(before, run, size, Starts(run, size))
  {
    grams := before;
    var start := 0;
    while start + size <= |run|
      invariant start <= Starts(run, size)
      invariant grams == GramsAt(before, run, size, start)
    {
      var gram := Join(run[start..start + size], " ");
      if gram !in grams { grams := grams + [gram]; }
      start := start + 1;
    }
  }

  /** The inner loop: the two-word phrases of a run, then its three-word phrases. */
  method CollectRun(before: seq<string>, run: seq<string>) returns (grams: seq<string>)
    ensures grams == GramsOfRun(before, run)
  {
    grams := before;
    for size := 2 to 4
      invariant grams == GramsBelow(before, run, size)
    {
      grams := CollectGrams(grams, run, size);
    }
  }

  lemma GramsOfStep(runs: seq<seq<string>>, i: nat)
    requires i < |runs|
    ensures GramsOf(runs[..i + 1]) == GramsOfRun(GramsOf(runs[..i]), runs[i])
  {
    assert runs[..i + 1][..i] == runs[..i];
  }

  method TitleNgrams(title: string) returns (grams: seq<string>)
    ensures grams == GramsOf(RunsOf(Split(Normalize(title))))
  {
    grams := [];
    var runs := AliasTokenRuns(title);
    for i := 0 to |runs|
      invariant grams == GramsOf(runs[..i])
    {
      grams := CollectRun(grams, runs[i]);
      GramsOfStep(runs, i);
    }
    assert runs[..|runs|] == runs;
  }

  predicate JoinedAt(run: seq<string>, size: nat, k: int, text: string) {
    0 <= k && k + size <= |run| && text == Join(run[k..k + size], " ")
  }

  ghost predicate JoinedBefore(run: seq<string>, size: nat, n: nat, text: string) {
    exists k :: 0 <= k < n && JoinedAt(run, size, k, text)
  }

  lemma JoinedBeforeStep(run: seq<string>, size: nat, n: nat, text: string)
    requires 1 <= n <= Starts(run, size)
    ensures JoinedBefore(run, size, n, text)
       <==> JoinedBefore(run, size, n - 1, text) || text == Join(run[n - 1..n - 1 + size], " ")
  {
    if text == Join(run[n - 1..n - 1 + size], " ") { assert JoinedAt(run, size, n - 1, text); }
  }

  lemma {:induction false} GramsAtMembers(grams: seq<string>, run: seq<string>, size: nat, n: nat)
    requires n <= Starts(run, size) && Distinct(grams)
    ensures Distinct(GramsAt(grams, run, size, n))
    ensures forall x :: x in GramsAt(grams, run, size, n) <==> x in grams || JoinedBefore(run, size, n, x)
  {
    if n > 0 {
      GramsAtMembers(grams, run, size, n - 1);
      forall x ensures x in GramsAt(grams, run, size, n) <==> x in grams || JoinedBefore(run, size, n, x) {
        JoinedBeforeStep(run, size, n, x);
      }
    }
  }

  /** Some run of `size` words joins to the text. */
  ghost predicate JoinedRun(run: seq<string>, size: nat, text: string) {
    exists g :: |g| == size && HasRun(run, g) && text == Join(g, " ")
  }

  lemma JoinedWhereRun(run: seq<string>, g: seq<string>, k: int)
    requires RunAt(run, g, k)
    ensures JoinedAt(run, |g|, k, Join(g, " ")) && k < Starts(run, |g|)
  {
  }

  lemma JoinedBeforeIsRun(run: seq<string>, size: nat, x: string)
    ensures JoinedBefore(run, size, Starts(run, size), x) <==> JoinedRun(run, size, x)
  {
    var n := Starts(run, size);
    if JoinedBefore(run, size, n, x) {
      var k :| 0 <= k < n && JoinedAt(run, size, k, x);
      assert RunAt(run, run[k..k + size], k);
    }
    if JoinedRun(run, size, x) {
      var g :| |g| == size && HasRun(run, g) && x == Join(g, " ");
      var k: int :| RunAt(run, g, k);
      JoinedWhereRun(run, g, k);
    }
  }

  lemma GramsAtAll(grams: seq<string>, run: seq<string>, size: nat)
    requires Distinct(grams)
    ensures Distinct(GramsAt(grams, run, size, Starts(run, size)))
    ensures forall x :: x in GramsAt(grams, run, size, Starts(run, size)) <==> x in grams || JoinedRun(run, size, x)
  {
    GramsAtMembers(grams, run, size, Starts(run, size));
    forall x ensures JoinedBefore(run, size, Starts(run, size), x) <==> JoinedRun(run, size, x) {
      JoinedBeforeIsRun(run, size, x);
    }
  }

  ghost predicate JoinedFrom(runs: seq<seq<string>>, text: string) {
    exists r :: r in runs && (JoinedRun(r, 2, text) || JoinedRun(r, 3, text))
  }

  lemma GramsOfRunMembers(grams: seq<string>, run: seq<string>)
    requires Distinct(grams)
    ensures Distinct(GramsOfRun(grams, run))
    ensures forall x :: x in GramsOfRun(grams, run) <==> x in grams || JoinedRun(run, 2, x) || JoinedRun(run, 3, x)
  {
    assert GramsBelow(grams, run, 2) == grams;
    GramsAtAll(grams, run, 2);
    GramsAtAll(GramsBelow(grams, run, 3), run, 3);
  }

  lemma JoinedFromSnoc(init: seq<seq<string>>, last: seq<string>, x: string)
    ensures JoinedFrom(init + [last], x) <==> JoinedFrom(init, x) || JoinedRun(last, 2, x) || JoinedRun(last, 3, x)
  {
    assert last in init + [last];
    if JoinedFrom(init, x) {
      var r :| r in init && (JoinedRun(r, 2, x) || JoinedRun(r, 3, x));
      assert r in init + [last];
    }
  }

  lemma {:induction false} GramsOfMembers(runs: seq<seq<string>>)
    ensures Distinct(GramsOf(runs))
    ensures forall x :: x in GramsOf(runs) <==> JoinedFrom(runs, x)
  {
    if runs != [] {
      var init, last := runs[..|runs| - 1], runs[|runs| - 1];
      GramsOfMembers(init);
      GramsOfRunMembers(GramsOf(init), last);
      assert runs == init + [last];
      forall x ensures x in GramsOf(runs) <==> JoinedFrom(runs, x) {
        JoinedFromSnoc(init, last, x);
      }
    }
  }

  lemma {:induction false} RunOfSpeakable(run: seq<string>, g: seq<string>)
    requires AllSpeakable(run) && HasRun(run, g)
    ensures AllSpeakable(g)
  {
    var k: int :| RunAt(run, g, k);
    forall i | 0 <= i < |g| ensures Speakable(g[i]) {
      assert g[i] == run[k..k + |g|][i];
    }
  }

  /** The n-grams of a title are exactly its phrases, each listed once. */
  lemma NgramsArePhrases(title: string)
    ensures var grams := GramsOf(RunsOf(Split(Normalize(title))));
      Distinct(grams) && forall x :: x in grams <==> IsPhrase(title, x)
  {
    var tokens := Split(Normalize(title));
    var runs := RunsOf(tokens);
    RunsAreSpeakable(tokens);
    GramsOfMembers(runs);
    forall x ensures JoinedFrom(runs, x) <==> IsPhrase(title, x) {
      if JoinedFrom(runs, x) {
        var r :| r in runs && (JoinedRun(r, 2, x) || JoinedRun(r, 3, x));
        var size := if JoinedRun(r, 2, x) then 2 else 3;
        var g :| |g| == size && HasRun(r, g) && x == Join(g, " ");
        RunOfSpeakable(r, g);
        assert InSomeRun(runs, g);
        RunsHoldPhrases(title, g);
        assert PhraseWords(title, g);
      }
      if IsPhrase(title, x) {
        var g :| PhraseWords(title, g) && x == Join(g, " ");
        RunsHoldPhrases(title, g);
        var r :| r in runs && HasRun(r, g);
        assert JoinedRun(r, |g|, x);
      }
    }
  }

  // ---------------------------------------------------------------- aliases across the catalog

  /** Every variant whose title has the phrase belongs to the group. */
  ghost predicate OnlyIn(variants: seq<Variant>, text: string, group: string) {
    forall v :: v in variants && IsPhrase(v.title, text) ==> GroupOf(v) == group
  }

  ghost predicate UsedBy(variants: seq<Variant>, text: string, group: string) {
    exists v :: v in variants && IsPhrase(v.title, text) && GroupOf(v) == group
  }

  /** The groups whose titles use each phrase. */
  ghost predicate Tallies(variants: seq<Variant>, groupsByGram: map<string, set<string>>) {
    && (forall x, g :: x in groupsByGram && g in groupsByGram[x] ==> UsedBy(variants, x, g))
    && (forall v, x :: v in variants && IsPhrase(v.title, x) ==> x in groupsByGram && GroupOf(v) in groupsByGram[x])
  }

  lemma UsedBySnoc(variants: seq<Variant>, v: Variant, text: string, group: string)
    ensures UsedBy(variants + [v], text, group)
       <==> UsedBy(variants, text, group) || (IsPhrase(v.title, text) && GroupOf(v) == group)
  {
    if UsedBy(variants, text, group) {
      var w :| w in variants && IsPhrase(w.title, text) && GroupOf(w) == group;
      assert w in variants + [v];
    }
    assert v in variants + [v];
  }

  /** The tally after some phrases of one more variant have been counted for its group. */
  ghost predicate Counted(before: map<string, set<string>>, after: map<string, set<string>>, grams: seq<string>, group: string) {
    && (forall x :: x in after <==> x in before || x in grams)
    && (forall x :: x in before ==> after[x] == before[x] + if x in grams then {group} else {})
    && (forall x :: x in grams && x !in before ==> after[x] == {group})
  }

  lemma CountOne(before: map<string, set<string>>, now: map<string, set<string>>, grams: seq<string>, x: string, group: string)
    requires Counted(before, now, grams, group)
    ensures Counted(before, now[x := (if x in now then now[x] else {}) + {group}], grams + [x], group)
  {
  }

  lemma CountedTallies(variants: seq<Variant>, v: Variant, before: map<string, set<string>>, after: map<string, set<string>>,
                       grams: seq<string>)
    requires Tallies(variants, before) && Counted(before, after, grams, GroupOf(v))
    requires forall x :: x in grams <==> IsPhrase(v.title, x)
    ensures Tallies(variants + [v], after)
  {
    forall x, g | x in after && g in after[x] ensures UsedBy(variants + [v], x, g) {
      UsedBySnoc(variants, v, x, g);
    }
  }

  /** Counts one group for each phrase of one more variant. */
  method Tally(ghost variants: seq<Variant>, v: Variant, grams: seq<string>, before: map<string, set<string>>)
    returns (after: map<string, set<string>>)
    requires Tallies(variants, before) && forall x :: x in grams <==> IsPhrase(v.title, x)
    ensures Tallies(variants + [v], after)
  {
    after := before;
    for i := 0 to |grams|
      invariant Counted(before, after, grams[..i], GroupOf(v))
    {
      CountOne(before, after, grams[..i], grams[i], GroupOf(v));
      assert grams[..i + 1] == grams[..i] + [grams[i]];
      after := after[grams[i] := (if grams[i] in after then after[grams[i]] else {}) + {GroupOf(v)}];
    }
    assert grams[..|grams|] == grams;
    CountedTallies(variants, v, before, after, grams);
  }

  lemma SoleGroup(variants: seq<Variant>, groupsByGram: map<string, set<string>>, v: Variant, x: string)
    requires Tallies(variants, groupsByGram) && v in variants && IsPhrase(v.title, x)
    ensures x in groupsByGram && (|groupsByGram[x]| == 1 <==> OnlyIn(variants, x, GroupOf(v)))
  {
    var groups := groupsByGram[x];
    if |groups| == 1 {
      var g :| g in groups;
      assert |groups - {g}| == 0;
      assert groups == {g};
    }
    if OnlyIn(variants, x, GroupOf(v)) {
      forall g | g in groups ensures g == GroupOf(v) {
        assert UsedBy(variants, x, g);
      }
      assert groups == {GroupOf(v)};
    }
  }

  /** A spoken alias of a variant: a phrase of its title that only its group uses, or its brand. */
  ghost predicate IsAlias(variants: seq<Variant>, v: Variant, text: string) {
    || (IsPhrase(v.title, text) && OnlyIn(variants, text, GroupOf(v)))
    || (text != "" && text == Lower(v.brand))
  }

  method AliasesOf(ghost variants: seq<Variant>, v: Variant, grams: seq<string>, groupsByGram: map<string, set<string>>)
    returns (aliases: seq<string>)
    requires v in variants && Tallies(variants, groupsByGram) && forall x :: x in grams <==> IsPhrase(v.title, x)
    ensures Distinct(aliases) && forall x :: x in aliases <==> IsAlias(variants, v, x)
  {
    aliases := [];
    for i := 0 to |grams|
      invariant Distinct(aliases)
      invariant forall x :: x in aliases <==> x in grams[..i] && OnlyIn(variants, x, GroupOf(v))
    {
      assert grams[..i + 1] == grams[..i] + [grams[i]];
      assert IsPhrase(v.title, grams[i]);
      SoleGroup(variants, groupsByGram, v, grams[i]);
      if |groupsByGram[grams[i]]| == 1 && grams[i] !in aliases { aliases := aliases + [grams[i]]; }
    }
    assert grams[..|grams|] == grams;
    var brand := Lower(v.brand);
    if brand != "" && brand !in aliases { aliases := aliases + [brand]; }
  }

  ghost predicate IsOption(variants: seq<Variant>, v: Variant, p: Focus.Product) {
    && p.id == v.id && p.traits.name == v.title
    && p.groupKey == Some(if v.groupId.Some? then v.groupId.value else v.id)
    && p.traits.brand == Some(v.brand) && p.traits.productType == v.productType
    && p.traits.color == v.color && p.traits.sku == v.sku
    && Distinct(p.traits.aliases)
    && forall x :: x in p.traits.aliases <==> IsAlias(variants, v, x)
  }

  ghost predicate ListsPhrases(grams: seq<string>, v: Variant) {
    forall x :: x in grams <==> IsPhrase(v.title, x)
  }

  method GatherOne(ghost seen: seq<Variant>, v: Variant, groupsByGram: map<string, set<string>>)
    returns (grams: seq<string>, tallied: map<string, set<string>>)
    requires Tallies(seen, groupsByGram)
    ensures ListsPhrases(grams, v) && Tallies(seen + [v], tallied)
  {
    grams := TitleNgrams(v.title);
    NgramsArePhrases(v.title);
    tallied := Tally(seen, v, grams, groupsByGram);
  }

  /** The first loop: the phrases of every title, and the groups that use each phrase. */
  method GatherGrams(variants: seq<Variant>) returns (groupsByGram: map<string, set<string>>, gramsByVariant: seq<seq<string>>)
    ensures Tallies(variants, groupsByGram) && |gramsByVariant| == |variants|
    ensures forall j :: 0 <= j < |variants| ==> ListsPhrases(gramsByVariant[j], variants[j])
  {
    groupsByGram, gramsByVariant := map[], [];
    for i := 0 to |variants|
      invariant |gramsByVariant| == i && Tallies(variants[..i], groupsByGram)
      invariant forall j :: 0 <= j < i ==> ListsPhrases(gramsByVariant[j], variants[j])
    {
      TakeNext(variants, i);
      var grams;
      grams, groupsByGram := GatherOne(variants[..i], variants[i], groupsByGram);
      gramsByVariant := gramsByVariant + [grams];
    }
    assert variants[..|variants|] == variants;
  }

  /** The whole derivation: aliases are exactly the phrases one group owns, plus the brand. */
  method VariantsToTranscriptOptions(variants: seq<Variant>) returns (options: seq<Focus.Product>)
    ensures |options| == |variants|
    ensures forall i :: 0 <= i < |options| ==> IsOption(variants, variants[i], options[i])
  {
    var groupsByGram, gramsByVariant := GatherGrams(variants);
    options := [];
    for i := 0 to |variants|
      invariant |options| == i
      invariant forall j :: 0 <= j < i ==> IsOption(variants, variants[j], options[j])
    {
      var v := variants[i];
      assert ListsPhrases(gramsByVariant[i], v);
      var aliases := AliasesOf(variants, v, gramsByVariant[i], groupsByGram);
      options := options + [Focus.Product(v.id, Some(GroupOf(v)),
                            Focus.Traits(v.title, aliases, Some(v.brand), v.productType, v.color, v.sku))];
    }
  }

  /** Siblings do not cost each other a phrase: one that only variants of one group use is an alias of each of them. */
  lemma SiblingsShareAliases(variants: seq<Variant>, v: Variant, group: string, text: string)
    requires v in variants && IsPhrase(v.title, text)
    requires forall w :: w in variants && IsPhrase(w.title, text) ==> w.groupId == Some(group)
    ensures IsAlias(variants, v, text)
  {
  }

  /** A phrase that variants of two groups use names neither: it is an alias of none, unless it is the brand. */
  lemma SharedPhrasesNameNobody(variants: seq<Variant>, v: Variant, w: Variant, text: string)
    requires v in variants && w in variants && IsPhrase(v.title, text) && IsPhrase(w.title, text)
    requires v.groupId != w.groupId || (v.groupId == None && v.id != w.id)
    requires v.groupId != None || w.groupId != Some(v.id)
    requires w.groupId != None || v.groupId != Some(w.id)
    ensures IsAlias(variants, v, text) ==> text == Lower(v.brand)
  {
  }

  lemma {:induction false} SpeakableWords(title: string, g: seq<string>)
    requires HasRun(Words(title), g)
    ensures AllWords(g)
  {
    NormalizeJoinsWords(title);
    var k: int :| RunAt(Words(title), g, k);
    forall i | 0 <= i < |g| ensures IsWord(g[i]) {
      assert g[i] == Words(title)[k..k + |g|][i];
    }
  }

  lemma PhraseFromWords(title: string, g: seq<string>)
    requires 2 <= |g| <= 3 && AllSpeakable(g)
    ensures HasRun(Words(title), g) ==> IsPhrase(title, Join(g, " "))
  {
    assert HasRun(Words(title), g) ==> PhraseWords(title, g);
  }

  /**
   * An alias taken from one product's title never occurs, word for word, in the title of another
   * product: reading that title aloud does not bring up the first product by this alias.
   */
  lemma AliasesDoNotCross(variants: seq<Variant>, v: Variant, w: Variant, alias: string)
    requires v in variants && w in variants && GroupOf(v) != GroupOf(w)
    requires IsPhrase(v.title, alias) && OnlyIn(variants, alias, GroupOf(v))
    ensures !HasRun(Words(w.title), Words(alias))
    ensures Normalize(alias) == alias && !Includes(Padded(Normalize(w.title)), Padded(alias))
  {
    var g :| PhraseWords(v.title, g) && alias == Join(g, " ");
    SpeakableWords(v.title, g);
    FoldJoin(g);
    TokensOfJoin(g);
    NormalizeJoinsWords(alias);
    PhraseFromWords(w.title, g);
    JoinEdges(g);
    SearchIsWordSearch(w.title, alias);
  }
}
