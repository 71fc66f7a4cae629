/**
 * Normalised transcript text. The regular-expression pipeline spells a list of words, and searching
 * for a space-padded term in space-padded text is searching for the term's words in the text's words.
 */
module TranscriptText {
  import opened Prelude

  // ---------------------------------------------------------------- the pipeline

  // Lower case where it matters here: the Kelvin sign and the dotted capital I are the only characters
  // beyond ASCII whose lower case holds a letter a-z; any other one is a separator in either case.
  function LowerChar(c: char): string {
    if 'A' <= c <= 'Z' then [c - 'A' + 'a']
    else if c == '\U{212A}' then "k"
    else if c == '\U{0130}' then ['i', '\U{0307}']
    else [c]
  }

  function Lower(s: string): string {
    if s == "" then "" else LowerChar(s[0]) + Lower(s[1..])
  }

  predicate IsApostrophe(c: char) {
    c == '\'' || c == '\U{2018}' || c == '\U{2019}'
  }

  function DropApostrophes(s: string): string {
    if s == "" then "" else (if IsApostrophe(s[0]) then "" else [s[0]]) + DropApostrophes(s[1..])
  }

  predicate IsWordChar(c: char) {
    'a' <= c <= 'z' || '0' <= c <= '9'
  }

  /** Each maximal run of other characters becomes one space. */
  function BreakWords(s: string): string {
    if s == "" then ""
    else if IsWordChar(s[0]) then [s[0]] + BreakWords(s[1..])
    else if |s| > 1 && !IsWordChar(s[1]) then BreakWords(s[1..])
    else " " + BreakWords(s[1..])
  }

  function TrimLeft(s: string): string {
    if s != "" && s[0] == ' ' then TrimLeft(s[1..]) else s
  }

  function TrimRight(s: string): string {
    if s != "" && s[|s| - 1] == ' ' then TrimRight(s[..|s| - 1]) else s
  }

  function SqueezeSpaces(s: string): string {
    if s == "" then ""
    else if s[0] == ' ' && |s| > 1 && s[1] == ' ' then SqueezeSpaces(s[1..])
    else [s[0]] + SqueezeSpaces(s[1..])
  }

  function Fold(s: string): string {
    DropApostrophes(Lower(s))
  }

  function Normalize(s: string): string {
    SqueezeSpaces(TrimRight(TrimLeft(BreakWords(Fold(s)))))
  }

  // ---------------------------------------------------------------- words

  /** The maximal runs of word characters, in order. */
  function Tokens(s: string): (words: seq<string>)
    ensures s != "" && IsWordChar(s[0]) ==> words != []
  {
    if s == "" then []
    else if !IsWordChar(s[0]) then Tokens(s[1..])
    else if |s| > 1 && IsWordChar(s[1]) then
      var rest := Tokens(s[1..]);
      [[s[0]] + rest[0]] + rest[1..]
    else [[s[0]]] + Tokens(s[1..])
  }

  function Words(s: string): seq<string> {
    Tokens(Fold(s))
  }

  predicate IsWord(w: string) {
    w != "" && forall i :: 0 <= i < |w| ==> IsWordChar(w[i])
  }

  predicate AllWords(words: seq<string>) {
    forall i :: 0 <= i < |words| ==> IsWord(words[i])
  }

  lemma {:induction false} TokensAreWords(s: string)
    ensures AllWords(Tokens(s))
  {
    if s != "" { TokensAreWords(s[1..]); }
  }

  lemma {:induction false} JoinEdges(words: seq<string>)
    requires AllWords(words) && words != []
    ensures Join(words, " ") != "" && IsWordChar(Join(words, " ")[0]) && IsWordChar(Join(words, " ")[|Join(words, " ")| - 1])
  {
    assert IsWord(words[0]);
    if |words| > 1 {
      JoinEdges(words[1..]);
      assert words[1..][0] == words[1];
    }
  }

  lemma JoinCons(c: char, words: seq<string>)
    requires words != []
    ensures Join([[c] + words[0]] + words[1..], " ") == [c] + Join(words, " ")
  {
    var w, rest := words[0], words[1..];
    if rest != [] {
      ConcatHead([[c] + w], rest);
      assert [[c] + w][1..] + rest == rest;
      ConcatAssociates([c], w, " ");
      ConcatAssociates([c], w + " ", Join(rest, " "));
    }
  }

  predicate Leads(s: string) {
    s != "" && !IsWordChar(s[0])
  }

  predicate Trails(s: string) {
    s != "" && !IsWordChar(s[|s| - 1])
  }

  /** The text with a space where the broken text starts or ends outside a word. */
  function Framed(before: bool, words: seq<string>, after: bool): string {
    (if before then " " else "") + Join(words, " ") + (if after then " " else "")
  }

  lemma FramedCons(c: char, words: seq<string>, before: bool, after: bool)
    requires words != []
    ensures !before ==> [c] + Framed(false, words, after) == Framed(false, [[c] + words[0]] + words[1..], after)
    ensures before ==> [c] + Framed(true, words, after) == Framed(false, [[c]] + words, after)
    ensures " " + Framed(false, words, after) == Framed(true, words, after)
  {
    var tail := if after then " " else "";
    if before {
      assert ([[c]] + words)[1..] == words;
      assert Join([[c]] + words, " ") == [c] + " " + Join(words, " ");
      assert [c] + (" " + Join(words, " ") + tail) == [c] + " " + Join(words, " ") + tail;
    } else {
      JoinCons(c, words);
      assert [c] + ("" + Join(words, " ") + tail) == "" + ([c] + Join(words, " ")) + tail;
    }
    assert " " + ("" + Join(words, " ") + tail) == " " + Join(words, " ") + tail;
  }

  /** Breaking words leaves the words joined by single spaces, with at most one space at each end. */
  lemma {:induction false} BreakWordsJoins(s: string)
    ensures Tokens(s) == [] ==> BreakWords(s) == if s == "" then "" else " "
    ensures Tokens(s) == [] && s != "" ==> Leads(s) && Trails(s)
    ensures Tokens(s) != [] ==> BreakWords(s) == Framed(Leads(s), Tokens(s), Trails(s))
  {
    if s != "" {
      var rest := s[1..];
      BreakWordsJoins(rest);
      if |s| > 1 { assert s[|s| - 1] == rest[|rest| - 1]; }
      if Tokens(rest) != [] {
        FramedCons(s[0], Tokens(rest), Leads(rest), Trails(rest));
      } else if IsWordChar(s[0]) {
        assert Join([[s[0]]], " ") == [s[0]];
      }
    }
  }

  lemma TrimLeftOnce(before: bool, s: string)
    requires s != "" && IsWordChar(s[0])
    ensures TrimLeft((if before then " " else "") + s) == s
  {
    if before { ConsTail(' ', s); } else { ConcatEmpty(s); }
  }

  lemma TrimRightSpace(s: string)
    requires s != "" && IsWordChar(s[|s| - 1])
    ensures TrimRight(s + " ") == s
  {
    var t := s + [' '];
    SnocInit(s, ' ');
    assert TrimRight(t) == TrimRight(s);
  }

  lemma TrimRightOnce(s: string, after: bool)
    requires s != "" && IsWordChar(s[|s| - 1])
    ensures TrimRight(s + (if after then " " else "")) == s
  {
    if after { TrimRightSpace(s); } else { ConcatEmpty(s); }
  }

  lemma TrimSpaced(before: bool, s: string, after: bool)
    requires s != "" && IsWordChar(s[0]) && IsWordChar(s[|s| - 1])
    ensures TrimRight(TrimLeft((if before then " " else "") + s + (if after then " " else ""))) == s
  {
    var tail := if after then " " else "";
    ConcatAssociates(if before then " " else "", s, tail);
    TrimLeftOnce(before, s + tail);
    TrimRightOnce(s, after);
  }

  lemma {:induction false} SqueezeWord(w: string, rest: string)
    requires forall i :: 0 <= i < |w| ==> IsWordChar(w[i])
    ensures SqueezeSpaces(w + rest) == w + SqueezeSpaces(rest)
  {
    if w == "" {
      ConcatEmpty(rest);
    } else {
      ConcatHead(w, rest);
      SqueezeWord(w[1..], rest);
      HeadAndTail(w);
      ConcatAssociates([w[0]], w[1..], SqueezeSpaces(rest));
    }
  }

  lemma {:induction false} SqueezeJoin(words: seq<string>)
    requires AllWords(words)
    ensures SqueezeSpaces(Join(words, " ")) == Join(words, " ")
  {
    if |words| == 1 {
      assert IsWord(words[0]);
      SqueezeWord(words[0], "");
      ConcatEmpty(words[0]);
    } else if words != [] {
      assert IsWord(words[0]);
      var rest := Join(words[1..], " ");
      SqueezeJoin(words[1..]);
      JoinEdges(words[1..]);
      ConsTail(' ', rest);
      SqueezeWord(words[0], " " + rest);
      ConcatAssociates(words[0], " ", rest);
    }
  }

  /** The pipeline spells exactly the words of the folded text, joined by single spaces. */
  lemma NormalizeJoinsWords(s: string)
    ensures AllWords(Words(s)) && Normalize(s) == Join(Words(s), " ")
  {
    var f := Fold(s);
    TokensAreWords(f);
    BreakWordsJoins(f);
    if Tokens(f) != [] {
      JoinEdges(Tokens(f));
      TrimSpaced(Leads(f), Join(Tokens(f), " "), Trails(f));
      SqueezeJoin(Tokens(f));
    } else if f != "" {
      assert " "[1..] == "";
    }
  }

  lemma {:induction false} LowerNothing(s: string)
    requires forall i :: 0 <= i < |s| ==> IsWordChar(s[i]) || s[i] == ' '
    ensures Lower(s) == s
  {
    if s != "" {
      LowerNothing(s[1..]);
      HeadAndTail(s);
    }
  }

  lemma {:induction false} JoinIsPlain(words: seq<string>)
    requires AllWords(words)
    ensures forall i :: 0 <= i < |Join(words, " ")| ==> IsWordChar(Join(words, " ")[i]) || Join(words, " ")[i] == ' '
  {
    if words != [] {
      assert IsWord(words[0]);
      if |words| > 1 { JoinIsPlain(words[1..]); }
    }
  }

  lemma {:induction false} DropNothing(s: string)
    requires forall i :: 0 <= i < |s| ==> IsWordChar(s[i]) || s[i] == ' '
    ensures DropApostrophes(s) == s
  {
    if s != "" { DropNothing(s[1..]); }
  }

  lemma {:induction false} LowerConcat(a: string, b: string)
    ensures Lower(a + b) == Lower(a) + Lower(b)
  {
    if a == "" {
      ConcatEmpty(b);
    } else {
      ConcatHead(a, b);
      LowerConcat(a[1..], b);
      ConcatAssociates(LowerChar(a[0]), Lower(a[1..]), Lower(b));
    }
  }

  lemma {:induction false} DropConcat(a: string, b: string)
    ensures DropApostrophes(a + b) == DropApostrophes(a) + DropApostrophes(b)
  {
    if a == "" {
      ConcatEmpty(b);
    } else {
      ConcatHead(a, b);
      DropConcat(a[1..], b);
      ConcatAssociates(if IsApostrophe(a[0]) then "" else [a[0]], DropApostrophes(a[1..]), DropApostrophes(b));
    }
  }

  lemma FoldConcat(a: string, b: string)
    ensures Fold(a + b) == Fold(a) + Fold(b)
  {
    LowerConcat(a, b);
    DropConcat(Lower(a), Lower(b));
  }

  lemma LowerOne(c: char)
    ensures Lower([c]) == LowerChar(c)
  {
    assert [c][1..] == "";
    ConcatEmpty(LowerChar(c));
  }

  /** One character folded: apostrophes vanish, letters lose their case, anything else stays or is no word character. */
  lemma FoldsChar(c: char)
    ensures c == '\'' || c == '\U{2018}' || c == '\U{2019}' ==> Fold([c]) == ""
    ensures 'A' <= c <= 'Z' ==> Fold([c]) == [c - 'A' + 'a']
    ensures 'a' <= c <= 'z' || '0' <= c <= '9' || c == ' ' || c == '-' ==> Fold([c]) == [c]
  {
    LowerOne(c);
    if LowerChar(c) == [c] || 'A' <= c <= 'Z' {
      var d := LowerChar(c)[0];
      assert [d][1..] == "";
      assert DropApostrophes([d]) == (if IsApostrophe(d) then "" else [d]) + DropApostrophes("");
    }
  }

  /** An apostrophe, straight or typographic, leaves the words as if it were not there. */
  lemma ApostrophesVanish(a: string, c: char, b: string)
    requires c == '\'' || c == '\U{2018}' || c == '\U{2019}'
    ensures Words(a + [c] + b) == Words(a + b)
  {
    FoldConcat(a + [c], b);
    FoldConcat(a, [c]);
    FoldConcat(a, b);
    FoldsChar(c);
    ConcatEmpty(Fold(a));
  }

  /** Any other character that is not a letter or digit, once folded, parts the words on its two sides. */
  lemma {:induction false} SeparatorsPart(a: string, c: char, b: string)
    requires !('a' <= c <= 'z' || '0' <= c <= '9')
    ensures Tokens(a + [c] + b) == Tokens(a) + Tokens(b)
    decreases |a|
  {
    var whole := a + [c] + b;
    if a == "" {
      assert whole[0] == c && whole[1..] == b;
      ConcatEmpty(Tokens(b));
    } else {
      assert whole[0] == a[0] && whole[1..] == a[1..] + [c] + b;
      SeparatorsPart(a[1..], c, b);
      if |a| > 1 {
        assert whole[1] == a[1];
        if IsWordChar(a[0]) && IsWordChar(a[1]) {
          var rest := Tokens(a[1..]);
          ConcatHead(rest, Tokens(b));
          ConcatAssociates([[a[0]] + rest[0]], rest[1..], Tokens(b));
        } else {
          ConcatAssociates([[a[0]]], Tokens(a[1..]), Tokens(b));
        }
      } else {
        assert whole[1] == c && Tokens(a[1..]) == [];
      }
    }
  }

  lemma {:induction false} TokensWord(w: string, rest: string)
    requires IsWord(w) && (rest == "" || !IsWordChar(rest[0]))
    ensures Tokens(w + rest) == [w] + Tokens(rest)
  {
    assert (w + rest)[1..] == w[1..] + rest;
    if |w| > 1 {
      assert (w + rest)[1] == w[1];
      TokensWord(w[1..], rest);
      var tokens := [w[1..]] + Tokens(rest);
      assert tokens[1..] == Tokens(rest);
      assert [w[0]] + w[1..] == w;
    } else {
      assert w[1..] + rest == rest;
      assert [w[0]] == w;
      if rest != "" { assert (w + rest)[1] == rest[0]; }
    }
  }

  /** Letters and digits in a row are one word. */
  lemma OneWord(w: string)
    requires w != "" && forall i :: 0 <= i < |w| ==> 'a' <= w[i] <= 'z' || '0' <= w[i] <= '9'
    ensures Tokens(w) == [w]
  {
    TokensWord(w, "");
    ConcatEmpty(w);
  }

  lemma {:induction false} JoinConcat(a: seq<string>, b: seq<string>)
    requires a != [] && b != []
    ensures Join(a + b, " ") == Join(a, " ") + (" " + Join(b, " "))
  {
    ConcatHead(a, b);
    if |a| == 1 {
      ConcatEmpty(b);
      ConcatAssociates(a[0], " ", Join(b, " "));
    } else {
      JoinConcat(a[1..], b);
      ConcatAssociates(a[0] + " ", Join(a[1..], " "), " " + Join(b, " "));
    }
  }

  lemma JoinThree(a: string, b: string, c: string)
    ensures Join([a], " ") == a
    ensures Join([a, b], " ") == a + " " + b
    ensures Join([a, b, c], " ") == a + " " + (b + " " + c)
  {
    assert [a, b][1..] == [b] && [a, b, c][1..] == [b, c] && [b, c][1..] == [c];
    assert Join([b, c], " ") == b + " " + c;
  }

  /** Joined words can be told apart again. */
  lemma {:induction false} TokensOfJoin(words: seq<string>)
    requires AllWords(words)
    ensures Tokens(Join(words, " ")) == words
  {
    if words != [] {
      assert IsWord(words[0]);
      if |words| == 1 {
        TokensWord(words[0], "");
        assert words[0] + "" == words[0];
      } else {
        var rest := Join(words[1..], " ");
        assert words[0] + " " + rest == words[0] + (" " + rest);
        TokensWord(words[0], " " + rest);
        assert (" " + rest)[1..] == rest;
        TokensOfJoin(words[1..]);
        assert words == [words[0]] + words[1..];
      }
    }
  }

  /** A text normalises to joined words exactly when those are its words. */
  lemma NormalizesTo(text: string, words: seq<string>)
    requires AllWords(words)
    ensures Normalize(text) == Join(words, " ") <==> Words(text) == words
  {
    NormalizeJoinsWords(text);
    TokensOfJoin(words);
    TokensOfJoin(Words(text));
  }

  lemma {:induction false} FoldJoin(words: seq<string>)
    requires AllWords(words)
    ensures Fold(Join(words, " ")) == Join(words, " ")
  {
    JoinIsPlain(words);
    LowerNothing(Join(words, " "));
    DropNothing(Join(words, " "));
  }

  /** Normalisation is idempotent, and keeps the words. */
  lemma NormalizeIdempotent(s: string)
    ensures Normalize(Normalize(s)) == Normalize(s) && Words(Normalize(s)) == Words(s)
  {
    NormalizeJoinsWords(s);
    FoldJoin(Words(s));
    TokensOfJoin(Words(s));
    NormalizeJoinsWords(Normalize(s));
  }

  // ---------------------------------------------------------------- padded search

  predicate OccursAt(text: string, part: string, p: int) {
    0 <= p && p + |part| <= |text| && text[p..p + |part|] == part
  }

  predicate Includes(text: string, part: string) {
    exists p :: 0 <= p <= |text| && OccursAt(text, part, p)
  }

  predicate RunAt(words: seq<string>, run: seq<string>, k: int) {
    0 <= k && k + |run| <= |words| && words[k..k + |run|] == run
  }

  /** A contiguous run of words. */
  ghost predicate HasRun(words: seq<string>, run: seq<string>) {
    exists k: int :: RunAt(words, run, k)
  }

  function Padded(s: string): string {
    " " + s + " "
  }

  function Pad(words: seq<string>): string {
    if words == [] then " " else " " + (words[0] + Pad(words[1..]))
  }

  lemma {:induction false} PadJoin(words: seq<string>)
    requires words != []
    ensures Padded(Join(words, " ")) == Pad(words)
  {
    if |words| == 1 {
      assert Pad(words[1..]) == " ";
    } else {
      PadJoin(words[1..]);
      var rest := Join(words[1..], " ");
      assert Padded(words[0] + " " + rest) == " " + (words[0] + (" " + rest + " "));
    }
  }

  lemma ConsPrefix(a: string, b: string)
    requires a != "" && b != ""
    ensures a <= b <==> a[0] == b[0] && a[1..] <= b[1..]
  {
    assert a == [a[0]] + a[1..] && b == [b[0]] + b[1..];
  }

  /** A word followed by a space is read off the front of a text in one way only. */
  lemma {:induction false} WordPrefix(v: string, r: string, w: string, q: string)
    requires (forall i :: 0 <= i < |v| ==> IsWordChar(v[i])) && (forall i :: 0 <= i < |w| ==> IsWordChar(w[i]))
    requires r != "" && r[0] == ' ' && q != "" && q[0] == ' '
    ensures v + r <= w + q <==> v == w && r <= q
  {
    ConsPrefix(v + r, w + q);
    if v != "" && w != "" {
      assert (v + r)[1..] == v[1..] + r && (w + q)[1..] == w[1..] + q;
      WordPrefix(v[1..], r, w[1..], q);
      assert v == [v[0]] + v[1..] && w == [w[0]] + w[1..];
    } else if v == "" && w == "" {
      assert v + r == r && w + q == q;
    } else if v == "" {
      assert (v + r)[0] == ' ' && (w + q)[0] == w[0];
    } else {
      assert (v + r)[0] == v[0] && (w + q)[0] == ' ';
    }
  }

  lemma {:induction false} PadPrefix(run: seq<string>, words: seq<string>)
    requires AllWords(run) && AllWords(words)
    ensures Pad(run) <= Pad(words) <==> run <= words
  {
    if run != [] && words != [] {
      assert IsWord(run[0]) && IsWord(words[0]);
      PadPrefix(run[1..], words[1..]);
      WordPrefix(run[0], Pad(run[1..]), words[0], Pad(words[1..]));
      var a, b := run[0] + Pad(run[1..]), words[0] + Pad(words[1..]);
      ConsPrefix(" " + a, " " + b);
      assert (" " + a)[1..] == a && (" " + b)[1..] == b;
      assert run == [run[0]] + run[1..] && words == [words[0]] + words[1..];
    }
  }

  /** Every space in padded words is the start of the padding of a suffix of the words. */
  lemma {:induction false} SpaceStartsSuffix(words: seq<string>, p: nat) returns (k: nat)
    requires AllWords(words) && p < |Pad(words)| && Pad(words)[p] == ' '
    ensures k <= |words| && Pad(words)[p..] == Pad(words[k..])
  {
    if p == 0 {
      k := 0;
    } else {
      assert IsWord(words[0]);
      var w := words[0];
      assert Pad(words) == (" " + w) + Pad(words[1..]);
      assert forall i :: 1 <= i < 1 + |w| ==> Pad(words)[i] == w[i - 1];
      var j := SpaceStartsSuffix(words[1..], p - 1 - |w|);
      k := j + 1;
      assert words[1..][j..] == words[k..];
    }
  }

  lemma {:induction false} SuffixOffset(words: seq<string>, k: nat) returns (p: nat)
    requires k <= |words|
    ensures p <= |Pad(words)| && Pad(words)[p..] == Pad(words[k..])
  {
    if k == 0 {
      p := 0;
    } else {
      var q := SuffixOffset(words[1..], k - 1);
      p := q + 1 + |words[0]|;
      assert Pad(words) == (" " + words[0]) + Pad(words[1..]);
      assert words[1..][k - 1..] == words[k..];
    }
  }

  lemma SliceIsPrefix<T>(s: seq<T>, p: nat, n: nat)
    requires p + n <= |s|
    ensures s[p..][..n] == s[p..p + n]
  {
  }

  lemma OccursIsPrefix(text: string, part: string, p: nat)
    requires p <= |text|
    ensures OccursAt(text, part, p) <==> part <= text[p..]
  {
    if p + |part| <= |text| { SliceIsPrefix(text, p, |part|); }
  }

  lemma PrefixIsSlice(words: seq<string>, run: seq<string>, k: nat)
    requires k <= |words|
    ensures RunAt(words, run, k) <==> run <= words[k..]
  {
    if k + |run| <= |words| { SliceIsPrefix(words, k, |run|); }
  }

  lemma RunFromOccurrence(words: seq<string>, run: seq<string>, p: nat)
    requires AllWords(words) && AllWords(run) && OccursAt(Pad(words), Pad(run), p)
    ensures HasRun(words, run)
  {
    OccursIsPrefix(Pad(words), Pad(run), p);
    assert Pad(words)[p..][0] == Pad(run)[0] == ' ';
    var k := SpaceStartsSuffix(words, p);
    PadPrefix(run, words[k..]);
    PrefixIsSlice(words, run, k);
  }

  lemma OccurrenceFromRun(words: seq<string>, run: seq<string>, k: nat)
    requires AllWords(words) && AllWords(run) && RunAt(words, run, k)
    ensures Includes(Pad(words), Pad(run))
  {
    var p := SuffixOffset(words, k);
    PrefixIsSlice(words, run, k);
    PadPrefix(run, words[k..]);
    OccursIsPrefix(Pad(words), Pad(run), p);
  }

  /** Padded substring search on joined words finds exactly the contiguous word runs. */
  lemma PaddedSearchFindsRuns(words: seq<string>, run: seq<string>)
    requires AllWords(words) && AllWords(run) && run != []
    ensures Includes(Padded(Join(words, " ")), Padded(Join(run, " "))) <==> HasRun(words, run)
  {
    PadJoin(run);
    if words == [] {
      assert IsWord(run[0]);
    } else {
      PadJoin(words);
      if Includes(Pad(words), Pad(run)) {
        var p :| 0 <= p <= |Pad(words)| && OccursAt(Pad(words), Pad(run), p);
        RunFromOccurrence(words, run, p);
      }
      if HasRun(words, run) {
        var k: int :| RunAt(words, run, k);
        OccurrenceFromRun(words, run, k);
      }
    }
  }

  /** The same, for any two raw texts: the term must have at least one word. */
  lemma SearchIsWordSearch(text: string, term: string)
    requires Normalize(term) != ""
    ensures Includes(Padded(Normalize(text)), Padded(Normalize(term))) <==> HasRun(Words(text), Words(term))
  {
    NormalizeJoinsWords(text);
    NormalizeJoinsWords(term);
    PaddedSearchFindsRuns(Words(text), Words(term));
  }
}
