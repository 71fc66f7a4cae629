/**
 * Escaped signature text: backslash, bar and equals sign escaped inside parts, so that
 * joined `slug=value` segments can be read back in one way only.
 */
module SignatureText {
  import opened Prelude

  function ReplaceAll(s: string, c: char, rep: string): string {
    if s == "" then "" else (if s[0] == c then rep else [s[0]]) + ReplaceAll(s[1..], c, rep)
  }

  /** Three passes, as the source writes them. */
  function EscapePart(s: string): string {
    ReplaceAll(ReplaceAll(ReplaceAll(s, '\\', "\\\\"), '|', "\\|"), '=', "\\=")
  }

  function EscapeChar(c: char): string {
    if c == '\\' || c == '|' || c == '=' then ['\\', c] else [c]
  }

  function EscapeOnce(s: string): string {
    if s == "" then "" else EscapeChar(s[0]) + EscapeOnce(s[1..])
  }

  function Unescape(s: string): string {
    if s == "" then ""
    else if s[0] == '\\' && |s| > 1 then [s[1]] + Unescape(s[2..])
    else [s[0]] + Unescape(s[1..])
  }

  lemma {:induction false} ReplaceAllConcat(s: string, t: string, c: char, rep: string)
    ensures ReplaceAll(s + t, c, rep) == ReplaceAll(s, c, rep) + ReplaceAll(t, c, rep)
  {
    if s == "" {
      assert s + t == t;
    } else {
      assert (s + t)[0] == s[0] && (s + t)[1..] == s[1..] + t;
      ReplaceAllConcat(s[1..], t, c, rep);
    }
  }

  lemma ReplaceOne(c: char, d: char, rep: string)
    ensures ReplaceAll([c], d, rep) == if c == d then rep else [c]
  {
    assert [c][1..] == "";
  }

  lemma ReplaceTwo(b: char, c: char, d: char, rep: string)
    ensures ReplaceAll([b, c], d, rep) == (if b == d then rep else [b]) + (if c == d then rep else [c])
  {
    ReplaceAllConcat([b], [c], d, rep);
    assert [b] + [c] == [b, c];
    ReplaceOne(b, d, rep);
    ReplaceOne(c, d, rep);
  }

  /** The order of the passes is right: no pass touches what an earlier one inserted. */
  lemma {:induction false} EscapeIsOnePass(s: string)
    ensures EscapePart(s) == EscapeOnce(s)
  {
    if s != "" {
      var one := ReplaceAll([s[0]], '\\', "\\\\");
      var two := ReplaceAll(one, '|', "\\|");
      assert s == [s[0]] + s[1..];
      ReplaceAllConcat([s[0]], s[1..], '\\', "\\\\");
      ReplaceAllConcat(one, ReplaceAll(s[1..], '\\', "\\\\"), '|', "\\|");
      ReplaceAllConcat(two, ReplaceAll(ReplaceAll(s[1..], '\\', "\\\\"), '|', "\\|"), '=', "\\=");
      ReplaceOne(s[0], '\\', "\\\\");
      ReplaceOne(s[0], '|', "\\|");
      ReplaceOne(s[0], '=', "\\=");
      ReplaceTwo('\\', '\\', '|', "\\|");
      ReplaceTwo('\\', '\\', '=', "\\=");
      ReplaceTwo('\\', '|', '=', "\\=");
      assert ReplaceAll(two, '=', "\\=") == EscapeChar(s[0]);
      EscapeIsOnePass(s[1..]);
    }
  }

  lemma UnescapeChar(c: char, rest: string)
    ensures Unescape(EscapeChar(c) + rest) == [c] + Unescape(rest)
  {
    var whole := EscapeChar(c) + rest;
    if |EscapeChar(c)| == 2 {
      assert whole[0] == '\\' && whole[1] == c && whole[2..] == rest;
    } else {
      assert whole[0] == c && whole[1..] == rest;
    }
  }

  lemma {:induction false} UnescapeEscape(s: string)
    ensures Unescape(EscapePart(s)) == s
  {
    EscapeIsOnePass(s);
    if s != "" {
      EscapeIsOnePass(s[1..]);
      UnescapeEscape(s[1..]);
      UnescapeChar(s[0], EscapeOnce(s[1..]));
      assert s == [s[0]] + s[1..];
    }
  }

  /** Text that starts with an unescaped separator, or is over. */
  predicate AtSeparator(r: string) {
    r == "" || r[0] == '|' || r[0] == '='
  }

  lemma EscapeCharSplits(c: char, s: string, d: char, t: string)
    requires EscapeChar(c) + s == EscapeChar(d) + t
    ensures c == d && s == t
  {
    var whole := EscapeChar(c) + s;
    assert whole[0] == EscapeChar(c)[0] == EscapeChar(d)[0];
    if whole[0] == '\\' {
      assert whole[1] == c && whole[1] == d;
    }
    assert s == whole[|EscapeChar(c)|..] && t == whole[|EscapeChar(d)|..];
  }

  lemma EscapedIsNotSeparator(c: char, s: string)
    ensures !AtSeparator(EscapeChar(c) + s)
  {
  }

  lemma Peel(a: string, r: string)
    ensures EscapeOnce(a) + r == if a == "" then r else EscapeChar(a[0]) + (EscapeOnce(a[1..]) + r)
  {
  }

  /** An escaped part ends at the first unescaped separator, wherever it is put. */
  lemma {:induction false} EscapeSplits(a: string, r: string, b: string, q: string)
    requires AtSeparator(r) && AtSeparator(q)
    requires EscapeOnce(a) + r == EscapeOnce(b) + q
    ensures a == b && r == q
  {
    Peel(a, r);
    Peel(b, q);
    if a == "" {
      if b != "" { EscapedIsNotSeparator(b[0], EscapeOnce(b[1..]) + q); }
    } else if b == "" {
      EscapedIsNotSeparator(a[0], EscapeOnce(a[1..]) + r);
    } else {
      EscapeCharSplits(a[0], EscapeOnce(a[1..]) + r, b[0], EscapeOnce(b[1..]) + q);
      EscapeSplits(a[1..], r, b[1..], q);
      assert a == [a[0]] + a[1..] && b == [b[0]] + b[1..];
    }
  }

  // ---------------------------------------------------------------- joined segments

  function Segment(pair: (string, string)): string {
    EscapePart(pair.0) + "=" + EscapePart(pair.1)
  }

  function Segments(pairs: seq<(string, string)>): seq<string> {
    seq(|pairs|, i requires 0 <= i < |pairs| => Segment(pairs[i]))
  }

  function Tail(pairs: seq<(string, string)>): string {
    if pairs == [] then "" else "|" + Join(Segments(pairs), "|")
  }

  lemma JoinAssociates(a: string, b: string, c: string, d: string)
    ensures a + b + c + d == a + (b + (c + d))
  {
  }

  lemma JoinHead(pairs: seq<(string, string)>)
    requires pairs != []
    ensures Join(Segments(pairs), "|")
         == EscapeOnce(pairs[0].0) + ("=" + (EscapeOnce(pairs[0].1) + Tail(pairs[1..])))
  {
    EscapeIsOnePass(pairs[0].0);
    EscapeIsOnePass(pairs[0].1);
    var parts := Segments(pairs);
    assert parts[1..] == Segments(pairs[1..]);
    assert Join(parts, "|") == parts[0] + Tail(pairs[1..]);
    JoinAssociates(EscapeOnce(pairs[0].0), "=", EscapeOnce(pairs[0].1), Tail(pairs[1..]));
  }

  lemma HeadDecodes(ps: seq<(string, string)>, qs: seq<(string, string)>)
    requires ps != [] && qs != []
    requires Join(Segments(ps), "|") == Join(Segments(qs), "|")
    ensures ps[0] == qs[0] && Tail(ps[1..]) == Tail(qs[1..])
  {
    JoinHead(ps);
    JoinHead(qs);
    var r, q := EscapeOnce(ps[0].1) + Tail(ps[1..]), EscapeOnce(qs[0].1) + Tail(qs[1..]);
    EscapeSplits(ps[0].0, "=" + r, qs[0].0, "=" + q);
    assert r == ("=" + r)[1..] && q == ("=" + q)[1..];
    EscapeSplits(ps[0].1, Tail(ps[1..]), qs[0].1, Tail(qs[1..]));
  }

  lemma {:induction false} JoinSnoc(parts: seq<string>, last: string)
    requires parts != []
    ensures Join(parts + [last], "|") == Join(parts, "|") + ("|" + last)
  {
    ConcatHead(parts, [last]);
    if |parts| == 1 {
      ConcatEmpty([last]);
      ConcatAssociates(parts[0], "|", last);
    } else {
      JoinSnoc(parts[1..], last);
      ConcatAssociates(parts[0] + "|", Join(parts[1..], "|"), "|" + last);
    }
  }

  /** One more pair adds a bar, its escaped name, an equals sign and its escaped value. */
  lemma {:induction false} JoinSpells(pairs: seq<(string, string)>, pair: (string, string))
    ensures Join(Segments([pair]), "|") == EscapeOnce(pair.0) + "=" + EscapeOnce(pair.1)
    ensures pairs != [] ==>
      Join(Segments(pairs + [pair]), "|")
        == Join(Segments(pairs), "|") + ("|" + (EscapeOnce(pair.0) + "=" + EscapeOnce(pair.1)))
  {
    EscapeIsOnePass(pair.0);
    EscapeIsOnePass(pair.1);
    if pairs != [] { JoinSnoc(Segments(pairs), Segment(pair)); }
    assert Segments(pairs + [pair]) == Segments(pairs) + [Segment(pair)];
  }

  lemma {:induction false} EscapeSnoc(s: string, c: char)
    ensures EscapeOnce(s + [c]) == EscapeOnce(s) + EscapeChar(c)
  {
    if s == "" {
      ConcatEmpty([c]);
      assert [c][1..] == [];
      ConcatEmpty(EscapeChar(c));
    } else {
      ConcatHead(s, [c]);
      EscapeSnoc(s[1..], c);
      ConcatAssociates(EscapeChar(s[0]), EscapeOnce(s[1..]), EscapeChar(c));
    }
  }

  /** What is escaped, and how. */
  lemma {:induction false} EscapesChar(s: string, c: char)
    ensures EscapePart("") == ""
    ensures EscapePart(s + [c])
         == EscapePart(s) + if c == '\\' then "\\\\" else if c == '|' then "\\|" else if c == '=' then "\\=" else [c]
  {
    EscapeIsOnePass(s);
    EscapeIsOnePass(s + [c]);
    EscapeSnoc(s, c);
  }

  lemma TailDecodes(ps: seq<(string, string)>, qs: seq<(string, string)>)
    requires Tail(ps) == Tail(qs)
    ensures ps == [] <==> qs == []
    ensures Join(Segments(ps), "|") == Join(Segments(qs), "|")
  {
    if ps != [] && qs != [] {
      assert Tail(ps)[1..] == Join(Segments(ps), "|") && Tail(qs)[1..] == Join(Segments(qs), "|");
    }
  }

  /** Joined segments are uniquely decodable. */
  lemma {:induction false} JoinDecodes(ps: seq<(string, string)>, qs: seq<(string, string)>)
    requires ps != [] && qs != []
    requires Join(Segments(ps), "|") == Join(Segments(qs), "|")
    ensures ps == qs
    decreases |ps|
  {
    HeadDecodes(ps, qs);
    TailDecodes(ps[1..], qs[1..]);
    if ps[1..] != [] { JoinDecodes(ps[1..], qs[1..]); }
    assert ps == [ps[0]] + ps[1..] && qs == [qs[0]] + qs[1..];
  }

  /** A joined signature always shows an equals sign, so it is never empty and never `base`. */
  lemma JoinIsNotBase(pairs: seq<(string, string)>)
    requires pairs != []
    ensures Join(Segments(pairs), "|") != "" && Join(Segments(pairs), "|") != "base"
  {
    JoinHead(pairs);
    assert Join(Segments(pairs), "|")[|EscapeOnce(pairs[0].0)|] == '=';
  }
}
