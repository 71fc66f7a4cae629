/** Vocabulary shared by every model: optional values and lists without repeats. */
module Prelude {

  datatype Option<T> = None | Some(value: T) {

    /** The source's `??`: this value when present, the fallback otherwise. */
    function Or(fallback: Option<T>): Option<T> {
      if Some? then this else fallback
    }

    function GetOr(fallback: T): T {
      if Some? then value else fallback
    }
  }

  ghost predicate Distinct<T>(s: seq<T>) {
    forall i, j :: 0 <= i < j < |s| ==> s[i] != s[j]
  }

  function DigitChar(d: nat): char
    requires d < 10
  {
    '0' + d as char
  }

  /** Decimal text of a number. */
  function Digits(n: nat): string {
    if n < 10 then [DigitChar(n)] else Digits(n / 10) + [DigitChar(n % 10)]
  }

  function Join(parts: seq<string>, sep: string): string {
    if parts == [] then "" else if |parts| == 1 then parts[0] else parts[0] + sep + Join(parts[1..], sep)
  }

  function Power2(n: nat): nat {
    if n == 0 then 1 else 2 * Power2(n - 1)
  }

  function Min(x: int, y: int): int {
    if x < y then x else y
  }

  function Max(x: int, y: int): int {
    if x < y then y else x
  }

  lemma ConcatAssociates<T>(a: seq<T>, b: seq<T>, c: seq<T>)
    ensures a + b + c == a + (b + c)
  {
  }

  lemma CancelPrefix<T>(head: seq<T>, a: seq<T>, b: seq<T>)
    requires head + a == head + b
    ensures a == b
  {
    assert a == (head + a)[|head|..] && b == (head + b)[|head|..];
  }

  lemma ConcatEmpty<T>(a: seq<T>)
    ensures a + [] == a && [] + a == a
  {
  }

  lemma HeadAndTail<T>(a: seq<T>)
    requires a != []
    ensures a == [a[0]] + a[1..]
  {
  }

  lemma ConsTail<T>(x: T, xs: seq<T>)
    ensures ([x] + xs)[0] == x && ([x] + xs)[1..] == xs
  {
  }

  lemma TakeNext<T>(s: seq<T>, i: nat)
    requires i < |s|
    ensures s[..i + 1] == s[..i] + [s[i]] && s[..|s|] == s
  {
  }

  lemma SnocInit<T>(xs: seq<T>, x: T)
    ensures (xs + [x])[|xs|] == x && (xs + [x])[..|xs|] == xs
  {
  }

  lemma ConcatHead<T>(xs: seq<T>, ys: seq<T>)
    requires xs != []
    ensures (xs + ys)[0] == xs[0] && (xs + ys)[1..] == xs[1..] + ys
  {
  }
}
