/**
 * Storage keys of the seller docks: one row per seller and board. A seller id is the byte string of
 * its UTF-8 encoding, already trimmed; the empty one stands for no seller.
 */
module DockKeys {
  import opened Prelude

  const PREFIX := "sidestage.dock"

  predicate Bytes(s: string) {
    forall i :: 0 <= i < |s| ==> s[i] as int < 256
  }

  predicate Unreserved(c: char) {
    'a' <= c <= 'z' || 'A' <= c <= 'Z' || '0' <= c <= '9'
    || c == '-' || c == '_' || c == '.' || c == '!' || c == '~' || c == '*' || c == '\'' || c == '(' || c == ')'
  }

  function HexDigit(d: nat): char
    requires d < 16
  {
    if d < 10 then '0' + d as char else 'A' + (d - 10) as char
  }

  function EncodeByte(c: char): string
    requires c as int < 256
  {
    if Unreserved(c) then [c] else ['%', HexDigit(c as int / 16), HexDigit(c as int % 16)]
  }

  /** Percent encoding: no colon survives it. */
  function Encode(s: string): string
    requires Bytes(s)
  {
    if s == "" then "" else EncodeByte(s[0]) + Encode(s[1..])
  }

  function StoragePrefix(seller: string): string
    requires Bytes(seller)
  {
    if seller == "" then PREFIX else PREFIX + ":" + Encode(seller)
  }

  function StorageKey(layoutName: string, prefix: string): string {
    prefix + ":" + layoutName
  }

  lemma HexDigitInjective(a: nat, b: nat)
    requires a < 16 && b < 16 && HexDigit(a) == HexDigit(b)
    ensures a == b
  {
  }

  lemma EncodeByteSplits(c: char, r: string, d: char, q: string)
    requires c as int < 256 && d as int < 256 && EncodeByte(c) + r == EncodeByte(d) + q
    ensures c == d && r == q
  {
    var whole := EncodeByte(c) + r;
    assert whole[0] == EncodeByte(c)[0] == EncodeByte(d)[0];
    if whole[0] == '%' {
      assert whole[1] == HexDigit(c as int / 16) == HexDigit(d as int / 16);
      assert whole[2] == HexDigit(c as int % 16) == HexDigit(d as int % 16);
      HexDigitInjective(c as int / 16, d as int / 16);
      HexDigitInjective(c as int % 16, d as int % 16);
      assert c as int == d as int;
    }
    assert r == whole[|EncodeByte(c)|..] && q == whole[|EncodeByte(d)|..];
  }

  lemma StartsWithoutColon(c: char, rest: string)
    requires c as int < 256
    ensures EncodeByte(c) + rest != "" && (EncodeByte(c) + rest)[0] != ':'
  {
    assert (EncodeByte(c) + rest)[0] == EncodeByte(c)[0];
  }

  lemma Peel(a: string, r: string)
    requires Bytes(a)
    ensures Encode(a) + r == if a == "" then r else EncodeByte(a[0]) + (Encode(a[1..]) + r)
  {
    if a != "" { ConcatAssociates(EncodeByte(a[0]), Encode(a[1..]), r); }
  }

  /** Which characters stand for themselves. */
  lemma PlainCharacters(c: char)
    requires c as int < 256
    ensures Encode([c]) == [c] <==>
      'a' <= c <= 'z' || 'A' <= c <= 'Z' || '0' <= c <= '9' || c in "-_.!~*'()"
  {
    assert [c][1..] == "";
    assert Encode([c]) == EncodeByte(c) + "";
    ConcatEmpty(EncodeByte(c));
  }

  ghost function HexValue(c: char): (d: nat)
    ensures d < 16
  {
    if '0' <= c <= '9' then (c - '0') as nat else if 'A' <= c <= 'F' then 10 + (c - 'A') as nat else 0
  }

  /** Percent decoding. */
  ghost function Decode(s: string): string {
    if s == "" then ""
    else if s[0] == '%' && |s| >= 3
    then [(16 * HexValue(s[1]) + HexValue(s[2])) as char] + Decode(s[3..])
    else [s[0]] + Decode(s[1..])
  }

  lemma DecodeByte(c: char, rest: string)
    requires c as int < 256
    ensures Decode(EncodeByte(c) + rest) == [c] + Decode(rest)
  {
    var whole := EncodeByte(c) + rest;
    if Unreserved(c) {
      assert whole[0] == c && whole[1..] == rest;
    } else {
      var high, low := c as int / 16, c as int % 16;
      assert whole[0] == '%' && whole[1] == HexDigit(high) && whole[2] == HexDigit(low) && whole[3..] == rest;
      assert HexValue(HexDigit(high)) == high && HexValue(HexDigit(low)) == low;
      assert 16 * high + low == c as int;
    }
  }

  /** Percent encoding can be undone, and leaves letters, digits and the unreserved marks as they are. */
  lemma {:induction false} DecodeEncode(s: string)
    requires Bytes(s)
    ensures Decode(Encode(s)) == s
  {
    if s != "" {
      DecodeByte(s[0], Encode(s[1..]));
      DecodeEncode(s[1..]);
      HeadAndTail(s);
    }
  }

  /** An encoded seller ends at the first colon. */
  lemma {:induction false} EncodeSplits(a: string, r: string, b: string, q: string)
    requires Bytes(a) && Bytes(b) && r != "" && r[0] == ':' && q != "" && q[0] == ':'
    requires Encode(a) + r == Encode(b) + q
    ensures a == b && r == q
  {
    Peel(a, r);
    Peel(b, q);
    if a != "" && b != "" {
      EncodeByteSplits(a[0], Encode(a[1..]) + r, b[0], Encode(b[1..]) + q);
      EncodeSplits(a[1..], r, b[1..], q);
      assert a == [a[0]] + a[1..] && b == [b[0]] + b[1..];
    } else if a != "" {
      StartsWithoutColon(a[0], Encode(a[1..]) + r);
    } else if b != "" {
      StartsWithoutColon(b[0], Encode(b[1..]) + q);
    }
  }

  /** The key of a named seller's board, read from the left. */
  lemma KeyText(seller: string, name: string)
    requires Bytes(seller) && seller != ""
    ensures StorageKey(name, StoragePrefix(seller)) == (PREFIX + ":") + (Encode(seller) + (":" + name))
  {
    var head := PREFIX + ":";
    ConcatAssociates(head + Encode(seller), ":", name);
    ConcatAssociates(head, Encode(seller), ":" + name);
  }

  /** Two named sellers share a row exactly when they are the same seller on the same board, whatever its name. */
  lemma SellersAreIsolated(s: string, n: string, t: string, m: string)
    requires Bytes(s) && Bytes(t) && s != "" && t != ""
    ensures StorageKey(n, StoragePrefix(s)) == StorageKey(m, StoragePrefix(t)) <==> s == t && n == m
  {
    KeyText(s, n);
    KeyText(t, m);
    if StorageKey(n, StoragePrefix(s)) == StorageKey(m, StoragePrefix(t)) {
      CancelPrefix(PREFIX + ":", Encode(s) + (":" + n), Encode(t) + (":" + m));
      EncodeSplits(s, ":" + n, t, ":" + m);
      CancelPrefix(":", n, m);
    }
  }

  /** Without a seller the shared row is met by a named seller exactly when its board name spells that seller's key. */
  lemma SharedRowMeets(n: string, t: string, m: string)
    requires Bytes(t) && t != ""
    ensures StorageKey(n, StoragePrefix("")) == StorageKey(m, StoragePrefix(t)) <==> n == Encode(t) + (":" + m)
  {
    KeyText(t, m);
    if StorageKey(n, StoragePrefix("")) == StorageKey(m, StoragePrefix(t)) {
      CancelPrefix(PREFIX + ":", n, Encode(t) + (":" + m));
    }
  }

  /** So a board whose name holds no colon never shares the row of a named seller. */
  lemma PlainNamesNeverMeet(n: string, t: string, m: string)
    requires Bytes(t) && t != "" && ':' !in n
    ensures StorageKey(n, StoragePrefix("")) != StorageKey(m, StoragePrefix(t))
  {
    SharedRowMeets(n, t, m);
    assert (Encode(t) + (":" + m))[|Encode(t)|] == ':';
  }

  lemma SharedKeyReads()
    ensures StorageKey("seller-active-event", StoragePrefix("")) == "sidestage.dock:seller-active-event"
  {
  }

  const BOARD_NAMES := {"seller-active-event", "seller-event-manager"}

  lemma OwnBoardsNeverMeet(n: string, t: string, m: string)
    requires Bytes(t) && t != "" && n in BOARD_NAMES
    ensures StorageKey(n, StoragePrefix("")) != StorageKey(m, StoragePrefix(t))
  {
    PlainNamesNeverMeet(n, t, m);
  }
}
