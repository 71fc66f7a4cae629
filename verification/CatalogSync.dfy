/**
 * The catalog sync: keyset pages over a table sorted by (group key, id), a carry buffer for the
 * group still open at a page boundary, and fixed-size import batches.
 */
module CatalogSync {
  import opened Prelude

  datatype Image = Image(url: string, isPrimary: bool)

  datatype Row = Row(id: string, slug: string, groupKey: string, groupId: Option<string>,
                     priceCents: Option<int>, availableQty: Option<int>, condition: Option<string>, color: Option<string>,
                     title: Option<string>, description: Option<string>, brand: Option<string>,
                     productType: Option<string>, images: Option<seq<Image>>, tiers: Option<seq<Option<int>>>)

  datatype Doc = Doc(id: string, slug: string, name: string, description: string, brand: string, category: string,
                     imageUrl: string, groupId: Option<string>, priceCents: int, minPriceCents: int, maxPriceCents: int,
                     conditions: seq<string>, colors: Option<seq<string>>, qty: int, tiers: Option<seq<Option<int>>>)

  // ---------------------------------------------------------------- order and keyset queries

  predicate StrLess(a: string, b: string) {
    if b == "" then false
    else if a == "" then true
    else a[0] < b[0] || (a[0] == b[0] && StrLess(a[1..], b[1..]))
  }

  lemma {:induction false} StrLessAsymmetric(a: string, b: string)
    requires StrLess(a, b)
    ensures !StrLess(b, a)
  {
    if a != "" && a[0] == b[0] { StrLessAsymmetric(a[1..], b[1..]); }
  }

  lemma {:induction false} StrLessTransitive(a: string, b: string, c: string)
    requires StrLess(a, b) && StrLess(b, c)
    ensures StrLess(a, c)
  {
    if a != "" && a[0] == b[0] == c[0] { StrLessTransitive(a[1..], b[1..], c[1..]); }
  }

  /** Of two different texts one comes first. */
  lemma {:induction false} StrLessTotal(a: string, b: string)
    ensures a != b ==> StrLess(a, b) || StrLess(b, a)
  {
    if a != "" && b != "" {
      StrLessTotal(a[1..], b[1..]);
      HeadAndTail(a);
      HeadAndTail(b);
    }
  }

  /** The first difference decides, and a text comes before those it begins. */
  lemma {:induction false} StrLessDecides(p: string, c: char, x: string, d: char, y: string)
    ensures c < d ==> StrLess(p + ([c] + x), p + ([d] + y))
    ensures StrLess(p, p + ([d] + y))
  {
    if p == "" {
      ConcatEmpty([c] + x);
      ConcatEmpty([d] + y);
    } else {
      ConcatHead(p, [c] + x);
      ConcatHead(p, [d] + y);
      StrLessDecides(p[1..], c, x, d, y);
    }
  }

  /** The row comes after the cursor in (group key, id) order. */
  predicate AfterCursor(key: string, id: string, row: Row) {
    StrLess(key, row.groupKey) || (key == row.groupKey && StrLess(id, row.id))
  }

  ghost predicate SortedTable(table: seq<Row>) {
    && (forall i :: 0 <= i < |table| ==> table[i].groupKey != "")
    && (forall i, j :: 0 <= i < j < |table| ==> AfterCursor(table[i].groupKey, table[i].id, table[j]))
  }

  function RowsAfter(table: seq<Row>, key: string, id: string): seq<Row> {
    if table == [] then []
    else (if AfterCursor(key, id, table[0]) then [table[0]] else []) + RowsAfter(table[1..], key, id)
  }

  /** One page: at most `limit` rows after the cursor, in order. */
  function Query(table: seq<Row>, key: string, id: string, limit: nat): seq<Row> {
    var rows := RowsAfter(table, key, id);
    if |rows| <= limit then rows else rows[..limit]
  }

  lemma {:induction false} RowsAfterSplit(table: seq<Row>, n: nat, key: string, id: string)
    requires n <= |table|
    requires forall i :: 0 <= i < |table| ==> (AfterCursor(key, id, table[i]) <==> i >= n)
    ensures RowsAfter(table, key, id) == table[n..]
  {
    if table != [] {
      forall i | 0 <= i < |table[1..]| ensures AfterCursor(key, id, table[1..][i]) <==> i + 1 >= n {
        assert table[1..][i] == table[i + 1];
      }
      RowsAfterSplit(table[1..], if n == 0 then 0 else n - 1, key, id);
    }
  }

  /** The cursor names the last of the first `n` rows, or nothing yet. */
  ghost predicate AtCursor(table: seq<Row>, n: nat, key: string, id: string) {
    n <= |table| && if n == 0 then key == "" && id == "" else key == table[n - 1].groupKey && id == table[n - 1].id
  }

  lemma CursorMoves(table: seq<Row>, n: nat, rows: seq<Row>)
    requires rows != [] && n + |rows| <= |table| && rows == table[n..n + |rows|]
    ensures AtCursor(table, n + |rows|, rows[|rows| - 1].groupKey, rows[|rows| - 1].id)
  {
  }

  /** The query after the last row already read returns exactly the rows not yet read. */
  lemma QueryResumes(table: seq<Row>, n: nat, key: string, id: string, limit: nat)
    requires limit > 0 && SortedTable(table) && AtCursor(table, n, key, id)
    ensures var rows := Query(table, key, id, limit);
      n + |rows| <= |table| && rows == table[n..n + |rows|] && |rows| == Min(limit, |table| - n)
  {
    forall i | 0 <= i < |table| ensures AfterCursor(key, id, table[i]) <==> i >= n {
      if n > 0 && i < n {
        if AfterCursor(key, id, table[i]) {
          if StrLess(key, table[i].groupKey) { StrLessAsymmetric(key, table[i].groupKey); }
          if StrLess(id, table[i].id) { StrLessAsymmetric(id, table[i].id); }
        }
      }
    }
    RowsAfterSplit(table, n, key, id);
  }

  // ---------------------------------------------------------------- documents

  function Price(row: Row): int {
    row.priceCents.GetOr(0)
  }

  function MinPrice(rows: seq<Row>): int
    requires rows != []
  {
    if |rows| == 1 then Price(rows[0]) else Min(Price(rows[0]), MinPrice(rows[1..]))
  }

  function MaxPrice(rows: seq<Row>): int
    requires rows != []
  {
    if |rows| == 1 then Price(rows[0]) else Max(Price(rows[0]), MaxPrice(rows[1..]))
  }

  function Available(row: Row): int {
    if row.availableQty.GetOr(0) > 0 then row.availableQty.value else 0
  }

  function TotalAvailable(rows: seq<Row>): int {
    if rows == [] then 0 else Available(rows[0]) + TotalAvailable(rows[1..])
  }

  predicate IsSpace(c: char) {
    '\t' <= c <= '\r' || c == ' ' || c == '\U{A0}' || c == '\U{1680}' || '\U{2000}' <= c <= '\U{200A}'
    || c == '\U{2028}' || c == '\U{2029}' || c == '\U{202F}' || c == '\U{205F}' || c == '\U{3000}' || c == '\U{FEFF}'
  }

  /** The blanks of the language, by code point. */
  lemma BlanksAre(c: char)
    ensures IsSpace(c) <==>
      c as int in {9, 10, 11, 12, 13, 32, 160, 5760, 8232, 8233, 8239, 8287, 12288, 65279} || 8192 <= c as int <= 8202
  {
  }

  function Trim(s: string): string {
    if s == "" then ""
    else if IsSpace(s[0]) then Trim(s[1..])
    else if IsSpace(s[|s| - 1]) then Trim(s[..|s| - 1])
    else s
  }

  ghost predicate Blank(s: string) {
    forall i :: 0 <= i < |s| ==> IsSpace(s[i])
  }

  /** The text is the core with blanks on either side. */
  ghost predicate Frames(s: string, left: string, core: string, right: string) {
    s == left + core + right && Blank(left) && Blank(right)
  }

  lemma FrameLeft(c: char, s: string, left: string, core: string, right: string)
    requires IsSpace(c) && Frames(s, left, core, right)
    ensures Frames([c] + s, [c] + left, core, right)
  {
    ConcatAssociates([c], left, core);
    ConcatAssociates([c], left + core, right);
  }

  lemma FrameRight(s: string, c: char, left: string, core: string, right: string)
    requires IsSpace(c) && Frames(s, left, core, right)
    ensures Frames(s + [c], left, core, right + [c])
  {
    ConcatAssociates(left + core, right, [c]);
  }

  /** Trimming leaves no blank at either end. */
  lemma {:induction false} TrimIsTight(s: string)
    ensures Trim(s) != "" ==> !IsSpace(Trim(s)[0]) && !IsSpace(Trim(s)[|Trim(s)| - 1])
    decreases |s|
  {
    if s != "" && IsSpace(s[0]) {
      TrimIsTight(s[1..]);
    } else if s != "" && IsSpace(s[|s| - 1]) {
      TrimIsTight(s[..|s| - 1]);
    }
  }

  lemma TrimSteps(s: string)
    requires s != ""
    ensures IsSpace(s[0]) ==> Trim(s) == Trim(s[1..])
    ensures !IsSpace(s[0]) && IsSpace(s[|s| - 1]) ==> Trim(s) == Trim(s[..|s| - 1])
    ensures !IsSpace(s[0]) && !IsSpace(s[|s| - 1]) ==> Trim(s) == s
  {
  }

  ghost predicate Framed(s: string, core: string) {
    exists left, right :: Frames(s, left, core, right)
  }

  lemma FramedLeft(c: char, s: string, core: string)
    requires IsSpace(c) && Framed(s, core)
    ensures Framed([c] + s, core)
  {
    var left, right :| Frames(s, left, core, right);
    FrameLeft(c, s, left, core, right);
  }

  lemma FramedRight(s: string, c: char, core: string)
    requires IsSpace(c) && Framed(s, core)
    ensures Framed(s + [c], core)
  {
    var left, right :| Frames(s, left, core, right);
    FrameRight(s, c, left, core, right);
  }

  lemma FramedBare(s: string)
    ensures Framed(s, s)
  {
    ConcatEmpty(s);
    assert Frames(s, "", s, "");
  }

  /** Trimming takes away blanks at the two ends and nothing else. */
  lemma {:induction false} TrimIs(s: string)
    ensures Framed(s, Trim(s))
    decreases |s|
  {
    if s == "" {
      assert Frames(s, "", Trim(s), "");
    } else {
      TrimSteps(s);
      if IsSpace(s[0]) {
        TrimIs(s[1..]);
        FramedLeft(s[0], s[1..], Trim(s[1..]));
        HeadAndTail(s);
      } else if IsSpace(s[|s| - 1]) {
        var init, last := s[..|s| - 1], s[|s| - 1];
        TrimIs(init);
        FramedRight(init, last, Trim(init));
        assert s == init + [last];
      } else {
        FramedBare(s);
      }
    }
  }

  function UpperChar(c: char): char {
    if 'a' <= c <= 'z' then c - 'a' + 'A' else c
  }

  function Upper(s: string): string {
    seq(|s|, i requires 0 <= i < |s| => UpperChar(s[i]))
  }

  /** Condition codes are shown in capitals. */
  function Code(row: Row): string {
    Upper(Trim(row.condition.GetOr("")))
  }

  /** Colour labels keep their casing. */
  function Label(row: Row): string {
    Trim(row.color.GetOr(""))
  }

  /** The distinct non-empty values of a facet, in order of first appearance. */
  function Facet(rows: seq<Row>, value: Row -> string): seq<string> {
    if rows == [] then []
    else
      var init := Facet(rows[..|rows| - 1], value);
      var last := value(rows[|rows| - 1]);
      if last == "" || last in init then init else init + [last]
  }

  function FirstPrimary(images: seq<Image>): Option<string> {
    if images == [] then None else if images[0].isPrimary then Some(images[0].url) else FirstPrimary(images[1..])
  }

  function ImageUrl(images: seq<Image>): string {
    FirstPrimary(images).GetOr(if images == [] then "" else images[0].url)
  }

  const TIER_COLUMNS := 10

  function TierAt(row: Row, i: nat): Option<int> {
    if row.tiers.Some? && i < |row.tiers.value| then row.tiers.value[i] else None
  }

  ghost predicate Uniform(group: seq<Row>) {
    group != [] && forall i :: 0 <= i < |group| ==> group[i].groupKey == group[0].groupKey
  }

  function DocFrom(rows: seq<Row>): Doc
    requires rows != []
  {
    var first, colors := rows[0], Facet(rows, Label);
    var description := first.description.GetOr("");
    Doc(first.groupKey, first.slug, first.title.GetOr(""),
        if |description| > 2000 then description[..2000] else description,
        if first.brand == Some("Unknown") then "" else first.brand.GetOr(""),
        first.productType.GetOr(""), ImageUrl(first.images.GetOr([])), first.groupId,
        MinPrice(rows), MinPrice(rows), MaxPrice(rows),
        Facet(rows, Code), if colors == [] then None else Some(colors), TotalAvailable(rows),
        if TierAt(first, 0).None? then None else Some(seq(TIER_COLUMNS, i requires 0 <= i => TierAt(first, i))))
  }

  /** Quantities in stock, added up row by row: one that is absent or negative adds nothing. */
  ghost function Stock(rows: seq<Row>): int {
    if rows == [] then 0
    else
      var last := rows[|rows| - 1].availableQty;
      Stock(rows[..|rows| - 1]) + if last.Some? && last.value >= 0 then last.value else 0
  }

  lemma {:induction false} TotalConcat(xs: seq<Row>, ys: seq<Row>)
    ensures TotalAvailable(xs + ys) == TotalAvailable(xs) + TotalAvailable(ys)
  {
    if xs == [] {
      assert xs + ys == ys;
    } else {
      assert (xs + ys)[0] == xs[0] && (xs + ys)[1..] == xs[1..] + ys;
      TotalConcat(xs[1..], ys);
    }
  }

  lemma {:induction false} StockIsTotal(rows: seq<Row>)
    ensures Stock(rows) == TotalAvailable(rows)
  {
    if rows != [] {
      var init, last := rows[..|rows| - 1], rows[|rows| - 1];
      StockIsTotal(init);
      assert rows == init + [last];
      TotalConcat(init, [last]);
      assert [last][1..] == [];
    }
  }

  lemma {:induction false} PricesBound(rows: seq<Row>)
    requires rows != []
    ensures forall r :: r in rows ==> MinPrice(rows) <= Price(r) <= MaxPrice(rows)
    ensures exists r :: r in rows && Price(r) == MinPrice(rows)
    ensures exists r :: r in rows && Price(r) == MaxPrice(rows)
  {
    assert rows[0] in rows;
    if |rows| > 1 {
      PricesBound(rows[1..]);
      HeadAndTail(rows);
    }
  }

  ghost predicate HasValue(rows: seq<Row>, value: Row -> string, x: string) {
    exists r :: r in rows && value(r) == x
  }

  lemma HasValueSnoc(init: seq<Row>, last: Row, value: Row -> string, x: string)
    ensures HasValue(init + [last], value, x) <==> HasValue(init, value, x) || value(last) == x
  {
    assert last in init + [last];
    if HasValue(init, value, x) {
      var r :| r in init && value(r) == x;
      assert r in init + [last];
    }
  }

  lemma {:induction false} FacetLists(rows: seq<Row>, value: Row -> string)
    ensures Distinct(Facet(rows, value))
    ensures forall x :: x in Facet(rows, value) <==> x != "" && HasValue(rows, value, x)
  {
    if rows != [] {
      var init, last := rows[..|rows| - 1], rows[|rows| - 1];
      FacetLists(init, value);
      assert rows == init + [last];
      forall x ensures x in Facet(rows, value) <==> x != "" && HasValue(rows, value, x) {
        HasValueSnoc(init, last, value, x);
      }
    }
  }

  ghost predicate FirstPrimaryAt(images: seq<Image>, k: int) {
    0 <= k < |images| && images[k].isPrimary && forall i :: 0 <= i < k ==> !images[i].isPrimary
  }

  lemma {:induction false} FirstPrimaryIs(images: seq<Image>)
    ensures FirstPrimary(images).Some? <==> exists m :: m in images && m.isPrimary
    ensures FirstPrimary(images).Some? ==> exists k ::
      FirstPrimaryAt(images, k) && images[k].url == FirstPrimary(images).value
  {
    if images != [] && images[0].isPrimary {
      assert FirstPrimaryAt(images, 0);
    } else if images != [] {
      FirstPrimaryIs(images[1..]);
      HeadAndTail(images);
      if FirstPrimary(images).Some? {
        var k :| FirstPrimaryAt(images[1..], k) && images[1..][k].url == FirstPrimary(images).value;
        assert images[k + 1] == images[1..][k];
        forall i | 0 <= i < k + 1 ensures !images[i].isPrimary {
          if i > 0 { assert images[i] == images[1..][i - 1]; }
        }
        assert FirstPrimaryAt(images, k + 1);
      }
    }
  }

  /** The picture is the first primary one, else the first one, else none. */
  lemma PictureIs(images: seq<Image>)
    ensures forall k :: FirstPrimaryAt(images, k) ==> ImageUrl(images) == images[k].url
    ensures (forall m :: m in images ==> !m.isPrimary) ==>
      ImageUrl(images) == if images == [] then "" else images[0].url
  {
    FirstPrimaryIs(images);
    forall k | FirstPrimaryAt(images, k) ensures ImageUrl(images) == images[k].url {
      assert images[k] in images;
      var j :| FirstPrimaryAt(images, j) && images[j].url == FirstPrimary(images).value;
      assert j == k;
    }
  }

  /** A document is named after its group, and takes its texts from the group's first row. */
  lemma DocNames(rows: seq<Row>)
    requires Uniform(rows)
    ensures forall i :: 0 <= i < |rows| ==> rows[i].groupKey == DocFrom(rows).id
    ensures DocFrom(rows).slug == rows[0].slug && DocFrom(rows).groupId == rows[0].groupId
    ensures DocFrom(rows).name == if rows[0].title.Some? then rows[0].title.value else ""
    ensures DocFrom(rows).category == if rows[0].productType.Some? then rows[0].productType.value else ""
    ensures DocFrom(rows).imageUrl == ImageUrl(if rows[0].images.Some? then rows[0].images.value else [])
  {
  }

  /** An absent, empty or unknown brand is left blank. */
  lemma DocBrand(rows: seq<Row>)
    requires rows != []
    ensures DocFrom(rows).brand
         == if rows[0].brand.None? || rows[0].brand.value == "Unknown" then "" else rows[0].brand.value
  {
  }

  lemma DocDescription(rows: seq<Row>)
    requires rows != []
    ensures var text := if rows[0].description.Some? then rows[0].description.value else "";
      DocFrom(rows).description <= text && |DocFrom(rows).description| == Min(2000, |text|)
  {
  }

  ghost function Cents(row: Row): int {
    if row.priceCents.Some? then row.priceCents.value else 0
  }

  /** The price range is tight over the group, an absent price being nothing; the price is the lowest. */
  lemma DocPrices(rows: seq<Row>)
    requires rows != []
    ensures DocFrom(rows).priceCents == DocFrom(rows).minPriceCents
    ensures forall r :: r in rows ==> DocFrom(rows).minPriceCents <= Cents(r) <= DocFrom(rows).maxPriceCents
    ensures exists r :: r in rows && Cents(r) == DocFrom(rows).minPriceCents
    ensures exists r :: r in rows && Cents(r) == DocFrom(rows).maxPriceCents
  {
    PricesBound(rows);
    forall r: Row ensures Cents(r) == Price(r) {
    }
  }

  lemma CodeIs(row: Row)
    ensures row.condition.None? ==> Code(row) == ""
    ensures row.condition.Some? ==>
      && |Code(row)| == |Trim(row.condition.value)|
      && forall i :: 0 <= i < |Code(row)| ==>
           var c := Trim(row.condition.value)[i];
           Code(row)[i] as int == if 97 <= c as int <= 122 then c as int - 32 else c as int
    ensures Label(row) == if row.color.Some? then Trim(row.color.value) else ""
  {
  }

  lemma ColourlessFacet(rows: seq<Row>)
    ensures Facet(rows, Label) == [] <==> forall r :: r in rows ==> Label(r) == ""
  {
    FacetLists(rows, Label);
    var colors := Facet(rows, Label);
    if colors == [] {
      forall r | r in rows ensures Label(r) == "" {
        assert HasValue(rows, Label, Label(r));
      }
    } else {
      assert colors[0] in colors;
    }
  }

  /** Each condition code is listed once, and so is each colour; without a colour no list is sent. */
  lemma DocFacets(rows: seq<Row>)
    requires rows != []
    ensures Distinct(DocFrom(rows).conditions)
    ensures forall c :: c in DocFrom(rows).conditions <==> c != "" && HasValue(rows, Code, c)
    ensures DocFrom(rows).colors.None? <==> forall r :: r in rows ==> Label(r) == ""
    ensures DocFrom(rows).colors.Some? ==> Distinct(DocFrom(rows).colors.value)
    ensures DocFrom(rows).colors.Some? ==>
      forall c :: c in DocFrom(rows).colors.value <==> c != "" && HasValue(rows, Label, c)
  {
    FacetLists(rows, Code);
    FacetLists(rows, Label);
    ColourlessFacet(rows);
  }

  /** The ten tier columns are sent exactly when the first of them is set; a missing one is absent. */
  lemma DocTiers(rows: seq<Row>)
    requires rows != []
    ensures var given := if rows[0].tiers.Some? then rows[0].tiers.value else [];
      && (DocFrom(rows).tiers.Some? <==> given != [] && given[0].Some?)
      && (DocFrom(rows).tiers.Some? ==>
            && |DocFrom(rows).tiers.value| == 10
            && forall i :: 0 <= i < 10 ==> DocFrom(rows).tiers.value[i] == if i < |given| then given[i] else None)
  {
  }

  /** The quantity adds up the quantities in stock, row by row: one that is absent or negative adds nothing. */
  lemma DocQuantity(rows: seq<Row>)
    requires rows != []
    ensures DocFrom(rows).qty == Stock(rows)
  {
    StockIsTotal(rows);
  }

  // ---------------------------------------------------------------- plain group-by

  function WithKey(rows: seq<Row>, key: string): seq<Row> {
    if rows == [] then []
    else (if rows[0].groupKey == key then [rows[0]] else []) + WithKey(rows[1..], key)
  }

  function WithoutKey(rows: seq<Row>, key: string): (rest: seq<Row>)
    ensures |rest| <= |rows|
  {
    if rows == [] then []
    else (if rows[0].groupKey == key then [] else [rows[0]]) + WithoutKey(rows[1..], key)
  }

  /** For each key, in order of first appearance, every row of the table that has it. */
  function GroupBy(rows: seq<Row>): seq<seq<Row>>
    decreases |rows|
  {
    if rows == [] then []
    else [WithKey(rows, rows[0].groupKey)] + GroupBy(WithoutKey(rows, rows[0].groupKey))
  }

  function Flatten<T>(parts: seq<seq<T>>): seq<T> {
    if parts == [] then [] else parts[0] + Flatten(parts[1..])
  }

  function Docs(groups: seq<seq<Row>>): seq<Doc>
    requires forall i :: 0 <= i < |groups| ==> groups[i] != []
  {
    seq(|groups|, i requires 0 <= i < |groups| => DocFrom(groups[i]))
  }

  /** Uniform runs with strictly increasing keys. */
  ghost predicate Increasing(groups: seq<seq<Row>>) {
    && (forall i :: 0 <= i < |groups| ==> Uniform(groups[i]))
    && (forall i, j :: 0 <= i < j < |groups| ==> StrLess(groups[i][0].groupKey, groups[j][0].groupKey))
  }

  lemma {:induction false} FlattenSnoc<T>(parts: seq<seq<T>>, last: seq<T>)
    ensures Flatten(parts + [last]) == Flatten(parts) + last
  {
    if parts == [] {
      assert parts + [last] == [last] && [last][1..] == [];
    } else {
      assert (parts + [last])[0] == parts[0] && (parts + [last])[1..] == parts[1..] + [last];
      FlattenSnoc(parts[1..], last);
    }
  }

  lemma {:induction false} WithKeyConcat(xs: seq<Row>, ys: seq<Row>, key: string)
    ensures WithKey(xs + ys, key) == WithKey(xs, key) + WithKey(ys, key)
  {
    if xs == [] {
      assert xs + ys == ys;
    } else {
      ConcatHead(xs, ys);
      WithKeyConcat(xs[1..], ys, key);
      ConcatAssociates(if xs[0].groupKey == key then [xs[0]] else [], WithKey(xs[1..], key), WithKey(ys, key));
    }
  }

  lemma {:induction false} WithoutKeyConcat(xs: seq<Row>, ys: seq<Row>, key: string)
    ensures WithoutKey(xs + ys, key) == WithoutKey(xs, key) + WithoutKey(ys, key)
  {
    if xs == [] {
      assert xs + ys == ys;
    } else {
      ConcatHead(xs, ys);
      WithoutKeyConcat(xs[1..], ys, key);
      ConcatAssociates(if xs[0].groupKey == key then [] else [xs[0]], WithoutKey(xs[1..], key), WithoutKey(ys, key));
    }
  }

  lemma {:induction false} KeyOfOne(rows: seq<Row>, key: string, all: bool)
    requires forall i :: 0 <= i < |rows| ==> (rows[i].groupKey == key <==> all)
    ensures WithKey(rows, key) == if all then rows else []
    ensures WithoutKey(rows, key) == if all then [] else rows
  {
    if rows != [] {
      forall i | 0 <= i < |rows[1..]| ensures rows[1..][i].groupKey == key <==> all {
        assert rows[1..][i] == rows[i + 1];
      }
      KeyOfOne(rows[1..], key, all);
      HeadAndTail(rows);
    }
  }

  lemma {:induction false} KeyAbsent(groups: seq<seq<Row>>, key: string)
    requires forall i :: 0 <= i < |groups| ==> Uniform(groups[i]) && groups[i][0].groupKey != key
    ensures WithKey(Flatten(groups), key) == [] && WithoutKey(Flatten(groups), key) == Flatten(groups)
  {
    if groups != [] {
      WithKeyConcat(groups[0], Flatten(groups[1..]), key);
      WithoutKeyConcat(groups[0], Flatten(groups[1..]), key);
      assert Uniform(groups[0]);
      KeyOfOne(groups[0], key, false);
      forall i | 0 <= i < |groups[1..]| ensures Uniform(groups[1..][i]) && groups[1..][i][0].groupKey != key {
        assert groups[1..][i] == groups[i + 1];
      }
      KeyAbsent(groups[1..], key);
    }
  }

  lemma IncreasingRest(groups: seq<seq<Row>>)
    requires Increasing(groups) && groups != []
    ensures Increasing(groups[1..])
    ensures forall i :: 0 <= i < |groups[1..]| ==>
      Uniform(groups[1..][i]) && groups[1..][i][0].groupKey != groups[0][0].groupKey
  {
    var rest := groups[1..];
    assert Uniform(groups[0]);
    forall i | 0 <= i < |rest| ensures Uniform(rest[i]) && rest[i][0].groupKey != groups[0][0].groupKey {
      assert rest[i] == groups[i + 1];
      assert StrLess(groups[0][0].groupKey, groups[i + 1][0].groupKey);
      if rest[i][0].groupKey == groups[0][0].groupKey { StrLessAsymmetric(rest[i][0].groupKey, rest[i][0].groupKey); }
    }
    forall i, j | 0 <= i < j < |rest| ensures StrLess(rest[i][0].groupKey, rest[j][0].groupKey) {
      assert rest[i] == groups[i + 1] && rest[j] == groups[j + 1];
    }
  }

  /** The first run is all the rows of its key, and the others are all the rest. */
  lemma FirstRunSplits(groups: seq<seq<Row>>)
    requires Increasing(groups) && groups != []
    ensures Flatten(groups) != [] && groups[0] != [] && Flatten(groups)[0] == groups[0][0]
    ensures WithKey(Flatten(groups), groups[0][0].groupKey) == groups[0]
    ensures WithoutKey(Flatten(groups), groups[0][0].groupKey) == Flatten(groups[1..])
  {
    assert Uniform(groups[0]);
    var key, rest := groups[0][0].groupKey, Flatten(groups[1..]);
    IncreasingRest(groups);
    WithKeyConcat(groups[0], rest, key);
    WithoutKeyConcat(groups[0], rest, key);
    KeyOfOne(groups[0], key, true);
    KeyAbsent(groups[1..], key);
    assert groups[0] + [] == groups[0] && [] + rest == rest;
  }

  /** Runs with increasing keys are the group-by of the rows they spell. */
  lemma {:induction false} RunsAreGroupBy(groups: seq<seq<Row>>)
    requires Increasing(groups)
    ensures GroupBy(Flatten(groups)) == groups
  {
    if groups != [] {
      FirstRunSplits(groups);
      IncreasingRest(groups);
      RunsAreGroupBy(groups[1..]);
      assert groups == [groups[0]] + groups[1..];
    }
  }

  function TotalQty(docs: seq<Doc>): int {
    if docs == [] then 0 else docs[0].qty + TotalQty(docs[1..])
  }

  lemma DocsCons(groups: seq<seq<Row>>)
    requires groups != [] && forall i :: 0 <= i < |groups| ==> groups[i] != []
    ensures Docs(groups)[0] == DocFrom(groups[0]) && Docs(groups)[1..] == Docs(groups[1..])
  {
  }

  lemma {:induction false} QtyConserved(groups: seq<seq<Row>>)
    requires forall i :: 0 <= i < |groups| ==> groups[i] != []
    ensures TotalQty(Docs(groups)) == TotalAvailable(Flatten(groups))
  {
    if groups != [] {
      TotalConcat(groups[0], Flatten(groups[1..]));
      DocsCons(groups);
      QtyConserved(groups[1..]);
    }
  }

  // ---------------------------------------------------------------- the loops

  ghost predicate Full(batches: seq<seq<Doc>>, size: nat) {
    forall i :: 0 <= i < |batches| ==> |batches[i]| == size
  }

  /** Every batch but the last is full, and none is empty. */
  ghost predicate Batched(batches: seq<seq<Doc>>, size: nat) {
    && (forall i :: 0 <= i < |batches| - 1 ==> |batches[i]| == size)
    && (batches != [] ==> 0 < |batches[|batches| - 1]| <= size)
  }

  method FlushDocs(docs: seq<Doc>, sent: seq<seq<Doc>>, imported: nat, size: nat, force: bool)
    returns (docs': seq<Doc>, sent': seq<seq<Doc>>, imported': nat)
    requires size > 0 && Full(sent, size) && imported == |Flatten(sent)|
    ensures Flatten(sent') + docs' == Flatten(sent) + docs
    ensures imported' == |Flatten(sent')|
    ensures if force then docs' == [] && Batched(sent', size) else |docs'| < size && Full(sent', size)
  {
    docs', sent', imported' := docs, sent, imported;
    while |docs'| >= size || (force && |docs'| > 0)
      invariant Flatten(sent') + docs' == Flatten(sent) + docs
      invariant imported' == |Flatten(sent')|
      invariant Full(sent', size) || (force && docs' == [] && Batched(sent', size))
      decreases |docs'|
    {
      var n := if |docs'| < size then |docs'| else size;
      var batch := docs'[..n];
      FlattenSnoc(sent', batch);
      assert docs' == batch + docs'[n..];
      sent', docs', imported' := sent' + [batch], docs'[n..], imported' + |batch|;
    }
  }

  lemma DocsSnoc(groups: seq<seq<Row>>, last: seq<Row>)
    requires (forall i :: 0 <= i < |groups| ==> groups[i] != []) && last != []
    ensures Docs(groups + [last]) == Docs(groups) + [DocFrom(last)]
  {
  }

  /** Closed groups plus the group still open spell the rows read so far. */
  ghost predicate OpenGroup(read: seq<Row>, groups: seq<seq<Row>>, carry: seq<Row>) {
    && Increasing(groups)
    && Flatten(groups) + carry == read
    && (carry == [] ==> groups == [])
    && (carry != [] ==> Increasing(groups + [carry]))
  }

  lemma OpenGroupStep(table: seq<Row>, n: nat, groups: seq<seq<Row>>, carry: seq<Row>)
    requires SortedTable(table) && n < |table| && OpenGroup(table[..n], groups, carry)
    ensures if carry != [] && carry[0].groupKey != table[n].groupKey
      then OpenGroup(table[..n + 1], groups + [carry], [table[n]])
      else OpenGroup(table[..n + 1], groups, carry + [table[n]])
  {
    var row := table[n];
    assert table[..n + 1] == table[..n] + [row];
    if carry == [] {
      assert Uniform([row]);
    } else {
      var first := |Flatten(groups)|;
      assert table[..n][first] == carry[0] == table[first];
      assert Uniform((groups + [carry])[|groups|]);
      if carry[0].groupKey != row.groupKey {
        var next: seq<seq<Row>> := groups + [carry];
        FlattenSnoc(groups, carry);
        assert StrLess(carry[0].groupKey, row.groupKey);
        forall i | 0 <= i < |next| ensures StrLess(next[i][0].groupKey, row.groupKey) {
          if i < |groups| {
            assert StrLess(next[i][0].groupKey, next[|groups|][0].groupKey);
            StrLessTransitive(next[i][0].groupKey, carry[0].groupKey, row.groupKey);
          }
        }
        assert Uniform([row]);
      } else {
        var grown := carry + [row];
        assert Uniform(grown);
        forall i, j | 0 <= i < j < |groups + [grown]|
          ensures StrLess((groups + [grown])[i][0].groupKey, (groups + [grown])[j][0].groupKey)
        {
          assert StrLess((groups + [carry])[i][0].groupKey, (groups + [carry])[j][0].groupKey);
        }
      }
    }
  }

  /** The first `n` rows are read: closed groups are documents already, the open one is the carry. */
  ghost predicate Reading(table: seq<Row>, n: nat, carry: seq<Row>, docs: seq<Doc>) {
    n <= |table| && exists groups :: OpenGroup(table[..n], groups, carry) && docs == Docs(groups)
  }

  /** Reads one row into the carry buffer, closing the open group when the key changes. */
  method ReadRow(ghost table: seq<Row>, ghost n: nat, row: Row, carry: seq<Row>, docs: seq<Doc>,
                 ghost before: seq<Doc>)
    returns (carry': seq<Row>, docs': seq<Doc>)
    requires SortedTable(table) && n < |table| && row == table[n]
    requires Reading(table, n, carry, before + docs)
    ensures Reading(table, n + 1, carry', before + docs')
  {
    ghost var groups :| OpenGroup(table[..n], groups, carry) && before + docs == Docs(groups);
    OpenGroupStep(table, n, groups, carry);
    if |carry| > 0 && carry[0].groupKey != row.groupKey {
      DocsSnoc(groups, carry);
      docs', carry' := docs + [DocFrom(carry)], [row];
      assert before + docs' == (before + docs) + [DocFrom(carry)];
    } else {
      carry', docs' := carry + [row], docs;
    }
  }

  method ReadPage(ghost table: seq<Row>, ghost n: nat, rows: seq<Row>, carry: seq<Row>, docs: seq<Doc>,
                  ghost before: seq<Doc>)
    returns (carry': seq<Row>, docs': seq<Doc>)
    requires SortedTable(table) && n + |rows| <= |table| && rows == table[n..n + |rows|]
    requires Reading(table, n, carry, before + docs)
    ensures Reading(table, n + |rows|, carry', before + docs')
  {
    carry', docs' := carry, docs;
    for i := 0 to |rows|
      invariant Reading(table, n + i, carry', before + docs')
    {
      carry', docs' := ReadRow(table, n + i, rows[i], carry', docs', before);
    }
  }

  /** One page: read its rows, then send what makes full batches. */
  method SyncPage(ghost table: seq<Row>, ghost n: nat, rows: seq<Row>, carry: seq<Row>, docs: seq<Doc>,
                  sent: seq<seq<Doc>>, imported: nat, importBatch: nat)
    returns (carry': seq<Row>, docs': seq<Doc>, sent': seq<seq<Doc>>, imported': nat)
    requires SortedTable(table) && n + |rows| <= |table| && rows == table[n..n + |rows|] && importBatch > 0
    requires Reading(table, n, carry, Flatten(sent) + docs)
    requires Full(sent, importBatch) && imported == |Flatten(sent)|
    ensures Reading(table, n + |rows|, carry', Flatten(sent') + docs')
    ensures Full(sent', importBatch) && imported' == |Flatten(sent')|
  {
    carry', docs' := ReadPage(table, n, rows, carry, docs, Flatten(sent));
    docs', sent', imported' := FlushDocs(docs', sent, imported, importBatch, false);
  }

  lemma NothingRead(table: seq<Row>)
    ensures Reading(table, 0, [], Flatten([]) + [])
  {
    assert OpenGroup(table[..0], [], []);
    assert Docs([]) == Flatten<Doc>([]) + [];
  }

  method NextPage(table: seq<Row>, ghost n: nat, lastKey: string, lastId: string, pageRows: nat) returns (rows: seq<Row>)
    requires SortedTable(table) && pageRows > 0 && AtCursor(table, n, lastKey, lastId)
    ensures n + |rows| <= |table| && rows == table[n..n + |rows|] && (|rows| == 0 <==> n == |table|)
  {
    rows := Query(table, lastKey, lastId, pageRows);
    QueryResumes(table, n, lastKey, lastId, pageRows);
  }

  /** The group is all the rows of its key. */
  ghost predicate GroupOf(rows: seq<Row>, group: seq<Row>) {
    Uniform(group) && group == WithKey(rows, group[0].groupKey)
  }

  ghost predicate Apart(g: seq<Row>, h: seq<Row>) {
    g != [] && h != [] && g[0].groupKey != h[0].groupKey
  }

  ghost predicate KeysDiffer(groups: seq<seq<Row>>) {
    forall i, j :: 0 <= i < j < |groups| ==> Apart(groups[i], groups[j])
  }

  lemma SplitOne(x: Row, rest: seq<Row>, mine: seq<Row>, others: seq<Row>, isMine: bool)
    requires multiset(rest) == multiset(mine) + multiset(others)
    ensures multiset([x] + rest)
         == multiset((if isMine then [x] else []) + mine) + multiset((if isMine then [] else [x]) + others)
  {
    if isMine { assert [] + others == others; } else { assert [] + mine == mine; }
  }

  lemma {:induction false} KeySplitsRows(rows: seq<Row>, key: string)
    ensures multiset(rows) == multiset(WithKey(rows, key)) + multiset(WithoutKey(rows, key))
  {
    if rows != [] {
      KeySplitsRows(rows[1..], key);
      SplitOne(rows[0], rows[1..], WithKey(rows[1..], key), WithoutKey(rows[1..], key), rows[0].groupKey == key);
      assert rows == [rows[0]] + rows[1..];
    }
  }

  lemma {:induction false} WithKeyMembers(rows: seq<Row>, key: string)
    ensures forall r :: r in WithKey(rows, key) ==> r.groupKey == key && r in rows
    ensures forall r :: r in WithoutKey(rows, key) ==> r.groupKey != key && r in rows
  {
    if rows != [] {
      WithKeyMembers(rows[1..], key);
    }
  }

  lemma {:induction false} WithoutThenWith(rows: seq<Row>, key: string, other: string)
    requires key != other
    ensures WithKey(WithoutKey(rows, key), other) == WithKey(rows, other)
  {
    if rows != [] {
      WithoutThenWith(rows[1..], key, other);
      if rows[0].groupKey != key {
        assert ([rows[0]] + WithoutKey(rows[1..], key))[1..] == WithoutKey(rows[1..], key);
      } else {
        assert WithoutKey(rows, key) == WithoutKey(rows[1..], key);
      }
    }
  }

  lemma GroupOfRest(rows: seq<Row>, key: string, group: seq<Row>)
    requires GroupOf(WithoutKey(rows, key), group)
    ensures group[0].groupKey != key && GroupOf(rows, group)
  {
    var rest := WithoutKey(rows, key);
    WithKeyMembers(rest, group[0].groupKey);
    assert group[0] in WithKey(rest, group[0].groupKey);
    WithKeyMembers(rows, key);
    WithoutThenWith(rows, key, group[0].groupKey);
  }

  lemma HeadIsGroup(rows: seq<Row>, key: string)
    requires rows != [] && rows[0].groupKey == key
    ensures GroupOf(rows, WithKey(rows, key)) && WithKey(rows, key)[0].groupKey == key
  {
    var head := WithKey(rows, key);
    assert head[0] == rows[0];
    WithKeyMembers(rows, key);
    forall i | 0 <= i < |head| ensures head[i].groupKey == key {
      assert head[i] in head;
    }
  }

  lemma FlattenCons(head: seq<Row>, groups: seq<seq<Row>>)
    ensures Flatten([head] + groups) == head + Flatten(groups)
  {
    ConcatHead([head], groups);
    assert [head][1..] + groups == groups;
  }

  lemma ConsPartition(rows: seq<Row>, key: string, groups: seq<seq<Row>>)
    requires rows != [] && rows[0].groupKey == key && KeysDiffer(groups)
    requires forall i :: 0 <= i < |groups| ==> GroupOf(WithoutKey(rows, key), groups[i])
    requires multiset(Flatten(groups)) == multiset(WithoutKey(rows, key))
    ensures var all := [WithKey(rows, key)] + groups;
      && (forall i :: 0 <= i < |all| ==> GroupOf(rows, all[i]))
      && KeysDiffer(all)
      && multiset(Flatten(all)) == multiset(rows)
  {
    var head := WithKey(rows, key);
    HeadIsGroup(rows, key);
    forall i | 0 <= i < |groups| ensures GroupOf(rows, groups[i]) && Apart(head, groups[i]) {
      GroupOfRest(rows, key, groups[i]);
    }
    KeySplitsRows(rows, key);
    FlattenCons(head, groups);
  }

  /** A plain group-by loses no row and repeats none; each group is all the rows of its own key. */
  lemma {:induction false} GroupByPartitions(rows: seq<Row>)
    ensures forall i :: 0 <= i < |GroupBy(rows)| ==> GroupOf(rows, GroupBy(rows)[i])
    ensures KeysDiffer(GroupBy(rows))
    ensures multiset(Flatten(GroupBy(rows))) == multiset(rows)
    decreases |rows|
  {
    if rows != [] {
      var key := rows[0].groupKey;
      GroupByPartitions(WithoutKey(rows, key));
      ConsPartition(rows, key, GroupBy(WithoutKey(rows, key)));
    }
  }

  /** The documents of a plain group-by. */
  function GroupDocs(table: seq<Row>): seq<Doc> {
    GroupByPartitions(table);
    Docs(GroupBy(table))
  }

  /** Closing the open group leaves increasing groups that spell the whole table. */
  lemma Closed(table: seq<Row>, groups: seq<seq<Row>>, carry: seq<Row>) returns (whole: seq<seq<Row>>)
    requires OpenGroup(table, groups, carry)
    ensures whole == (if carry == [] then groups else groups + [carry])
    ensures Increasing(whole) && Flatten(whole) == table
  {
    if carry == [] {
      whole := groups;
    } else {
      whole := groups + [carry];
      FlattenSnoc(groups, carry);
    }
  }

  /** With every row read, closing the open group leaves the documents of the plain group-by. */
  lemma ReadingEnds(table: seq<Row>, carry: seq<Row>, docs: seq<Doc>)
    requires Reading(table, |table|, carry, docs)
    ensures var all := if carry == [] then docs else docs + [DocFrom(carry)];
      all == GroupDocs(table) && |all| == |GroupBy(table)| && TotalQty(all) == TotalAvailable(table)
  {
    assert table[..|table|] == table;
    var groups :| OpenGroup(table, groups, carry) && docs == Docs(groups);
    var whole := Closed(table, groups, carry);
    if carry != [] { DocsSnoc(groups, carry); }
    RunsAreGroupBy(whole);
    QtyConserved(whole);
  }

  /** Closes the last open group and flushes what is left. */
  method Finish(ghost table: seq<Row>, carry: seq<Row>, docs: seq<Doc>,
                sent: seq<seq<Doc>>, imported: nat, importBatch: nat)
    returns (sent': seq<seq<Doc>>, imported': nat)
    requires Reading(table, |table|, carry, Flatten(sent) + docs)
    requires importBatch > 0 && Full(sent, importBatch) && imported == |Flatten(sent)|
    ensures Flatten(sent') == GroupDocs(table)
    ensures Batched(sent', importBatch) && imported' == |GroupBy(table)|
    ensures TotalQty(Flatten(sent')) == TotalAvailable(table)
  {
    ReadingEnds(table, carry, Flatten(sent) + docs);
    var all := if |carry| > 0 then docs + [DocFrom(carry)] else docs;
    if |carry| > 0 { ConcatAssociates(Flatten(sent), docs, [DocFrom(carry)]); }
    var rest;
    rest, sent', imported' := FlushDocs(all, sent, imported, importBatch, true);
    ConcatEmpty(Flatten(sent'));
  }

  /**
   * The whole sync: for any page and batch size, the documents sent are one per group of the table,
   * in order, each built from all of the group's rows; every batch but the last is full.
   */
  method Sync(table: seq<Row>, pageRows: nat, importBatch: nat)
    returns (sent: seq<seq<Doc>>, imported: nat)
    requires SortedTable(table) && pageRows > 0 && importBatch > 0
    ensures Flatten(sent) == GroupDocs(table)
    ensures Batched(sent, importBatch) && imported == |GroupBy(table)|
    ensures TotalQty(Flatten(sent)) == Stock(table)
  {
    StockIsTotal(table);
    var lastKey, lastId := "", "";
    var carry: seq<Row>, docs: seq<Doc> := [], [];
    sent, imported := [], 0;
    ghost var n := 0;
    NothingRead(table);
    while true
      invariant Reading(table, n, carry, Flatten(sent) + docs)
      invariant AtCursor(table, n, lastKey, lastId)
      invariant Full(sent, importBatch) && imported == |Flatten(sent)|
      decreases |table| - n
    {
      var rows := NextPage(table, n, lastKey, lastId, pageRows);
      if |rows| == 0 { break; }
      carry, docs, sent, imported := SyncPage(table, n, rows, carry, docs, sent, imported, importBatch);
      lastKey, lastId := rows[|rows| - 1].groupKey, rows[|rows| - 1].id;
      CursorMoves(table, n, rows);
      n := n + |rows|;
    }
    sent, imported := Finish(table, carry, docs, sent, imported, importBatch);
  }

  // ---------------------------------------------------------------- retried calls

  datatype Call = Succeeds | FailsTransiently(error: string) | FailsFatally(error: string)

  datatype Retried = Retried(calls: nat, waits: seq<int>, error: Option<string>)

  function BackoffMs(attempt: nat): int {
    Min(30000, 1000 * Power2(attempt))
  }

  /** The recursive retry from a given attempt on: calls made, waits in between, and the error thrown. */
  function RetryCall(outcome: nat -> Call, attempt: nat): Retried
    decreases 10 - attempt
  {
    match outcome(attempt)
    case Succeeds => Retried(1, [], None)
    case FailsFatally(error) => Retried(1, [], Some(error))
    case FailsTransiently(error) =>
      if attempt >= 10 then Retried(1, [], Some(error))
      else
        var rest := RetryCall(outcome, attempt + 1);
        Retried(1 + rest.calls, [BackoffMs(attempt)] + rest.waits, rest.error)
  }

  lemma {:induction false} WaitsBackOff(outcome: nat -> Call, attempt: nat, k: nat)
    requires attempt <= 10 && k < |RetryCall(outcome, attempt).waits|
    ensures RetryCall(outcome, attempt).waits[k] == BackoffMs(attempt + k) && outcome(attempt + k).FailsTransiently?
    decreases 10 - attempt
  {
    if k > 0 { WaitsBackOff(outcome, attempt + 1, k - 1); }
  }

  lemma {:induction false} CallsDecide(outcome: nat -> Call, attempt: nat)
    requires attempt <= 10
    ensures var r := RetryCall(outcome, attempt);
      && 1 <= r.calls <= 11 - attempt
      && |r.waits| == r.calls - 1
      && (r.error == None <==> outcome(attempt + r.calls - 1).Succeeds?)
      && (r.error.Some? ==> r.error.value == outcome(attempt + r.calls - 1).error)
      && (outcome(attempt + r.calls - 1).FailsTransiently? ==> attempt + r.calls == 11)
    decreases 10 - attempt
  {
    if outcome(attempt).FailsTransiently? && attempt < 10 { CallsDecide(outcome, attempt + 1); }
  }

  lemma BackoffDoubles(k: nat)
    ensures BackoffMs(0) == 1000
    ensures k > 0 ==> BackoffMs(k) == Min(30_000, 2 * BackoffMs(k - 1))
  {
  }

  lemma RetryWaits(outcome: nat -> Call)
    ensures var waits := RetryCall(outcome, 0).waits;
      forall k :: 0 <= k < |waits| ==>
        && outcome(k).FailsTransiently?
        && waits[k] == if k == 0 then 1000 else Min(30_000, 2 * waits[k - 1])
  {
    var waits := RetryCall(outcome, 0).waits;
    forall k | 0 <= k < |waits| ensures waits[k] == BackoffMs(k) && outcome(k).FailsTransiently? {
      WaitsBackOff(outcome, 0, k);
    }
    forall k | 0 <= k < |waits| ensures waits[k] == if k == 0 then 1000 else Min(30_000, 2 * waits[k - 1]) {
      BackoffDoubles(k);
    }
  }

  /** Only transient failures are retried, at most ten times, and the last call decides the result. */
  lemma RetryCallBounded(outcome: nat -> Call)
    ensures var r := RetryCall(outcome, 0);
      && 1 <= r.calls <= 11
      && |r.waits| == r.calls - 1
      && (forall k :: 0 <= k < |r.waits| ==> outcome(k).FailsTransiently?)
      && (|r.waits| > 0 ==> r.waits[0] == 1000)
      && (forall k :: 1 <= k < |r.waits| ==> r.waits[k] == Min(30_000, 2 * r.waits[k - 1]))
      && (r.error == None <==> outcome(r.calls - 1).Succeeds?)
      && (r.error.Some? ==> r.error.value == outcome(r.calls - 1).error)
      && (outcome(r.calls - 1).FailsTransiently? ==> r.calls == 11)
  {
    CallsDecide(outcome, 0);
    RetryWaits(outcome);
  }
}
