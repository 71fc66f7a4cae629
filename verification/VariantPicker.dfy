/**
 * The variant picker: option signatures, the index keyed by them, and the availability filter
 * that decides which option values a buyer may still choose.
 */
module VariantPicker {
  import opened Prelude
  import opened SignatureText

  datatype OptionValue = OptionValue(id: string, slug: string)

  datatype Axis = Axis(id: string, slug: string, position: int, required: bool, values: seq<OptionValue>)

  datatype Variant = Variant(id: string, optionValueIds: seq<string>, availableQty: int)

  datatype Data = Data(axes: seq<Axis>, variants: seq<Variant>, defaultVariantId: Option<string>)

  /** Chosen value id by axis id. A missing or empty entry means nothing is chosen. */
  type Selection = map<string, string>

  type Lookup = map<string, (Axis, OptionValue)>

  // ---------------------------------------------------------------- axes in position order

  function Insert(axis: Axis, sorted: seq<Axis>): seq<Axis> {
    if sorted == [] || axis.position <= sorted[0].position then [axis] + sorted
    else [sorted[0]] + Insert(axis, sorted[1..])
  }

  /** A stable sort by position. */
  function SortedAxes(axes: seq<Axis>): seq<Axis> {
    if axes == [] then [] else Insert(axes[0], SortedAxes(axes[1..]))
  }

  ghost predicate Ordered(axes: seq<Axis>) {
    forall i, j :: 0 <= i < j < |axes| ==> axes[i].position <= axes[j].position
  }

  lemma {:induction false} InsertMembers(axis: Axis, sorted: seq<Axis>)
    ensures multiset(Insert(axis, sorted)) == multiset{axis} + multiset(sorted)
    ensures forall a :: a in Insert(axis, sorted) ==> a == axis || a in sorted
  {
    if sorted != [] && axis.position > sorted[0].position {
      InsertMembers(axis, sorted[1..]);
      assert sorted == [sorted[0]] + sorted[1..];
    }
  }

  lemma {:induction false} InsertOrdered(axis: Axis, sorted: seq<Axis>)
    requires Ordered(sorted)
    ensures Ordered(Insert(axis, sorted))
  {
    if sorted != [] && axis.position > sorted[0].position {
      var rest := Insert(axis, sorted[1..]);
      InsertOrdered(axis, sorted[1..]);
      InsertMembers(axis, sorted[1..]);
      forall i | 0 <= i < |rest| ensures sorted[0].position <= rest[i].position {
        assert rest[i] in rest;
      }
    }
  }

  lemma {:induction false} SortedAxesOrdered(axes: seq<Axis>)
    ensures Ordered(SortedAxes(axes)) && multiset(SortedAxes(axes)) == multiset(axes)
    ensures |SortedAxes(axes)| == |axes|
  {
    if axes != [] {
      SortedAxesOrdered(axes[1..]);
      InsertOrdered(axes[0], SortedAxes(axes[1..]));
      InsertMembers(axes[0], SortedAxes(axes[1..]));
      assert axes == [axes[0]] + axes[1..];
    }
    assert |multiset(SortedAxes(axes))| == |multiset(axes)|;
  }

  lemma SortedAxesMembers(axes: seq<Axis>)
    ensures forall a :: a in SortedAxes(axes) <==> a in axes
  {
    SortedAxesOrdered(axes);
    forall a ensures a in SortedAxes(axes) <==> a in axes {
      assert a in multiset(SortedAxes(axes)) <==> a in multiset(axes);
    }
  }

  // ---------------------------------------------------------------- what the catalog guarantees

  ghost predicate DistinctIds(axes: seq<Axis>) {
    forall a, b :: a in axes && b in axes && (a.id == b.id || a.slug == b.slug || a.position == b.position) ==> a == b
  }

  ghost predicate Owns(axis: Axis, value: OptionValue) {
    value in axis.values
  }

  ghost predicate ValidAxes(axes: seq<Axis>) {
    && Distinct(axes)
    && DistinctIds(axes)
    && (forall a, v {:trigger Owns(a, v)} :: a in axes && Owns(a, v) ==> v.id != "")
    && (forall a, b, v, w {:trigger Owns(a, v), Owns(b, w)} ::
          a in axes && b in axes && Owns(a, v) && Owns(b, w) ==>
            && (v.id == w.id ==> a == b && v == w)
            && (v.slug == w.slug && a == b ==> v == w))
  }

  ghost predicate Offers(axis: Axis, id: string) {
    exists v :: Owns(axis, v) && v.id == id
  }

  ghost predicate OptionsFit(sorted: seq<Axis>, v: Variant) {
    |v.optionValueIds| == |sorted| && forall i :: 0 <= i < |sorted| ==> Offers(sorted[i], v.optionValueIds[i])
  }

  ghost predicate SameOptions(v: Variant, w: Variant) {
    v.optionValueIds == w.optionValueIds
  }

  ghost predicate ValidData(data: Data) {
    && ValidAxes(data.axes)
    && (forall v {:trigger OptionsFit(SortedAxes(data.axes), v)} ::
          v in data.variants ==> OptionsFit(SortedAxes(data.axes), v))
    && (forall v, w {:trigger SameOptions(v, w)} ::
          v in data.variants && w in data.variants && SameOptions(v, w) ==> v == w)
  }

  lemma Twice(s: seq<Axis>, i: int, j: int)
    requires 0 <= i < j < |s| && s[i] == s[j]
    ensures multiset(s)[s[i]] >= 2
  {
    assert s == s[..i] + [s[i]] + s[i + 1..j] + [s[j]] + s[j + 1..];
  }

  lemma Once(s: seq<Axis>, a: Axis)
    requires Distinct(s)
    ensures multiset(s)[a] <= 1
  {
    if a in s {
      var i :| 0 <= i < |s| && s[i] == a;
      assert s == s[..i] + [a] + s[i + 1..];
      assert a !in s[..i] && a !in s[i + 1..];
    }
  }

  lemma SortedAxesValid(axes: seq<Axis>)
    requires ValidAxes(axes)
    ensures ValidAxes(SortedAxes(axes))
  {
    SortedAxesMembers(axes);
    SortedAxesOrdered(axes);
    var sorted := SortedAxes(axes);
    forall i, j | 0 <= i < j < |sorted| ensures sorted[i] != sorted[j] {
      Once(axes, sorted[i]);
      if sorted[i] == sorted[j] { Twice(sorted, i, j); }
    }
  }

  // ---------------------------------------------------------------- the value lookup

  function ValuesInto(lookup: Lookup, axis: Axis, values: seq<OptionValue>): Lookup {
    if values == [] then lookup
    else ValuesInto(lookup, axis, values[..|values| - 1])[values[|values| - 1].id := (axis, values[|values| - 1])]
  }

  function LookupOf(axes: seq<Axis>): Lookup {
    if axes == [] then map[]
    else ValuesInto(LookupOf(axes[..|axes| - 1]), axes[|axes| - 1], axes[|axes| - 1].values)
  }

  lemma {:induction false} ValuesIntoFinds(lookup: Lookup, axis: Axis, values: seq<OptionValue>)
    ensures forall id :: id in ValuesInto(lookup, axis, values) ==>
      var hit := ValuesInto(lookup, axis, values)[id];
      (hit.0 == axis && hit.1 in values && hit.1.id == id) || (id in lookup && hit == lookup[id])
    ensures forall v :: v in values ==> v.id in ValuesInto(lookup, axis, values)
    ensures lookup.Keys <= ValuesInto(lookup, axis, values).Keys
  {
    if values != [] {
      var init := values[..|values| - 1];
      ValuesIntoFinds(lookup, axis, init);
      assert values == init + [values[|values| - 1]];
    }
  }

  lemma {:induction false} LookupFinds(axes: seq<Axis>)
    ensures forall id :: id in LookupOf(axes) ==>
      LookupOf(axes)[id].0 in axes && LookupOf(axes)[id].1 in LookupOf(axes)[id].0.values && LookupOf(axes)[id].1.id == id
    ensures forall a, v :: a in axes && v in a.values ==> v.id in LookupOf(axes)
  {
    if axes != [] {
      var init, last := axes[..|axes| - 1], axes[|axes| - 1];
      LookupFinds(init);
      ValuesIntoFinds(LookupOf(init), last, last.values);
      assert axes == init + [last];
    }
  }

  method BuildAxisLookup(axes: seq<Axis>) returns (lookup: Lookup)
    ensures lookup == LookupOf(axes)
  {
    lookup := map[];
    for i := 0 to |axes|
      invariant lookup == LookupOf(axes[..i])
    {
      ghost var before := lookup;
      var axis := axes[i];
      for j := 0 to |axis.values|
        invariant lookup == ValuesInto(before, axis, axis.values[..j])
      {
        lookup := lookup[axis.values[j].id := (axis, axis.values[j])];
        assert axis.values[..j + 1][..j] == axis.values[..j];
      }
      assert axis.values[..|axis.values|] == axis.values;
      assert axes[..i + 1][..i] == axes[..i];
    }
    assert axes[..|axes|] == axes;
  }

  // ---------------------------------------------------------------- signatures

  function Chosen(selection: Selection, axis: Axis): Option<string> {
    if axis.id in selection && selection[axis.id] != "" then Some(selection[axis.id]) else None
  }

  function WithAxis(pairs: seq<(string, string)>, axis: Axis, lookup: Lookup, selection: Selection)
    : Option<seq<(string, string)>>
  {
    match Chosen(selection, axis)
    case None => if axis.required then None else Some(pairs)
    case Some(id) =>
      if id !in lookup || lookup[id].0.id != axis.id then None
      else Some(pairs + [(axis.slug, lookup[id].1.slug)])
  }

  /** The (axis slug, value slug) pairs of a selection, or nothing when it is not a valid one. */
  function Pairs(axes: seq<Axis>, lookup: Lookup, selection: Selection): Option<seq<(string, string)>> {
    if axes == [] then Some([])
    else match Pairs(axes[..|axes| - 1], lookup, selection)
      case None => None
      case Some(pairs) => WithAxis(pairs, axes[|axes| - 1], lookup, selection)
  }

  function Rendered(pairs: seq<(string, string)>): string {
    if pairs == [] then "base" else Join(Segments(pairs), "|")
  }

  function Signature(axes: seq<Axis>, selection: Selection): Option<string> {
    match Pairs(SortedAxes(axes), LookupOf(axes), selection)
    case None => None
    case Some(pairs) => Some(Rendered(pairs))
  }

  lemma {:induction false} PairsPrefix(axes: seq<Axis>, i: nat, lookup: Lookup, selection: Selection)
    requires i <= |axes| && Pairs(axes[..i], lookup, selection).None?
    ensures Pairs(axes, lookup, selection).None?
  {
    if i == |axes| {
      assert axes[..i] == axes;
    } else {
      var init := axes[..|axes| - 1];
      assert init[..i] == axes[..i];
      PairsPrefix(init, i, lookup, selection);
    }
  }

  method CanonicalVariantSignature(axes: seq<Axis>, selection: Selection) returns (signature: Option<string>)
    ensures signature == Signature(axes, selection)
  {
    var lookup := BuildAxisLookup(axes);
    var sorted := SortedAxes(axes);
    var segments: seq<string> := [];
    ghost var pairs: seq<(string, string)> := [];
    for i := 0 to |sorted|
      invariant Pairs(sorted[..i], lookup, selection) == Some(pairs)
      invariant segments == Segments(pairs)
    {
      var axis := sorted[i];
      assert sorted[..i + 1][..i] == sorted[..i];
      var chosen := Chosen(selection, axis);
      if chosen.None? {
        if axis.required {
          PairsPrefix(sorted, i + 1, lookup, selection);
          return None;
        }
      } else {
        if chosen.value !in lookup || lookup[chosen.value].0.id != axis.id {
          PairsPrefix(sorted, i + 1, lookup, selection);
          return None;
        }
        var pair := (axis.slug, lookup[chosen.value].1.slug);
        segments := segments + [Segment(pair)];
        pairs := pairs + [pair];
      }
    }
    assert sorted[..|sorted|] == sorted;
    return Some(if segments == [] then "base" else Join(segments, "|"));
  }

  ghost predicate HasSlug(axes: seq<Axis>, slug: string) {
    exists a :: a in axes && a.slug == slug
  }

  lemma {:induction false} PairsSlugs(axes: seq<Axis>, lookup: Lookup, selection: Selection)
    requires Pairs(axes, lookup, selection).Some?
    ensures forall p :: p in Pairs(axes, lookup, selection).value ==> HasSlug(axes, p.0)
  {
    if axes != [] {
      var init, last := axes[..|axes| - 1], axes[|axes| - 1];
      PairsSlugs(init, lookup, selection);
      assert axes == init + [last];
      forall p | p in Pairs(axes, lookup, selection).value ensures HasSlug(axes, p.0) {
        if p in Pairs(init, lookup, selection).value {
          var a :| a in init && a.slug == p.0;
          assert a in axes;
        } else {
          assert last in axes;
        }
      }
    }
  }

  lemma WithAxisEmpty(pairs: seq<(string, string)>, axis: Axis, lookup: Lookup, selection: Selection)
    requires WithAxis(pairs, axis, lookup, selection).Some?
    ensures WithAxis(pairs, axis, lookup, selection).value == [] <==> pairs == [] && Chosen(selection, axis).None?
  {
  }

  ghost predicate NothingChosen(axes: seq<Axis>, selection: Selection) {
    forall a :: a in axes ==> Chosen(selection, a).None?
  }

  lemma NothingChosenSnoc(axes: seq<Axis>, last: Axis, selection: Selection)
    ensures NothingChosen(axes + [last], selection) <==> NothingChosen(axes, selection) && Chosen(selection, last).None?
  {
    assert last in axes + [last];
    if NothingChosen(axes + [last], selection) {
      forall a | a in axes ensures Chosen(selection, a).None? {
        assert a in axes + [last];
      }
    }
  }

  lemma {:induction false} NoPairsNoChoice(axes: seq<Axis>, lookup: Lookup, selection: Selection)
    requires Pairs(axes, lookup, selection).Some?
    ensures Pairs(axes, lookup, selection).value == [] <==> NothingChosen(axes, selection)
  {
    if axes != [] {
      var init, last := axes[..|axes| - 1], axes[|axes| - 1];
      NoPairsNoChoice(init, lookup, selection);
      WithAxisEmpty(Pairs(init, lookup, selection).value, last, lookup, selection);
      NothingChosenSnoc(init, last, selection);
      assert axes == init + [last];
    }
  }

  lemma LookupOwner(all: seq<Axis>, axis: Axis, id: string)
    requires ValidAxes(all) && axis in all && id in LookupOf(all) && LookupOf(all)[id].0.id == axis.id
    ensures LookupOf(all)[id].0 == axis && Owns(axis, LookupOf(all)[id].1) && LookupOf(all)[id].1.id == id
  {
    LookupFinds(all);
  }

  lemma SnocEqual<T>(xs: seq<T>, x: T, ys: seq<T>, y: T)
    requires xs + [x] == ys + [y]
    ensures xs == ys && x == y
  {
    var both := xs + [x];
    assert both[..|both| - 1] == xs && both[..|both| - 1] == ys;
    assert both[|both| - 1] == x && (ys + [y])[|both| - 1] == y;
  }

  lemma LastSlugIsNew(ps: seq<(string, string)>, qs: seq<(string, string)>, slug: string, value: string)
    requires forall p :: p in qs ==> p.0 != slug
    ensures ps + [(slug, value)] != qs
  {
    assert (slug, value) in ps + [(slug, value)];
  }

  lemma WithAxisDetermines(ps: seq<(string, string)>, pt: seq<(string, string)>, axis: Axis, all: seq<Axis>,
                           s: Selection, t: Selection)
    requires ValidAxes(all) && axis in all
    requires forall p :: p in ps || p in pt ==> p.0 != axis.slug
    requires WithAxis(ps, axis, LookupOf(all), s).Some?
    requires WithAxis(ps, axis, LookupOf(all), s) == WithAxis(pt, axis, LookupOf(all), t)
    ensures ps == pt && Chosen(s, axis) == Chosen(t, axis)
  {
    var c, d := Chosen(s, axis), Chosen(t, axis);
    if c.Some? {
      LookupOwner(all, axis, c.value);
      if d.Some? {
        LookupOwner(all, axis, d.value);
        SnocEqual(ps, (axis.slug, LookupOf(all)[c.value].1.slug), pt, (axis.slug, LookupOf(all)[d.value].1.slug));
      } else {
        LastSlugIsNew(ps, pt, axis.slug, LookupOf(all)[c.value].1.slug);
      }
    } else if d.Some? {
      LastSlugIsNew(pt, ps, axis.slug, LookupOf(all)[d.value].1.slug);
    }
  }

  /** Equal pairs mean equal choices, axis by axis. */
  lemma {:induction false} PairsDetermine(axes: seq<Axis>, all: seq<Axis>, s: Selection, t: Selection)
    requires ValidAxes(all) && Distinct(axes) && forall a :: a in axes ==> a in all
    requires Pairs(axes, LookupOf(all), s).Some?
    requires Pairs(axes, LookupOf(all), s) == Pairs(axes, LookupOf(all), t)
    ensures forall a :: a in axes ==> Chosen(s, a) == Chosen(t, a)
  {
    if axes != [] {
      var init, last := axes[..|axes| - 1], axes[|axes| - 1];
      assert axes == init + [last];
      PairsSlugs(init, LookupOf(all), s);
      PairsSlugs(init, LookupOf(all), t);
      forall a | a in init ensures a.slug != last.slug {
        assert a in axes;
      }
      WithAxisDetermines(Pairs(init, LookupOf(all), s).value, Pairs(init, LookupOf(all), t).value, last, all, s, t);
      PairsDetermine(init, all, s, t);
    }
  }

  lemma {:induction false} PairsSame(axes: seq<Axis>, lookup: Lookup, s: Selection, t: Selection)
    requires forall a :: a in axes ==> Chosen(s, a) == Chosen(t, a)
    ensures Pairs(axes, lookup, s) == Pairs(axes, lookup, t)
  {
    if axes != [] {
      PairsSame(axes[..|axes| - 1], lookup, s, t);
    }
  }

  lemma RenderedDecodes(ps: seq<(string, string)>, qs: seq<(string, string)>)
    ensures Rendered(ps) == Rendered(qs) <==> ps == qs
  {
    if ps != [] { JoinIsNotBase(ps); }
    if qs != [] { JoinIsNotBase(qs); }
    if ps != [] && qs != [] && Rendered(ps) == Rendered(qs) { JoinDecodes(ps, qs); }
  }

  /** A signature identifies the choice made on every axis. */
  lemma SignatureDecodes(axes: seq<Axis>, s: Selection, t: Selection)
    requires ValidAxes(axes) && Signature(axes, s).Some?
    ensures Signature(axes, s) == Signature(axes, t) <==> forall a :: a in axes ==> Chosen(s, a) == Chosen(t, a)
  {
    var sorted, lookup := SortedAxes(axes), LookupOf(axes);
    SortedAxesMembers(axes);
    SortedAxesValid(axes);
    if forall a :: a in axes ==> Chosen(s, a) == Chosen(t, a) {
      PairsSame(sorted, lookup, s, t);
    }
    if Signature(axes, s) == Signature(axes, t) {
      RenderedDecodes(Pairs(sorted, lookup, s).value, Pairs(sorted, lookup, t).value);
      PairsDetermine(sorted, axes, s, t);
    }
  }

  /** `base` is the signature of the empty selection and of nothing else. */
  lemma BaseIsEmpty(axes: seq<Axis>, s: Selection)
    requires Signature(axes, s).Some?
    ensures Signature(axes, s) == Some("base") <==> NothingChosen(axes, s)
    ensures Signature(axes, s) != Some("")
  {
    var pairs := Pairs(SortedAxes(axes), LookupOf(axes), s).value;
    SortedAxesMembers(axes);
    NoPairsNoChoice(SortedAxes(axes), LookupOf(axes), s);
    if pairs != [] { JoinIsNotBase(pairs); }
  }

  // ---------------------------------------------------------------- the index and the linear scan

  /** The selection a variant's own options make; a repeated axis id keeps its last option. */
  function OptionsAsSelection(axes: seq<Axis>, options: seq<string>): Selection
    requires |axes| == |options|
  {
    if axes == [] then map[]
    else OptionsAsSelection(axes[..|axes| - 1], options[..|axes| - 1])[axes[|axes| - 1].id := options[|axes| - 1]]
  }

  function VariantSignature(axes: seq<Axis>, variant: Variant): Option<string> {
    var sorted := SortedAxes(axes);
    if |variant.optionValueIds| != |sorted| then None
    else Signature(axes, OptionsAsSelection(sorted, variant.optionValueIds))
  }

  function IndexOf(axes: seq<Axis>, variants: seq<Variant>): map<string, Variant> {
    if variants == [] then map[]
    else
      var index := IndexOf(axes, variants[..|variants| - 1]);
      match VariantSignature(axes, variants[|variants| - 1])
      case None => index
      case Some(signature) =>
        if signature == "" then index else index[signature := variants[|variants| - 1]]
  }

  method IndexVariants(data: Data) returns (index: map<string, Variant>)
    ensures index == IndexOf(data.axes, data.variants)
  {
    index := map[];
    for i := 0 to |data.variants|
      invariant index == IndexOf(data.axes, data.variants[..i])
    {
      assert data.variants[..i + 1][..i] == data.variants[..i];
      var sorted := SortedAxes(data.axes);
      var variant := data.variants[i];
      if |variant.optionValueIds| == |sorted| {
        var signature := CanonicalVariantSignature(data.axes, OptionsAsSelection(sorted, variant.optionValueIds));
        if signature.Some? && signature.value != "" {
          index := index[signature.value := variant];
        }
      }
    }
    assert data.variants[..|data.variants|] == data.variants;
  }

  function Resolve(data: Data, selection: Selection): Option<Variant> {
    match Signature(data.axes, selection)
    case None => None
    case Some(signature) =>
      var index := IndexOf(data.axes, data.variants);
      if signature in index then Some(index[signature]) else None
  }

  /** The variant is chosen outright: every axis has a choice and it is the variant's. */
  predicate IsChosen(data: Data, variant: Variant, selection: Selection) {
    var sorted := SortedAxes(data.axes);
    && |variant.optionValueIds| == |sorted|
    && forall i :: 0 <= i < |sorted| ==> Chosen(selection, sorted[i]) == Some(variant.optionValueIds[i])
  }

  function Scan(data: Data, variants: seq<Variant>, selection: Selection): Option<Variant> {
    if variants == [] then None
    else if IsChosen(data, variants[0], selection) then Some(variants[0])
    else Scan(data, variants[1..], selection)
  }

  ghost predicate IdsDiffer(axes: seq<Axis>) {
    forall i, j :: 0 <= i < j < |axes| ==> axes[i].id != axes[j].id
  }

  lemma {:induction false} OptionsChosen(axes: seq<Axis>, options: seq<string>)
    requires |axes| == |options| && IdsDiffer(axes)
    requires forall i :: 0 <= i < |options| ==> options[i] != ""
    ensures forall i :: 0 <= i < |axes| ==> Chosen(OptionsAsSelection(axes, options), axes[i]) == Some(options[i])
  {
    if axes != [] {
      var n := |axes| - 1;
      OptionsChosen(axes[..n], options[..n]);
      forall i | 0 <= i < |axes| ensures Chosen(OptionsAsSelection(axes, options), axes[i]) == Some(options[i]) {
        if i < n { assert axes[..n][i] == axes[i]; }
      }
    }
  }

  lemma DistinctAxisIds(axes: seq<Axis>)
    requires ValidAxes(axes)
    ensures IdsDiffer(SortedAxes(axes))
  {
    SortedAxesValid(axes);
    var sorted := SortedAxes(axes);
    forall i, j | 0 <= i < j < |sorted| ensures sorted[i].id != sorted[j].id {
      assert sorted[i] in sorted && sorted[j] in sorted;
    }
  }

  /** The choices a variant's options make. */
  lemma VariantChooses(data: Data, v: Variant)
    requires ValidData(data) && v in data.variants
    ensures |v.optionValueIds| == |SortedAxes(data.axes)|
    ensures IsChosen(data, v, OptionsAsSelection(SortedAxes(data.axes), v.optionValueIds))
  {
    assert OptionsFit(SortedAxes(data.axes), v);
    var sorted := SortedAxes(data.axes);
    SortedAxesMembers(data.axes);
    DistinctAxisIds(data.axes);
    forall i | 0 <= i < |sorted| ensures v.optionValueIds[i] != "" {
      assert Offers(sorted[i], v.optionValueIds[i]) && sorted[i] in data.axes;
    }
    OptionsChosen(sorted, v.optionValueIds);
  }

  lemma {:induction false} ChosenPairs(axes: seq<Axis>, all: seq<Axis>, s: Selection)
    requires ValidAxes(all) && forall a :: a in axes ==> a in all
    requires forall a :: a in axes ==> Chosen(s, a).Some? && Offers(a, Chosen(s, a).value)
    ensures Pairs(axes, LookupOf(all), s).Some?
  {
    if axes != [] {
      var init, last := axes[..|axes| - 1], axes[|axes| - 1];
      assert axes == init + [last];
      ChosenPairs(init, all, s);
      LookupFinds(all);
      assert last in axes && last in all;
      var v :| Owns(last, v) && v.id == Chosen(s, last).value;
      assert Owns(LookupOf(all)[v.id].0, LookupOf(all)[v.id].1);
      assert LookupOf(all)[v.id].0 == last;
    }
  }

  lemma ChosenHasSignature(data: Data, v: Variant, s: Selection)
    requires ValidData(data) && v in data.variants && IsChosen(data, v, s)
    ensures Signature(data.axes, s).Some?
  {
    var sorted := SortedAxes(data.axes);
    SortedAxesMembers(data.axes);
    assert OptionsFit(sorted, v);
    forall a | a in sorted ensures Chosen(s, a).Some? && Offers(a, Chosen(s, a).value) {
      var i :| 0 <= i < |sorted| && sorted[i] == a;
      assert Offers(sorted[i], v.optionValueIds[i]);
    }
    ChosenPairs(sorted, data.axes, s);
  }

  /** What an axis asks of a selection: a value of its own where one is chosen, and one at all where it is required. */
  ghost predicate Accepts(axis: Axis, s: Selection) {
    if axis.id !in s || s[axis.id] == "" then !axis.required else Offers(axis, s[axis.id])
  }

  lemma LookupOffers(all: seq<Axis>, axis: Axis, id: string)
    requires ValidAxes(all) && axis in all
    ensures id in LookupOf(all) && LookupOf(all)[id].0.id == axis.id <==> Offers(axis, id)
  {
    LookupFinds(all);
    if v :| Owns(axis, v) && v.id == id {
      assert id in LookupOf(all);
      assert Owns(LookupOf(all)[id].0, LookupOf(all)[id].1);
    }
    if id in LookupOf(all) && LookupOf(all)[id].0.id == axis.id { LookupOwner(all, axis, id); }
  }

  lemma {:induction false} PairsExist(axes: seq<Axis>, all: seq<Axis>, s: Selection)
    requires ValidAxes(all) && forall a :: a in axes ==> a in all
    ensures Pairs(axes, LookupOf(all), s).Some? <==> forall a :: a in axes ==> Accepts(a, s)
  {
    if axes != [] {
      var init, last := axes[..|axes| - 1], axes[|axes| - 1];
      assert axes == init + [last];
      PairsExist(init, all, s);
      assert last in axes;
      if Chosen(s, last).Some? { LookupOffers(all, last, s[last.id]); }
      assert forall a :: a in axes <==> a in init || a == last;
    }
  }

  /** A selection has a signature exactly when every axis accepts it. */
  lemma SignatureExists(axes: seq<Axis>, s: Selection)
    requires ValidAxes(axes)
    ensures Signature(axes, s).Some? <==> forall a :: a in axes ==> Accepts(a, s)
  {
    SortedAxesMembers(axes);
    PairsExist(SortedAxes(axes), axes, s);
  }

  /** A selection carries a variant's signature exactly when it chooses that variant outright. */
  lemma SignatureMeansChosen(data: Data, v: Variant, s: Selection)
    requires ValidData(data) && v in data.variants
    ensures VariantSignature(data.axes, v).Some?
    ensures Signature(data.axes, s) == VariantSignature(data.axes, v) <==> IsChosen(data, v, s)
  {
    var sorted := SortedAxes(data.axes);
    assert OptionsFit(sorted, v);
    var own := OptionsAsSelection(sorted, v.optionValueIds);
    VariantChooses(data, v);
    ChosenHasSignature(data, v, own);
    SignatureDecodes(data.axes, own, s);
    SortedAxesMembers(data.axes);
    if IsChosen(data, v, s) {
      forall a | a in data.axes ensures Chosen(own, a) == Chosen(s, a) {
        var i :| 0 <= i < |sorted| && sorted[i] == a;
      }
    } else {
      if forall a :: a in data.axes ==> Chosen(own, a) == Chosen(s, a) {
        forall i | 0 <= i < |sorted| ensures Chosen(s, sorted[i]) == Some(v.optionValueIds[i]) {
          assert sorted[i] in data.axes;
        }
      }
    }
  }

  /** Every entry of the index is one of the variants, under its own signature. */
  lemma {:induction false} IndexIsSound(data: Data, variants: seq<Variant>)
    ensures forall k :: k in IndexOf(data.axes, variants) ==>
      IndexOf(data.axes, variants)[k] in variants && VariantSignature(data.axes, IndexOf(data.axes, variants)[k]) == Some(k)
  {
    if variants != [] {
      var init, last := variants[..|variants| - 1], variants[|variants| - 1];
      IndexIsSound(data, init);
      assert variants == init + [last];
    }
  }

  lemma VariantHasSignature(data: Data, v: Variant)
    requires ValidData(data) && v in data.variants
    ensures VariantSignature(data.axes, v).Some? && VariantSignature(data.axes, v).value != ""
  {
    SignatureMeansChosen(data, v, map[]);
    BaseIsEmpty(data.axes, OptionsAsSelection(SortedAxes(data.axes), v.optionValueIds));
  }

  /** Every variant's signature is in the index. */
  lemma {:induction false} IndexIsComplete(data: Data, variants: seq<Variant>, v: Variant)
    requires ValidData(data) && v in variants && forall w :: w in variants ==> w in data.variants
    ensures VariantSignature(data.axes, v).Some? && VariantSignature(data.axes, v).value in IndexOf(data.axes, variants)
  {
    var init, last := variants[..|variants| - 1], variants[|variants| - 1];
    assert variants == init + [last];
    VariantHasSignature(data, v);
    if v in init { IndexIsComplete(data, init, v); }
  }

  lemma {:induction false} ScanFinds(data: Data, variants: seq<Variant>, s: Selection)
    ensures Scan(data, variants, s).Some? ==> Scan(data, variants, s).value in variants && IsChosen(data, Scan(data, variants, s).value, s)
    ensures Scan(data, variants, s).None? ==> forall v :: v in variants ==> !IsChosen(data, v, s)
  {
    if variants != [] {
      ScanFinds(data, variants[1..], s);
      assert variants == [variants[0]] + variants[1..];
    }
  }

  lemma ChosenOnce(data: Data, v: Variant, w: Variant, s: Selection)
    requires ValidData(data) && v in data.variants && w in data.variants
    requires IsChosen(data, v, s) && IsChosen(data, w, s)
    ensures v == w
  {
    forall i | 0 <= i < |v.optionValueIds| ensures v.optionValueIds[i] == w.optionValueIds[i] {
      assert Some(v.optionValueIds[i]) == Some(w.optionValueIds[i]);
    }
    assert SameOptions(v, w);
  }

  /** Looking a selection up by signature is scanning the variants for it. */
  lemma ResolveIsScan(data: Data, s: Selection)
    requires ValidData(data)
    ensures Resolve(data, s) == Scan(data, data.variants, s)
  {
    ScanFinds(data, data.variants, s);
    IndexIsSound(data, data.variants);
    match Scan(data, data.variants, s)
    case Some(v) =>
      IndexIsComplete(data, data.variants, v);
      SignatureMeansChosen(data, v, s);
      var hit := IndexOf(data.axes, data.variants)[Signature(data.axes, s).value];
      SignatureMeansChosen(data, hit, s);
      ChosenOnce(data, v, hit, s);
    case None =>
      if Resolve(data, s).Some? {
        SignatureMeansChosen(data, Resolve(data, s).value, s);
      }
  }

  // ---------------------------------------------------------------- availability

  /** No choice contradicts the variant's options. */
  predicate MatchesSelection(data: Data, variant: Variant, selection: Selection) {
    var sorted := SortedAxes(data.axes);
    if |variant.optionValueIds| != |sorted| then |sorted| == 0
    else forall i :: 0 <= i < |sorted| ==>
           Chosen(selection, sorted[i]) == None || Chosen(selection, sorted[i]) == Some(variant.optionValueIds[i])
  }

  predicate InStockMatch(data: Data, selection: Selection) {
    exists i :: 0 <= i < |data.variants|
      && data.variants[i].availableQty > 0 && MatchesSelection(data, data.variants[i], selection)
  }

  function FindAxis(axes: seq<Axis>, id: string): Option<Axis> {
    if axes == [] then None else if axes[0].id == id then Some(axes[0]) else FindAxis(axes[1..], id)
  }

  /** Value ids of the axis that keep an in-stock match once chosen, whatever is chosen there now. */
  predicate Available(data: Data, selection: Selection, axisId: string, valueId: string) {
    var axis := FindAxis(data.axes, axisId);
    && axis.Some?
    && (exists i :: 0 <= i < |axis.value.values| && axis.value.values[i].id == valueId)
    && InStockMatch(data, selection[axisId := valueId])
  }

  ghost predicate OffersHere(sorted: seq<Axis>, v: Variant, selection: Selection, n: int, id: string) {
    && v.availableQty > 0 && |v.optionValueIds| == |sorted| && 0 <= n < |sorted| && v.optionValueIds[n] == id
    && forall i :: 0 <= i < |sorted| && i != n ==>
         sorted[i].id !in selection || selection[sorted[i].id] == "" || selection[sorted[i].id] == v.optionValueIds[i]
  }

  /**
   * What the filter is for: some variant in stock has this very value on the axis, and on every other axis
   * the value chosen there, if one is.
   */
  ghost predicate OfferedAt(data: Data, selection: Selection, n: int, id: string) {
    exists v :: v in data.variants && OffersHere(SortedAxes(data.axes), v, selection, n, id)
  }

  /** The variant contradicts no choice but, perhaps, the one on this axis. */
  ghost predicate MatchesBut(data: Data, v: Variant, selection: Selection, axis: Axis) {
    var sorted := SortedAxes(data.axes);
    && |v.optionValueIds| == |sorted|
    && forall i :: 0 <= i < |sorted| && sorted[i] != axis ==>
         Chosen(selection, sorted[i]) == None || Chosen(selection, sorted[i]) == Some(v.optionValueIds[i])
  }

  lemma {:induction false} FindAxisFinds(axes: seq<Axis>, axis: Axis)
    requires axis in axes && forall a :: a in axes && a.id == axis.id ==> a == axis
    ensures FindAxis(axes, axis.id) == Some(axis)
  {
    if axes[0].id != axis.id {
      assert axes == [axes[0]] + axes[1..];
      FindAxisFinds(axes[1..], axis);
    }
  }

  lemma ChoosingItsOption(data: Data, v: Variant, selection: Selection, n: nat)
    requires ValidData(data) && v in data.variants && n < |SortedAxes(data.axes)|
    requires MatchesBut(data, v, selection, SortedAxes(data.axes)[n]) && v.availableQty > 0
    ensures Available(data, selection, SortedAxes(data.axes)[n].id, v.optionValueIds[n])
  {
    var sorted := SortedAxes(data.axes);
    var axis, id := sorted[n], v.optionValueIds[n];
    SortedAxesMembers(data.axes);
    DistinctAxisIds(data.axes);
    FindAxisFinds(data.axes, axis);
    assert OptionsFit(sorted, v);
    var value :| Owns(axis, value) && value.id == id;
    var k :| 0 <= k < |axis.values| && axis.values[k] == value;
    forall i | 0 <= i < |sorted|
      ensures Chosen(selection[axis.id := id], sorted[i]) == None
           || Chosen(selection[axis.id := id], sorted[i]) == Some(v.optionValueIds[i])
    {
      if i == n {} else { assert sorted[i].id != axis.id; }
    }
    assert MatchesSelection(data, v, selection[axis.id := id]);
    var j :| 0 <= j < |data.variants| && data.variants[j] == v;
    assert Available(data, selection, axis.id, id);
  }

  lemma AvailableIsOffered(data: Data, selection: Selection, n: nat, id: string)
    requires ValidData(data) && n < |SortedAxes(data.axes)| && Available(data, selection, SortedAxes(data.axes)[n].id, id)
    ensures OfferedAt(data, selection, n, id)
  {
    var sorted := SortedAxes(data.axes);
    var axis, picked := sorted[n], selection[sorted[n].id := id];
    SortedAxesMembers(data.axes);
    DistinctAxisIds(data.axes);
    FindAxisFinds(data.axes, axis);
    var j :| 0 <= j < |axis.values| && axis.values[j].id == id;
    assert Owns(axis, axis.values[j]);
    var k :| 0 <= k < |data.variants| && data.variants[k].availableQty > 0
      && MatchesSelection(data, data.variants[k], picked);
    var v := data.variants[k];
    assert OptionsFit(sorted, v);
    assert Chosen(picked, sorted[n]) == Some(id);
    forall i | 0 <= i < |sorted| && i != n
      ensures sorted[i].id !in selection || selection[sorted[i].id] == "" || selection[sorted[i].id] == v.optionValueIds[i]
    {
      assert sorted[i].id != axis.id;
      assert Chosen(picked, sorted[i]) == Chosen(selection, sorted[i]);
    }
    assert OffersHere(sorted, v, selection, n, id);
  }

  lemma AvailableIs(data: Data, selection: Selection, n: nat, id: string)
    requires ValidData(data) && n < |SortedAxes(data.axes)|
    ensures Available(data, selection, SortedAxes(data.axes)[n].id, id) <==> OfferedAt(data, selection, n, id)
  {
    var sorted := SortedAxes(data.axes);
    DistinctAxisIds(data.axes);
    if OfferedAt(data, selection, n, id) {
      var v :| v in data.variants && OffersHere(sorted, v, selection, n, id);
      assert MatchesBut(data, v, selection, sorted[n]);
      ChoosingItsOption(data, v, selection, n);
    }
    if Available(data, selection, sorted[n].id, id) { AvailableIsOffered(data, selection, n, id); }
  }

  lemma {:induction false} FindAxisMissing(axes: seq<Axis>, id: string)
    ensures FindAxis(axes, id) == None <==> forall axis :: axis in axes ==> axis.id != id
  {
    if axes != [] {
      FindAxisMissing(axes[1..], id);
      HeadAndTail(axes);
    }
  }

  method AvailableValueIds(data: Data, selection: Selection, axisId: string) returns (available: set<string>)
    ensures forall id :: id in available <==> Available(data, selection, axisId, id)
    ensures (forall axis :: axis in data.axes ==> axis.id != axisId) ==> available == {}
    ensures ValidData(data) ==> forall n, id ::
      0 <= n < |SortedAxes(data.axes)| && SortedAxes(data.axes)[n].id == axisId ==>
        (id in available <==> OfferedAt(data, selection, n, id))
  {
    if ValidData(data) {
      forall n, id | 0 <= n < |SortedAxes(data.axes)| && SortedAxes(data.axes)[n].id == axisId
        ensures Available(data, selection, axisId, id) <==> OfferedAt(data, selection, n, id)
      {
        AvailableIs(data, selection, n, id);
      }
    }
    FindAxisMissing(data.axes, axisId);
    var axis := FindAxis(data.axes, axisId);
    available := {};
    if axis.None? { return; }
    var values := axis.value.values;
    for i := 0 to |values|
      invariant forall id :: id in available <==>
        (exists j :: 0 <= j < i && values[j].id == id) && InStockMatch(data, selection[axisId := id])
    {
      if InStockMatch(data, selection[axisId := values[i].id]) {
        available := available + {values[i].id};
      }
    }
  }

  ghost predicate OffersSome(data: Data, selection: Selection, axis: Axis) {
    exists id :: Available(data, selection, axis.id, id)
  }

  ghost predicate InStockBut(data: Data, selection: Selection, axis: Axis) {
    exists v :: v in data.variants && v.availableQty > 0 && MatchesBut(data, v, selection, axis)
  }

  lemma MatchOutlivesPick(data: Data, selection: Selection, axis: Axis, id: string)
    requires ValidData(data) && axis in data.axes && InStockMatch(data, selection[axis.id := id])
    ensures InStockBut(data, selection, axis)
  {
    var sorted, picked := SortedAxes(data.axes), selection[axis.id := id];
    SortedAxesMembers(data.axes);
    var k :| 0 <= k < |data.variants| && data.variants[k].availableQty > 0
      && MatchesSelection(data, data.variants[k], picked);
    var v := data.variants[k];
    assert v in data.variants;
    assert OptionsFit(sorted, v);
    forall i | 0 <= i < |sorted| && sorted[i] != axis
      ensures Chosen(selection, sorted[i]) == None || Chosen(selection, sorted[i]) == Some(v.optionValueIds[i])
    {
      assert sorted[i] in data.axes && sorted[i].id != axis.id;
      assert Chosen(picked, sorted[i]) == Chosen(selection, sorted[i]);
    }
    assert MatchesBut(data, v, selection, axis);
  }

  /** An axis offers a value exactly when some in-stock variant matches what is chosen on the other axes. */
  lemma AxisOffers(data: Data, selection: Selection, axis: Axis)
    requires ValidData(data) && axis in data.axes
    ensures OffersSome(data, selection, axis) <==> InStockBut(data, selection, axis)
  {
    var sorted := SortedAxes(data.axes);
    SortedAxesMembers(data.axes);
    if InStockBut(data, selection, axis) {
      var v :| v in data.variants && v.availableQty > 0 && MatchesBut(data, v, selection, axis);
      var n :| 0 <= n < |sorted| && sorted[n] == axis;
      ChoosingItsOption(data, v, selection, n);
    }
    if OffersSome(data, selection, axis) {
      var id :| Available(data, selection, axis.id, id);
      MatchOutlivesPick(data, selection, axis, id);
    }
  }

  /** No dead end: where some in-stock variant matches, every axis still offers an available value. */
  lemma EveryAxisOffers(data: Data, selection: Selection, axis: Axis)
    requires ValidData(data) && InStockMatch(data, selection) && axis in data.axes
    ensures exists id :: Available(data, selection, axis.id, id)
  {
    var k :| 0 <= k < |data.variants| && data.variants[k].availableQty > 0
      && MatchesSelection(data, data.variants[k], selection);
    var v := data.variants[k];
    assert v in data.variants;
    assert OptionsFit(SortedAxes(data.axes), v);
    assert MatchesBut(data, v, selection, axis);
    AxisOffers(data, selection, axis);
  }

  lemma CompleteResolves(data: Data, selection: Selection)
    requires ValidData(data) && InStockMatch(data, selection)
    requires forall axis :: axis in data.axes ==> Chosen(selection, axis).Some?
    ensures Resolve(data, selection).Some? && Resolve(data, selection).value in data.variants
    ensures Resolve(data, selection).value.availableQty > 0 && IsChosen(data, Resolve(data, selection).value, selection)
  {
    var sorted := SortedAxes(data.axes);
    SortedAxesMembers(data.axes);
    var k :| 0 <= k < |data.variants| && data.variants[k].availableQty > 0
      && MatchesSelection(data, data.variants[k], selection);
    var v := data.variants[k];
    assert v in data.variants;
    assert OptionsFit(sorted, v);
    forall i | 0 <= i < |sorted| ensures Chosen(selection, sorted[i]) == Some(v.optionValueIds[i]) {
      assert sorted[i] in data.axes;
    }
    ResolveIsScan(data, selection);
    ScanFinds(data, data.variants, selection);
    ChosenOnce(data, v, Scan(data, data.variants, selection).value, selection);
  }

  /** Buyer clicks, each on a value the filter left enabled. */
  predicate AllowedPicks(data: Data, selection: Selection, picks: seq<(string, string)>)
    decreases |picks|
  {
    picks == []
    || (Available(data, selection, picks[0].0, picks[0].1)
        && AllowedPicks(data, selection[picks[0].0 := picks[0].1], picks[1..]))
  }

  function AfterPicks(selection: Selection, picks: seq<(string, string)>): Selection
    decreases |picks|
  {
    if picks == [] then selection else AfterPicks(selection[picks[0].0 := picks[0].1], picks[1..])
  }

  /**
   * Over any run of allowed picks an in-stock match remains, every axis keeps offering a value, and
   * once every axis is chosen the index resolves to the in-stock variant with those very options.
   */
  lemma {:induction false} PickerHasNoDeadEnd(data: Data, selection: Selection, picks: seq<(string, string)>)
    requires ValidData(data) && InStockMatch(data, selection) && AllowedPicks(data, selection, picks)
    ensures var after := AfterPicks(selection, picks);
      && InStockMatch(data, after)
      && (forall axis :: axis in data.axes ==> exists id :: Available(data, after, axis.id, id))
      && ((forall axis :: axis in data.axes ==> Chosen(after, axis).Some?) ==>
            Resolve(data, after).Some? && Resolve(data, after).value in data.variants
            && Resolve(data, after).value.availableQty > 0 && IsChosen(data, Resolve(data, after).value, after))
    decreases |picks|
  {
    if picks == [] {
      forall axis | axis in data.axes ensures exists id :: Available(data, selection, axis.id, id) {
        EveryAxisOffers(data, selection, axis);
      }
      if forall axis :: axis in data.axes ==> Chosen(selection, axis).Some? {
        CompleteResolves(data, selection);
      }
    } else {
      PickerHasNoDeadEnd(data, selection[picks[0].0 := picks[0].1], picks[1..]);
    }
  }

  // ---------------------------------------------------------------- from a variant back to a selection

  function FindVariant(variants: seq<Variant>, id: string): Option<Variant> {
    if variants == [] then None else if variants[0].id == id then Some(variants[0]) else FindVariant(variants[1..], id)
  }

  function FindInStock(variants: seq<Variant>): Option<Variant> {
    if variants == [] then None
    else if variants[0].availableQty > 0 then Some(variants[0]) else FindInStock(variants[1..])
  }

  function DefaultVariant(data: Data): Option<Variant> {
    var explicit := if data.defaultVariantId.Some? && data.defaultVariantId.value != ""
                    then FindVariant(data.variants, data.defaultVariantId.value) else None;
    explicit.Or(FindInStock(data.variants)).Or(if data.variants == [] then None else Some(data.variants[0]))
  }

  function SelectionForVariant(data: Data, id: string): Option<Selection> {
    match FindVariant(data.variants, id)
    case None => None
    case Some(v) =>
      var sorted := SortedAxes(data.axes);
      if |v.optionValueIds| != |sorted| then (if sorted == [] then Some(map[]) else None)
      else Some(OptionsAsSelection(sorted, v.optionValueIds))
  }

  lemma {:induction false} FindVariantFinds(variants: seq<Variant>, id: string)
    ensures FindVariant(variants, id).Some? ==> FindVariant(variants, id).value in variants
    ensures FindVariant(variants, id).None? <==> forall v :: v in variants ==> v.id != id
  {
    if variants != [] {
      FindVariantFinds(variants[1..], id);
      assert variants == [variants[0]] + variants[1..];
    }
  }

  /** Round trip: selecting a variant, in stock or not, resolves to that variant. */
  lemma SelectionRoundTrip(data: Data, id: string)
    requires ValidData(data)
    ensures SelectionForVariant(data, id).None? <==> forall v :: v in data.variants ==> v.id != id
    ensures SelectionForVariant(data, id).Some? ==>
      Resolve(data, SelectionForVariant(data, id).value) == FindVariant(data.variants, id)
  {
    FindVariantFinds(data.variants, id);
    if FindVariant(data.variants, id).Some? {
      assert OptionsFit(SortedAxes(data.axes), FindVariant(data.variants, id).value);
      var v, s := FindVariant(data.variants, id).value, SelectionForVariant(data, id).value;
      VariantChooses(data, v);
      ResolveIsScan(data, s);
      ScanFinds(data, data.variants, s);
      ChosenOnce(data, v, Scan(data, data.variants, s).value, s);
    }
  }

  lemma {:induction false} FindInStockFinds(variants: seq<Variant>)
    ensures FindInStock(variants).Some? ==> FindInStock(variants).value in variants && FindInStock(variants).value.availableQty > 0
    ensures FindInStock(variants).None? ==> forall v :: v in variants ==> v.availableQty <= 0
  {
    if variants != [] {
      FindInStockFinds(variants[1..]);
      assert variants == [variants[0]] + variants[1..];
    }
  }

  lemma {:induction false} FindVariantHasId(variants: seq<Variant>, id: string)
    ensures FindVariant(variants, id).Some? ==> FindVariant(variants, id).value.id == id
  {
    if variants != [] { FindVariantHasId(variants[1..], id); }
  }

  /** The first variant of which something holds. */
  ghost predicate FirstOf(variants: seq<Variant>, k: int, holds: Variant -> bool) {
    0 <= k < |variants| && holds(variants[k]) && forall i :: 0 <= i < k ==> !holds(variants[i])
  }

  lemma {:induction false} FindVariantFirst(variants: seq<Variant>, id: string, k: int)
    requires FirstOf(variants, k, (v: Variant) => v.id == id)
    ensures FindVariant(variants, id) == Some(variants[k])
  {
    if k > 0 {
      assert variants[0].id != id && variants[1..][k - 1] == variants[k];
      FindVariantFirst(variants[1..], id, k - 1);
    }
  }

  lemma {:induction false} FindInStockFirst(variants: seq<Variant>, k: int)
    requires FirstOf(variants, k, (v: Variant) => v.availableQty > 0)
    ensures FindInStock(variants) == Some(variants[k])
  {
    if k > 0 {
      assert variants[0].availableQty <= 0 && variants[1..][k - 1] == variants[k];
      FindInStockFirst(variants[1..], k - 1);
    }
  }

  /** Which variant opens: the named default if it is there, else the first in stock, else the first. */
  lemma DefaultIs(data: Data)
    ensures forall k, id ::
      (data.defaultVariantId == Some(id) && id != "" && FirstOf(data.variants, k, (v: Variant) => v.id == id)) ==>
        DefaultVariant(data) == Some(data.variants[k])
    ensures (forall v :: v in data.variants ==> data.defaultVariantId != Some(v.id) || v.id == "") ==>
      && (forall k :: FirstOf(data.variants, k, (v: Variant) => v.availableQty > 0) ==>
            DefaultVariant(data) == Some(data.variants[k]))
      && ((forall v :: v in data.variants ==> v.availableQty <= 0) && data.variants != [] ==>
            DefaultVariant(data) == Some(data.variants[0]))
  {
    forall k, id | data.defaultVariantId == Some(id) && id != "" && FirstOf(data.variants, k, (v: Variant) => v.id == id)
      ensures DefaultVariant(data) == Some(data.variants[k])
    {
      FindVariantFirst(data.variants, id, k);
    }
    if data.defaultVariantId.Some? { FindVariantFinds(data.variants, data.defaultVariantId.value); }
    FindInStockFinds(data.variants);
    forall k | FirstOf(data.variants, k, (v: Variant) => v.availableQty > 0)
      ensures FindInStock(data.variants) == Some(data.variants[k])
    {
      FindInStockFirst(data.variants, k);
    }
  }

  /**
   * A picker opens on something whenever there is anything; without a known explicit default it opens
   * on stock if there is any, and opening on stock opens on a selection with no dead end.
   */
  lemma DefaultOpensLive(data: Data)
    requires ValidData(data)
    ensures DefaultVariant(data).None? <==> data.variants == []
    ensures DefaultVariant(data).Some? ==> DefaultVariant(data).value in data.variants
    ensures DefaultVariant(data).Some? && DefaultVariant(data).value.availableQty <= 0 ==>
      (data.defaultVariantId.Some? && DefaultVariant(data).value.id == data.defaultVariantId.value)
      || forall v :: v in data.variants ==> v.availableQty <= 0
    ensures DefaultVariant(data).Some? && DefaultVariant(data).value.availableQty > 0 ==>
      |DefaultVariant(data).value.optionValueIds| == |SortedAxes(data.axes)|
      && InStockMatch(data, OptionsAsSelection(SortedAxes(data.axes), DefaultVariant(data).value.optionValueIds))
  {
    FindInStockFinds(data.variants);
    if data.defaultVariantId.Some? {
      FindVariantFinds(data.variants, data.defaultVariantId.value);
      FindVariantHasId(data.variants, data.defaultVariantId.value);
    }
    if DefaultVariant(data).Some? {
      var v := DefaultVariant(data).value;
      VariantChooses(data, v);
      var k :| 0 <= k < |data.variants| && data.variants[k] == v;
      assert MatchesSelection(data, data.variants[k], OptionsAsSelection(SortedAxes(data.axes), v.optionValueIds));
    }
  }

  /** The two variants have the same options, except perhaps on this axis. */
  ghost predicate DifferOnlyOn(data: Data, v: Variant, w: Variant, axis: Axis) {
    var sorted := SortedAxes(data.axes);
    && |v.optionValueIds| == |w.optionValueIds| == |sorted|
    && forall i :: 0 <= i < |sorted| && sorted[i] != axis ==> v.optionValueIds[i] == w.optionValueIds[i]
  }

  /**
   * On whatever variant the picker opens, sold out or not, an axis offers a value exactly when some
   * in-stock variant differs from it on that axis at most.
   */
  lemma OpeningOffers(data: Data, v: Variant, axis: Axis)
    requires ValidData(data) && v in data.variants && axis in data.axes
    ensures |v.optionValueIds| == |SortedAxes(data.axes)|
    ensures OffersSome(data, OptionsAsSelection(SortedAxes(data.axes), v.optionValueIds), axis)
       <==> exists w :: w in data.variants && w.availableQty > 0 && DifferOnlyOn(data, v, w, axis)
  {
    VariantChooses(data, v);
    var opening := OptionsAsSelection(SortedAxes(data.axes), v.optionValueIds);
    AxisOffers(data, opening, axis);
    forall w | w in data.variants ensures MatchesBut(data, w, opening, axis) <==> DifferOnlyOn(data, v, w, axis) {
      assert OptionsFit(SortedAxes(data.axes), w);
    }
  }

  /** A sold-out default that shares no option with the only variant in stock leaves nothing to pick on either axis. */
  lemma SoldOutDefaultStrands(data: Data, v: Variant, w: Variant, axis: Axis)
    requires ValidData(data) && |data.axes| == 2 && data.variants == [v, w] && data.defaultVariantId == Some(v.id)
    requires v.id != "" && v.availableQty <= 0 && axis in data.axes
    requires |v.optionValueIds| == |w.optionValueIds| == 2
    requires v.optionValueIds[0] != w.optionValueIds[0] && v.optionValueIds[1] != w.optionValueIds[1]
    ensures DefaultVariant(data) == Some(v)
    ensures |SortedAxes(data.axes)| == |v.optionValueIds|
    ensures !OffersSome(data, OptionsAsSelection(SortedAxes(data.axes), v.optionValueIds), axis)
  {
    OpeningOffers(data, v, axis);
    DistinctAxisIds(data.axes);
    assert SortedAxes(data.axes)[0].id != SortedAxes(data.axes)[1].id;
    assert !DifferOnlyOn(data, v, w, axis);
  }

  const SIZES := Axis("s", "size", 0, true, [OptionValue("s1", "small"), OptionValue("s2", "large")])
  const COLOURS := Axis("c", "colour", 1, true, [OptionValue("c1", "blue"), OptionValue("c2", "red")])
  const SOLD_OUT := Variant("v1", ["s1", "c1"], 0)
  const IN_STOCK := Variant("v2", ["s2", "c2"], 1)
  const STRANDED := Data([SIZES, COLOURS], [SOLD_OUT, IN_STOCK], Some("v1"))

  lemma StrandedAxes()
    ensures SortedAxes(STRANDED.axes) == [SIZES, COLOURS] && ValidAxes(STRANDED.axes)
  {
    assert [SIZES, COLOURS][1..] == [COLOURS] && [COLOURS][1..] == [];
    assert SortedAxes([COLOURS]) == Insert(COLOURS, []) == [COLOURS];
    assert Insert(SIZES, [COLOURS]) == [SIZES, COLOURS];
    forall v, axis | Owns(axis, v) && axis in STRANDED.axes
      ensures (axis == SIZES && (v == SIZES.values[0] || v == SIZES.values[1]))
           || (axis == COLOURS && (v == COLOURS.values[0] || v == COLOURS.values[1]))
    {
    }
  }

  lemma StrandedFits()
    ensures OptionsFit([SIZES, COLOURS], SOLD_OUT) && OptionsFit([SIZES, COLOURS], IN_STOCK)
  {
    assert Owns(SIZES, SIZES.values[0]) && Owns(SIZES, SIZES.values[1]);
    assert Owns(COLOURS, COLOURS.values[0]) && Owns(COLOURS, COLOURS.values[1]);
  }

  lemma StrandedIsValid()
    ensures ValidData(STRANDED)
    ensures SOLD_OUT.optionValueIds[0] != IN_STOCK.optionValueIds[0]
    ensures SOLD_OUT.optionValueIds[1] != IN_STOCK.optionValueIds[1]
  {
    StrandedAxes();
    StrandedFits();
    assert !SameOptions(SOLD_OUT, IN_STOCK) && !SameOptions(IN_STOCK, SOLD_OUT);
  }

  /** A catalog in which that happens. */
  lemma StrandedIsReal(axis: Axis)
    requires axis in STRANDED.axes
    ensures ValidData(STRANDED) && DefaultVariant(STRANDED) == Some(SOLD_OUT)
    ensures |SortedAxes(STRANDED.axes)| == |SOLD_OUT.optionValueIds|
    ensures !OffersSome(STRANDED, OptionsAsSelection(SortedAxes(STRANDED.axes), SOLD_OUT.optionValueIds), axis)
  {
    StrandedIsValid();
    assert STRANDED.defaultVariantId == Some(SOLD_OUT.id) && SOLD_OUT.id != "";
    SoldOutDefaultStrands(STRANDED, SOLD_OUT, IN_STOCK, axis);
  }
}
