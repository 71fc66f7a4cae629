/**
 * Saved dock layouts: trees of groups and tab strips, and the pruning of retired panels.
 * Pruning several times over is pruning once, unless a strip slips onto another tab on the way.
 */
module DockLayout {
  import opened Prelude

  datatype Panel = Panel(id: string, kind: string, title: string)

  datatype Direction = Row | Col

  datatype Node =
    | Tabs(id: string, activePanelId: string, panels: seq<Panel>, size: Option<int>)
    | Group(id: string, direction: Direction, children: seq<Node>, size: Option<int>)

  datatype Floating = Floating(id: string, x: int, y: int, width: int, height: int,
                               activePanelId: string, panels: seq<Panel>)

  datatype Layout = Layout(schemaVersion: int, root: Node, floating: Option<seq<Floating>>)

  // ---------------------------------------------------------------- panels and strips

  /** A panel answers to its id and to its type. */
  predicate Named(p: Panel, ids: set<string>) {
    p.id in ids || p.kind in ids
  }

  predicate Holds(panels: seq<Panel>, name: string) {
    exists i :: 0 <= i < |panels| && Named(panels[i], {name})
  }

  predicate HasId(panels: seq<Panel>, id: string) {
    exists i :: 0 <= i < |panels| && panels[i].id == id
  }

  function Keep(panels: seq<Panel>, ids: set<string>): seq<Panel> {
    if panels == [] then []
    else (if Named(panels[0], ids) then [] else [panels[0]]) + Keep(panels[1..], ids)
  }

  /** The selected tab after a prune: the old one if it survived, else the first survivor. */
  function Reselect(active: string, panels: seq<Panel>): string
    requires panels != []
  {
    if HasId(panels, active) then active else panels[0].id
  }

  // ---------------------------------------------------------------- pruning

  function WithSize(n: Node, outer: Option<int>): Node {
    n.(size := outer.Or(n.size))
  }

  function Listed(m: Option<Node>): seq<Node> {
    match m case None => [] case Some(n) => [n]
  }

  /** A group with its surviving children: nothing, the lone survivor in the group's slot, or a group. */
  function Regrouped(n: Node, kept: seq<Node>): Option<Node>
    requires n.Group?
  {
    if kept == [] then None
    else if |kept| == 1 then Some(WithSize(kept[0], n.size))
    else Some(n.(children := kept))
  }

  /** Removes every panel named by `ids`; with a singleton this is the source's one-id pass. */
  function Prune(n: Node, ids: set<string>): Option<Node>
    decreases n, 1
  {
    match n
    case Tabs(_, active, panels, _) =>
      var kept := Keep(panels, ids);
      if kept == [] then None else Some(n.(panels := kept, activePanelId := Reselect(active, kept)))
    case Group(_, _, children, _) => Regrouped(n, PruneAll(children, ids))
  }

  function PruneAll(nodes: seq<Node>, ids: set<string>): seq<Node>
    decreases nodes, 0
  {
    if nodes == [] then [] else Listed(Prune(nodes[0], ids)) + PruneAll(nodes[1..], ids)
  }

  /** The source's reduce: one pass per id, giving up as soon as nothing is left. */
  function PruneEach(n: Node, ids: seq<string>): Option<Node>
    decreases |ids|
  {
    if ids == [] then Some(n)
    else match Prune(n, {ids[0]}) case None => None case Some(m) => PruneEach(m, ids[1..])
  }

  /** The same reduce when each pass removes a set of panels. */
  function Passes(n: Node, passes: seq<set<string>>): Option<Node>
    decreases |passes|
  {
    if passes == [] then Some(n)
    else match Prune(n, passes[0]) case None => None case Some(m) => Passes(m, passes[1..])
  }

  function PassesAll(nodes: seq<Node>, passes: seq<set<string>>): seq<Node>
    decreases |passes|
  {
    if passes == [] then nodes else PassesAll(PruneAll(nodes, passes[0]), passes[1..])
  }

  function Union(passes: seq<set<string>>): set<string> {
    if passes == [] then {} else passes[0] + Union(passes[1..])
  }

  function Singletons(ids: seq<string>): seq<set<string>> {
    if ids == [] then [] else [{ids[0]}] + Singletons(ids[1..])
  }

  ghost function SetOf(ids: seq<string>): set<string> {
    set id | id in ids
  }

  lemma {:induction false} UnionOfSingletons(ids: seq<string>)
    ensures Union(Singletons(ids)) == SetOf(ids) && (Singletons(ids) == [] <==> ids == [])
  {
    if ids != [] {
      UnionOfSingletons(ids[1..]);
      assert ids == [ids[0]] + ids[1..];
    }
  }

  lemma {:induction false} EachIsPasses(n: Node, ids: seq<string>)
    ensures PruneEach(n, ids) == Passes(n, Singletons(ids))
    decreases |ids|
  {
    if ids != [] && Prune(n, {ids[0]}).Some? {
      EachIsPasses(Prune(n, {ids[0]}).value, ids[1..]);
    }
  }

  // ---------------------------------------------------------------- which strips slip

  /**
   * The strip ends on another tab than one pass would select: at some pass the selection is lost, and
   * the head that takes it has a namesake which outlives every pass without ending up at the head.
   */
  predicate Slips(panels: seq<Panel>, active: string, passes: seq<set<string>>)
    decreases |passes|
  {
    && passes != []
    && var one, all := Keep(panels, passes[0]), Keep(panels, Union(passes));
    && one != [] && all != []
    && if HasId(one, active) then Slips(one, active, passes[1..])
       else if HasId(all, one[0].id) then one[0].id != all[0].id
       else Slips(one, one[0].id, passes[1..])
  }

  predicate AnySlips(n: Node, passes: seq<set<string>>)
    decreases n, 1
  {
    match n
    case Tabs(_, active, panels, _) => Slips(panels, active, passes)
    case Group(_, _, children, _) => AnySlipsIn(children, passes)
  }

  predicate AnySlipsIn(nodes: seq<Node>, passes: seq<set<string>>)
    decreases nodes, 0
  {
    nodes != [] && (AnySlips(nodes[0], passes) || AnySlipsIn(nodes[1..], passes))
  }

  lemma LastPassFits(panels: seq<Panel>, active: string, ids: set<string>)
    ensures !Slips(panels, active, [ids])
  {
    assert [ids][1..] == [] && Union([ids]) == ids + {} == ids;
    var kept := Keep(panels, ids);
    if kept != [] { assert HasId(kept, kept[0].id); }
  }

  lemma {:induction false} KeepKeep(panels: seq<Panel>, a: set<string>, b: set<string>)
    ensures Keep(Keep(panels, a), b) == Keep(panels, a + b)
  {
    if panels != [] {
      KeepKeep(panels[1..], a, b);
      var head := if Named(panels[0], a) then [] else [panels[0]];
      var rest := Keep(panels[1..], a);
      if head == [] {
        assert head + rest == rest;
      } else {
        assert (head + rest)[1..] == rest;
      }
    }
  }

  /** With two passes, what slips can be read off the two sets of survivors. */
  lemma TwoPassSlip(panels: seq<Panel>, active: string, a: set<string>, b: set<string>)
    ensures var one, both := Keep(panels, a), Keep(panels, a + b);
      Slips(panels, active, [a, b]) <==>
        one != [] && both != [] && !HasId(one, active) && HasId(both, one[0].id) && one[0].id != both[0].id
  {
    KeepKeep(panels, a, b);
    var one := Keep(panels, a);
    assert [a, b][1..] == [b] && Union([b]) == b + {} == b;
    assert Union([a, b]) == a + b;
    if one != [] && Keep(one, b) != [] {
      LastPassFits(one, active, b);
      LastPassFits(one, one[0].id, b);
    }
  }

  lemma {:induction false} KeepConcat(xs: seq<Panel>, ys: seq<Panel>, ids: set<string>)
    ensures Keep(xs + ys, ids) == Keep(xs, ids) + Keep(ys, ids)
  {
    if xs == [] {
      ConcatEmpty(ys);
    } else {
      ConcatHead(xs, ys);
      KeepConcat(xs[1..], ys, ids);
      ConcatAssociates(if Named(xs[0], ids) then [] else [xs[0]], Keep(xs[1..], ids), Keep(ys, ids));
    }
  }

  /** What a removal keeps, said of the panels' own fields: it drops those whose id or type is named, in place. */
  lemma {:induction false} KeepIs(xs: seq<Panel>, p: Panel, ys: seq<Panel>, ids: set<string>)
    ensures Keep([], ids) == []
    ensures Keep(xs + [p] + ys, ids)
         == Keep(xs, ids) + (if p.id in ids || p.kind in ids then [] else [p]) + Keep(ys, ids)
  {
    KeepConcat(xs + [p], ys, ids);
    KeepConcat(xs, [p], ids);
    assert [p][1..] == [];
  }

  /** A search by name finds an id or a type. */
  lemma HoldsMeans(panels: seq<Panel>, name: string)
    ensures Holds(panels, name) <==> exists p :: p in panels && (p.id == name || p.kind == name)
  {
    if p :| p in panels && (p.id == name || p.kind == name) {
      var i :| 0 <= i < |panels| && panels[i] == p;
      assert Named(panels[i], {name});
    }
  }

  lemma {:induction false} KeepMembers(panels: seq<Panel>, ids: set<string>)
    ensures forall p :: p in Keep(panels, ids) <==> p in panels && !Named(p, ids)
    ensures |Keep(panels, ids)| <= |panels|
  {
    if panels != [] {
      KeepMembers(panels[1..], ids);
      assert panels == [panels[0]] + panels[1..];
    }
  }

  /** An id that survives a removal was there before it. */
  lemma KeepHasId(panels: seq<Panel>, ids: set<string>, id: string)
    requires HasId(Keep(panels, ids), id)
    ensures HasId(panels, id)
  {
    var kept := Keep(panels, ids);
    var i :| 0 <= i < |kept| && kept[i].id == id;
    KeepMembers(panels, ids);
    assert kept[i] in kept && kept[i] in panels;
  }

  lemma {:induction false} SurvivorNeverSlips(panels: seq<Panel>, active: string, passes: seq<set<string>>)
    requires HasId(Keep(panels, Union(passes)), active)
    ensures !Slips(panels, active, passes)
    decreases |passes|
  {
    if passes != [] {
      var one := Keep(panels, passes[0]);
      KeepKeep(panels, passes[0], Union(passes[1..]));
      KeepHasId(one, Union(passes[1..]), active);
      SurvivorNeverSlips(one, active, passes[1..]);
    }
  }

  /** Both gone, or both there with the same size. */
  ghost predicate Alike(m: Option<Node>, k: Option<Node>) {
    (m.None? <==> k.None?) && (m.Some? ==> m.value.size == k.value.size)
  }

  /** One strip: several passes select what one pass selects exactly unless the strip slips. */
  lemma {:induction false} StripPasses(n: Node, passes: seq<set<string>>)
    requires n.Tabs? && passes != []
    ensures Alike(Passes(n, passes), Prune(n, Union(passes)))
    ensures Passes(n, passes) == Prune(n, Union(passes)) <==> !Slips(n.panels, n.activePanelId, passes)
    decreases |passes|
  {
    var one, rest := Keep(n.panels, passes[0]), passes[1..];
    KeepKeep(n.panels, passes[0], Union(rest));
    if rest == [] {
      assert passes == [passes[0]] && Union(passes) == passes[0] + {} == passes[0];
      LastPassFits(n.panels, n.activePanelId, passes[0]);
    } else if one != [] {
      var m := Prune(n, passes[0]).value;
      StripPasses(m, rest);
      var all := Keep(one, Union(rest));
      if all != [] && !HasId(one, n.activePanelId) {
        if HasId(all, n.activePanelId) { KeepHasId(one, Union(rest), n.activePanelId); }
        if HasId(all, one[0].id) { SurvivorNeverSlips(one, one[0].id, rest); }
      }
    }
  }

  // ---------------------------------------------------------------- many passes over a tree

  ghost predicate AllAlike(ms: seq<Node>, ks: seq<Node>) {
    |ms| == |ks| && forall i :: 0 <= i < |ms| ==> ms[i].size == ks[i].size
  }

  function Resized(m: Option<Node>, outer: Option<int>): Option<Node> {
    match m case None => None case Some(n) => Some(WithSize(n, outer))
  }

  lemma PruneCommutesWithSize(n: Node, outer: Option<int>, ids: set<string>)
    ensures Prune(WithSize(n, outer), ids) == Resized(Prune(n, ids), outer)
  {
  }

  lemma {:induction false} PassesCommuteWithSize(n: Node, outer: Option<int>, passes: seq<set<string>>)
    ensures Passes(WithSize(n, outer), passes) == Resized(Passes(n, passes), outer)
    decreases |passes|
  {
    if passes != [] {
      PruneCommutesWithSize(n, outer, passes[0]);
      if Prune(n, passes[0]).Some? { PassesCommuteWithSize(Prune(n, passes[0]).value, outer, passes[1..]); }
    }
  }

  lemma {:induction false} PruneAllConcat(xs: seq<Node>, ys: seq<Node>, ids: set<string>)
    ensures PruneAll(xs + ys, ids) == PruneAll(xs, ids) + PruneAll(ys, ids)
  {
    if xs == [] {
      assert xs + ys == ys;
    } else {
      ConcatHead(xs, ys);
      PruneAllConcat(xs[1..], ys, ids);
      ConcatAssociates(Listed(Prune(xs[0], ids)), PruneAll(xs[1..], ids), PruneAll(ys, ids));
    }
  }

  lemma {:induction false} PassesAllConcat(xs: seq<Node>, ys: seq<Node>, passes: seq<set<string>>)
    ensures PassesAll(xs + ys, passes) == PassesAll(xs, passes) + PassesAll(ys, passes)
    decreases |passes|
  {
    if passes != [] {
      PruneAllConcat(xs, ys, passes[0]);
      PassesAllConcat(PruneAll(xs, passes[0]), PruneAll(ys, passes[0]), passes[1..]);
    }
  }

  lemma {:induction false} PassesNothing(passes: seq<set<string>>)
    ensures PassesAll([], passes) == []
    decreases |passes|
  {
    if passes != [] { PassesNothing(passes[1..]); }
  }

  lemma {:induction false} PassesOne(n: Node, passes: seq<set<string>>)
    ensures PassesAll([n], passes) == Listed(Passes(n, passes))
    decreases |passes|
  {
    if passes != [] {
      assert PruneAll([n], passes[0]) == Listed(Prune(n, passes[0]));
      match Prune(n, passes[0])
      case None => PassesNothing(passes[1..]);
      case Some(m) => PassesOne(m, passes[1..]);
    }
  }

  /** A group is rebuilt once from what all the passes leave of its children. */
  lemma {:induction false} GroupPasses(n: Node, passes: seq<set<string>>)
    requires n.Group? && passes != []
    ensures Passes(n, passes) == Regrouped(n, PassesAll(n.children, passes))
    decreases |passes|
  {
    var one, rest := PruneAll(n.children, passes[0]), passes[1..];
    if one == [] {
      PassesNothing(rest);
    } else if |one| == 1 {
      assert one == [one[0]];
      PassesCommuteWithSize(one[0], n.size, rest);
      PassesOne(one[0], rest);
    } else if rest != [] {
      GroupPasses(n.(children := one), rest);
    }
  }

  lemma SizeAside(x: Node, y: Node, outer: Option<int>)
    requires x.size == y.size
    ensures WithSize(x, outer) == WithSize(y, outer) <==> x == y
  {
    assert x == WithSize(x, outer).(size := x.size) && y == WithSize(y, outer).(size := y.size);
  }

  lemma RegroupedAlike(n: Node, xs: seq<Node>, ys: seq<Node>)
    requires n.Group? && AllAlike(xs, ys)
    ensures Alike(Regrouped(n, xs), Regrouped(n, ys))
    ensures Regrouped(n, xs) == Regrouped(n, ys) <==> xs == ys
  {
    if |xs| == 1 {
      assert xs == [xs[0]] && ys == [ys[0]];
      SizeAside(xs[0], ys[0], n.size);
    }
  }

  lemma SameLengthHeads(a: seq<Node>, xs: seq<Node>, b: seq<Node>, ys: seq<Node>)
    requires AllAlike(a, b) && AllAlike(xs, ys)
    ensures AllAlike(a + xs, b + ys)
    ensures a + xs == b + ys <==> a == b && xs == ys
  {
    if a + xs == b + ys {
      assert a == (a + xs)[..|a|] && b == (b + ys)[..|b|];
      assert xs == (a + xs)[|a|..] && ys == (b + ys)[|b|..];
    }
  }

  /**
   * Several passes are one pass removing all they name, inherited sizes and selected tabs included,
   * exactly unless some strip slips; what survives, and at which size, agrees even then.
   */
  lemma {:induction false} PassesAreOne(n: Node, passes: seq<set<string>>)
    requires passes != []
    ensures Alike(Passes(n, passes), Prune(n, Union(passes)))
    ensures Passes(n, passes) == Prune(n, Union(passes)) <==> !AnySlips(n, passes)
    decreases n, 1
  {
    match n
    case Tabs(_, _, _, _) => StripPasses(n, passes);
    case Group(_, _, children, _) =>
      GroupPasses(n, passes);
      PassesAllAreOne(children, passes);
      RegroupedAlike(n, PassesAll(children, passes), PruneAll(children, Union(passes)));
  }

  lemma {:induction false} PassesAllAreOne(nodes: seq<Node>, passes: seq<set<string>>)
    requires passes != []
    ensures AllAlike(PassesAll(nodes, passes), PruneAll(nodes, Union(passes)))
    ensures PassesAll(nodes, passes) == PruneAll(nodes, Union(passes)) <==> !AnySlipsIn(nodes, passes)
    decreases nodes, 0
  {
    if nodes == [] {
      PassesNothing(passes);
    } else {
      PassesAreOne(nodes[0], passes);
      PassesAllAreOne(nodes[1..], passes);
      assert nodes == [nodes[0]] + nodes[1..];
      PassesAllConcat([nodes[0]], nodes[1..], passes);
      PassesOne(nodes[0], passes);
      SameLengthHeads(Listed(Passes(nodes[0], passes)), PassesAll(nodes[1..], passes),
                      Listed(Prune(nodes[0], Union(passes))), PruneAll(nodes[1..], Union(passes)));
    }
  }

  // ---------------------------------------------------------------- the reduce over a list of ids

  lemma OnePass(n: Node, ids: set<string>)
    ensures Passes(n, [ids]) == Prune(n, ids)
  {
    assert [ids][1..] == [];
  }

  function PruneThen(m: Option<Node>, ids: set<string>): Option<Node> {
    match m case None => None case Some(n) => Prune(n, ids)
  }

  /** Two passes are one exactly unless some strip slips between them. */
  lemma PruneFusion(n: Node, a: set<string>, b: set<string>)
    ensures PruneThen(Prune(n, a), b) == Prune(n, a + b) <==> !AnySlips(n, [a, b])
  {
    assert [a, b][1..] == [b] && [b][1..] == [];
    assert Union([b]) == b + {} == b && Union([a, b]) == a + b;
    PassesAreOne(n, [a, b]);
    match Prune(n, a) case None => case Some(m) => OnePass(m, b);
  }

  /** Removing ids one after another is one pass removing them all, exactly unless some strip slips. */
  lemma PruneEachIsOnePass(n: Node, ids: seq<string>)
    requires ids != []
    ensures PruneEach(n, ids) == Prune(n, SetOf(ids)) <==> !AnySlips(n, Singletons(ids))
  {
    UnionOfSingletons(ids);
    EachIsPasses(n, ids);
    PassesAreOne(n, Singletons(ids));
  }

  // ---------------------------------------------------------------- unique ids

  ghost predicate UniqueIds(panels: seq<Panel>) {
    forall i, j :: 0 <= i < j < |panels| ==> panels[i].id != panels[j].id
  }

  /** Panel ids are unique within each strip. */
  ghost predicate UniqueInStrips(n: Node) {
    match n
    case Tabs(_, _, panels, _) => UniqueIds(panels)
    case Group(_, _, children, _) => forall c :: c in children ==> UniqueInStrips(c)
  }

  lemma {:induction false} KeepUnique(panels: seq<Panel>, ids: set<string>)
    requires UniqueIds(panels)
    ensures UniqueIds(Keep(panels, ids))
  {
    if panels != [] {
      KeepUnique(panels[1..], ids);
      KeepMembers(panels[1..], ids);
      var rest := Keep(panels[1..], ids);
      forall p | p in rest ensures p.id != panels[0].id {
        assert p in panels[1..];
      }
    }
  }

  /** With unique ids a head has no namesake: it stays the head for as long as its id is there. */
  lemma HeadKeepsId(panels: seq<Panel>, ids: set<string>)
    requires UniqueIds(panels) && panels != [] && HasId(Keep(panels, ids), panels[0].id)
    ensures Keep(panels, ids)[0].id == panels[0].id
  {
    var kept := Keep(panels, ids);
    var i :| 0 <= i < |kept| && kept[i].id == panels[0].id;
    KeepMembers(panels, ids);
    assert kept[i] in kept;
    var j :| 0 <= j < |panels| && panels[j] == kept[i];
    assert j == 0;
  }

  lemma {:induction false} UniqueStripFits(panels: seq<Panel>, active: string, passes: seq<set<string>>)
    requires UniqueIds(panels)
    ensures !Slips(panels, active, passes)
    decreases |passes|
  {
    if passes != [] {
      var one, rest := Keep(panels, passes[0]), Union(passes[1..]);
      KeepUnique(panels, passes[0]);
      KeepKeep(panels, passes[0], rest);
      if one != [] {
        UniqueStripFits(one, Reselect(active, one), passes[1..]);
        if HasId(Keep(one, rest), one[0].id) { HeadKeepsId(one, rest); }
      }
    }
  }

  /** Unique ids are enough: no strip slips. */
  lemma {:induction false} UniqueNeverSlips(n: Node, passes: seq<set<string>>)
    requires UniqueInStrips(n)
    ensures !AnySlips(n, passes)
    decreases n, 1
  {
    match n
    case Tabs(_, active, panels, _) => UniqueStripFits(panels, active, passes);
    case Group(_, _, children, _) => UniqueAllNeverSlip(children, passes);
  }

  lemma {:induction false} UniqueAllNeverSlip(nodes: seq<Node>, passes: seq<set<string>>)
    requires forall c :: c in nodes ==> UniqueInStrips(c)
    ensures !AnySlipsIn(nodes, passes)
    decreases nodes, 0
  {
    if nodes != [] {
      UniqueNeverSlips(nodes[0], passes);
      UniqueAllNeverSlip(nodes[1..], passes);
    }
  }

  /** With unique ids the order of the retired ids is irrelevant. */
  lemma RetiredOrderIrrelevant(n: Node, ids: seq<string>, shuffled: seq<string>)
    requires UniqueInStrips(n) && ids != [] && SetOf(ids) == SetOf(shuffled)
    ensures PruneEach(n, ids) == PruneEach(n, shuffled)
  {
    assert shuffled != [] by { assert ids[0] in SetOf(shuffled); }
    PruneEachIsOnePass(n, ids);
    PruneEachIsOnePass(n, shuffled);
    UniqueNeverSlips(n, Singletons(ids));
    UniqueNeverSlips(n, Singletons(shuffled));
  }
}
