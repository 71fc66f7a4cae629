/**
 * What pruning and migration do to a whole saved layout, read off its tab strips in reading order.
 */
module DockMigration {
  import opened Prelude
  import opened DockLayout

  // ---------------------------------------------------------------- reading order

  /** The tab strips of a tree, left to right. */
  function Strips(n: Node): seq<seq<Panel>>
    decreases n, 1
  {
    match n
    case Tabs(_, _, panels, _) => [panels]
    case Group(_, _, children, _) => StripsOf(children)
  }

  function StripsOf(nodes: seq<Node>): seq<seq<Panel>>
    decreases nodes, 0
  {
    if nodes == [] then [] else Strips(nodes[0]) + StripsOf(nodes[1..])
  }

  function FloatingStrips(groups: seq<Floating>): seq<seq<Panel>> {
    if groups == [] then [] else [groups[0].panels] + FloatingStrips(groups[1..])
  }

  function AllStrips(l: Layout): seq<seq<Panel>> {
    Strips(l.root) + FloatingStrips(l.floating.GetOr([]))
  }

  /** The strips left when the named panels go, and emptied strips with them. */
  function KeptStrips(strips: seq<seq<Panel>>, ids: set<string>): seq<seq<Panel>> {
    if strips == [] then []
    else (if Keep(strips[0], ids) == [] then [] else [Keep(strips[0], ids)]) + KeptStrips(strips[1..], ids)
  }

  predicate AnyHolds(strips: seq<seq<Panel>>, name: string) {
    exists i :: 0 <= i < |strips| && Holds(strips[i], name)
  }

  ghost predicate Free(strips: seq<seq<Panel>>, ids: set<string>) {
    forall i :: 0 <= i < |strips| ==> forall p :: p in strips[i] ==> !Named(p, ids)
  }

  const INVENTORY := Panel("inventory", "inventory", "Inventory")

  /** Inventory appended to the first strip that holds run-of-show. */
  ghost function WithInventory(strips: seq<seq<Panel>>): seq<seq<Panel>> {
    if strips == [] then []
    else if Holds(strips[0], "run-of-show") then [strips[0] + [Panel("inventory", "inventory", "Inventory")]] + strips[1..]
    else [strips[0]] + WithInventory(strips[1..])
  }

  lemma AnyHoldsConcat(xs: seq<seq<Panel>>, ys: seq<seq<Panel>>, name: string)
    ensures AnyHolds(xs + ys, name) <==> AnyHolds(xs, name) || AnyHolds(ys, name)
  {
    var all := xs + ys;
    if AnyHolds(xs, name) {
      var i :| 0 <= i < |xs| && Holds(xs[i], name);
      assert all[i] == xs[i];
    }
    if AnyHolds(ys, name) {
      var i :| 0 <= i < |ys| && Holds(ys[i], name);
      assert all[|xs| + i] == ys[i];
    }
  }

  lemma {:induction false} KeptStripsConcat(xs: seq<seq<Panel>>, ys: seq<seq<Panel>>, ids: set<string>)
    ensures KeptStrips(xs + ys, ids) == KeptStrips(xs, ids) + KeptStrips(ys, ids)
  {
    if xs == [] {
      ConcatEmpty(ys);
    } else {
      ConcatHead(xs, ys);
      KeptStripsConcat(xs[1..], ys, ids);
      ConcatAssociates(if Keep(xs[0], ids) == [] then [] else [Keep(xs[0], ids)],
                       KeptStrips(xs[1..], ids), KeptStrips(ys, ids));
    }
  }

  lemma {:induction false} KeptStripsFusion(strips: seq<seq<Panel>>, a: set<string>, b: set<string>)
    ensures KeptStrips(KeptStrips(strips, a), b) == KeptStrips(strips, a + b)
  {
    if strips != [] {
      KeepKeep(strips[0], a, b);
      KeptStripsFusion(strips[1..], a, b);
      var head := if Keep(strips[0], a) == [] then [] else [Keep(strips[0], a)];
      KeptStripsConcat(head, KeptStrips(strips[1..], a), b);
    }
  }

  lemma {:induction false} KeptStripsFree(strips: seq<seq<Panel>>, ids: set<string>)
    ensures Free(KeptStrips(strips, ids), ids)
    ensures forall i :: 0 <= i < |KeptStrips(strips, ids)| ==> KeptStrips(strips, ids)[i] != []
  {
    if strips != [] {
      KeptStripsFree(strips[1..], ids);
      KeepMembers(strips[0], ids);
    }
  }

  lemma {:induction false} KeepSame(panels: seq<Panel>, a: set<string>, b: set<string>)
    requires forall p :: p in panels ==> (Named(p, a) <==> Named(p, b))
    ensures Keep(panels, a) == Keep(panels, b)
  {
    if panels != [] {
      KeepSame(panels[1..], a, b);
    }
  }

  ghost predicate SameNames(strips: seq<seq<Panel>>, a: set<string>, b: set<string>) {
    forall i, p :: 0 <= i < |strips| && p in strips[i] ==> (Named(p, a) <==> Named(p, b))
  }

  lemma SameNamesConcat(xs: seq<seq<Panel>>, ys: seq<seq<Panel>>, a: set<string>, b: set<string>)
    requires SameNames(xs + ys, a, b)
    ensures SameNames(xs, a, b) && SameNames(ys, a, b)
  {
    forall i, p | 0 <= i < |xs| && p in xs[i] ensures Named(p, a) <==> Named(p, b) {
      assert (xs + ys)[i] == xs[i];
    }
    forall i, p | 0 <= i < |ys| && p in ys[i] ensures Named(p, a) <==> Named(p, b) {
      assert (xs + ys)[|xs| + i] == ys[i];
    }
  }

  lemma {:induction false} KeptStripsSame(strips: seq<seq<Panel>>, a: set<string>, b: set<string>)
    requires SameNames(strips, a, b)
    ensures KeptStrips(strips, a) == KeptStrips(strips, b)
  {
    if strips != [] {
      assert strips == [strips[0]] + strips[1..];
      SameNamesConcat([strips[0]], strips[1..], a, b);
      assert [strips[0]][0] == strips[0];
      KeepSame(strips[0], a, b);
      KeptStripsSame(strips[1..], a, b);
    }
  }

  lemma FreeConcat(xs: seq<seq<Panel>>, ys: seq<seq<Panel>>, ids: set<string>)
    ensures Free(xs + ys, ids) <==> Free(xs, ids) && Free(ys, ids)
  {
    if Free(xs + ys, ids) {
      forall i | 0 <= i < |xs| ensures forall p :: p in xs[i] ==> !Named(p, ids) {
        assert (xs + ys)[i] == xs[i];
      }
      forall i | 0 <= i < |ys| ensures forall p :: p in ys[i] ==> !Named(p, ids) {
        assert (xs + ys)[|xs| + i] == ys[i];
      }
    }
  }

  lemma {:induction false} KeepAll(panels: seq<Panel>, ids: set<string>)
    requires forall p :: p in panels ==> !Named(p, ids)
    ensures Keep(panels, ids) == panels
  {
    if panels != [] { KeepAll(panels[1..], ids); }
  }

  lemma KeepNothing(panels: seq<Panel>)
    ensures Keep(panels, {}) == panels
  {
  }

  lemma {:induction false} WithInventoryConcat(xs: seq<seq<Panel>>, ys: seq<seq<Panel>>)
    ensures WithInventory(xs + ys)
         == if AnyHolds(xs, "run-of-show") then WithInventory(xs) + ys else xs + WithInventory(ys)
  {
    if xs == [] {
      ConcatEmpty(ys);
    } else {
      ConcatHead(xs, ys);
      HeadAndTail(xs);
      AnyHoldsConcat([xs[0]], xs[1..], "run-of-show");
      assert AnyHolds([xs[0]], "run-of-show") <==> Holds([xs[0]][0], "run-of-show");
      WithInventoryConcat(xs[1..], ys);
      if Holds(xs[0], "run-of-show") {
        ConcatAssociates([xs[0] + [INVENTORY]], xs[1..], ys);
      } else {
        ConcatAssociates([xs[0]], WithInventory(xs[1..]), ys);
        ConcatAssociates([xs[0]], xs[1..], WithInventory(ys));
      }
    }
  }

  lemma {:induction false} WithInventoryHolds(strips: seq<seq<Panel>>)
    requires AnyHolds(strips, "run-of-show")
    ensures AnyHolds(WithInventory(strips), "inventory")
  {
    if Holds(strips[0], "run-of-show") {
      var grown := strips[0] + [INVENTORY];
      assert Named(grown[|strips[0]|], {"inventory"});
      assert Holds(WithInventory(strips)[0], "inventory");
    } else {
      var i :| 0 <= i < |strips| && Holds(strips[i], "run-of-show");
      assert strips[1..][i - 1] == strips[i];
      WithInventoryHolds(strips[1..]);
      AnyHoldsConcat([strips[0]], WithInventory(strips[1..]), "inventory");
    }
  }

  lemma {:induction false} WithInventoryFree(strips: seq<seq<Panel>>, ids: set<string>)
    requires Free(strips, ids) && !Named(INVENTORY, ids)
    ensures Free(WithInventory(strips), ids)
  {
    if strips != [] {
      assert forall p :: p in strips[0] ==> !Named(p, ids);
      forall i | 0 <= i < |strips[1..]| ensures forall p :: p in strips[1..][i] ==> !Named(p, ids) {
        assert strips[1..][i] == strips[i + 1];
      }
      WithInventoryFree(strips[1..], ids);
    }
  }

  // ---------------------------------------------------------------- pruning a tree

  /** No empty strip, no group with fewer than two children, every selected tab a member. */
  ghost predicate NormalForm(n: Node) {
    match n
    case Tabs(_, active, panels, _) => panels != [] && HasId(panels, active)
    case Group(_, _, children, _) => |children| >= 2 && forall c :: c in children ==> NormalForm(c)
  }

  function StripsIn(m: Option<Node>): seq<seq<Panel>> {
    match m case None => [] case Some(n) => Strips(n)
  }

  lemma {:induction false} PruneNormalForm(n: Node, ids: set<string>)
    ensures Prune(n, ids).Some? ==> NormalForm(Prune(n, ids).value)
    decreases n, 1
  {
    match n
    case Tabs(_, active, panels, _) =>
      var kept := Keep(panels, ids);
      if kept != [] && !HasId(panels, active) {
        assert kept[0].id == Reselect(active, kept) || HasId(kept, active);
      }
    case Group(_, _, children, size) =>
      PruneAllNormalForm(children, ids);
      var kept := PruneAll(children, ids);
      if |kept| == 1 {
        assert kept[0] in kept;
        match kept[0] case Tabs(_, _, _, _) => case Group(_, _, _, _) =>
      }
  }

  lemma {:induction false} PruneAllNormalForm(nodes: seq<Node>, ids: set<string>)
    ensures forall c :: c in PruneAll(nodes, ids) ==> NormalForm(c)
    decreases nodes, 0
  {
    if nodes != [] {
      PruneNormalForm(nodes[0], ids);
      PruneAllNormalForm(nodes[1..], ids);
    }
  }

  lemma {:induction false} NothingToPrune(n: Node, ids: set<string>)
    requires NormalForm(n) && Free(Strips(n), ids)
    ensures Prune(n, ids) == Some(n)
    decreases n, 1
  {
    match n
    case Tabs(_, _, panels, _) =>
      assert Strips(n)[0] == panels;
      KeepAll(panels, ids);
    case Group(_, _, children, _) => NothingToPruneIn(children, ids);
  }

  lemma {:induction false} NothingToPruneIn(nodes: seq<Node>, ids: set<string>)
    requires Free(StripsOf(nodes), ids) && forall c :: c in nodes ==> NormalForm(c)
    ensures PruneAll(nodes, ids) == nodes
    decreases nodes, 0
  {
    if nodes != [] {
      FreeConcat(Strips(nodes[0]), StripsOf(nodes[1..]), ids);
      NothingToPrune(nodes[0], ids);
      NothingToPruneIn(nodes[1..], ids);
      assert nodes == [nodes[0]] + nodes[1..];
    }
  }

  /** Pruning conserves panels: the surviving strips are the old ones minus the named panels, in order. */
  lemma {:induction false} PruneStrips(n: Node, ids: set<string>)
    ensures StripsIn(Prune(n, ids)) == KeptStrips(Strips(n), ids)
    ensures Prune(n, ids).None? <==> KeptStrips(Strips(n), ids) == []
    decreases n, 1
  {
    match n
    case Tabs(_, _, panels, _) =>
    case Group(_, _, children, size) =>
      PruneAllStrips(children, ids);
      var kept := PruneAll(children, ids);
      if |kept| == 1 {
        assert kept == [kept[0]];
        assert StripsOf(kept) == Strips(kept[0]);
        match kept[0] case Tabs(_, _, _, _) => case Group(_, _, _, _) =>
      }
  }

  lemma {:induction false} PruneAllStrips(nodes: seq<Node>, ids: set<string>)
    ensures StripsOf(PruneAll(nodes, ids)) == KeptStrips(StripsOf(nodes), ids)
    ensures PruneAll(nodes, ids) == [] <==> KeptStrips(StripsOf(nodes), ids) == []
    decreases nodes, 0
  {
    if nodes != [] {
      PruneStrips(nodes[0], ids);
      PruneAllStrips(nodes[1..], ids);
      KeptStripsConcat(Strips(nodes[0]), StripsOf(nodes[1..]), ids);
      if Prune(nodes[0], ids).None? {
        assert PruneAll(nodes, ids) == PruneAll(nodes[1..], ids);
      } else {
        ConcatHead(Listed(Prune(nodes[0], ids)), PruneAll(nodes[1..], ids));
      }
    }
  }

  /** A pass leaves a tree alone exactly when it is in normal form and holds none of the named panels. */
  lemma PruneIsIdentity(n: Node, ids: set<string>)
    ensures Prune(n, ids) == Some(n) <==> NormalForm(n) && Free(Strips(n), ids)
  {
    if Prune(n, ids) == Some(n) {
      PruneNormalForm(n, ids);
      PruneStrips(n, ids);
      KeptStripsFree(Strips(n), ids);
    }
    if NormalForm(n) && Free(Strips(n), ids) { NothingToPrune(n, ids); }
  }

  /** A reduce over no id leaves every tree alone; one pass removing nothing does so exactly on normal forms. */
  lemma EmptyReduceIsNoPass(n: Node)
    ensures PruneEach(n, []) == Prune(n, SetOf([])) <==> NormalForm(n)
  {
    assert SetOf([]) == {};
    PruneIsIdentity(n, {});
  }

  // ---------------------------------------------------------------- the pruned tree, seen from above

  /** One entry per strip or group, in the order of reading; a group says how many children follow. */
  datatype Item =
    | StripItem(id: string, size: Option<int>, panels: seq<Panel>, active: string)
    | GroupItem(id: string, size: Option<int>, direction: Direction, children: nat)

  ghost function Trace(n: Node): seq<Item>
    decreases n, 1
  {
    match n
    case Tabs(id, active, panels, size) => [StripItem(id, size, panels, active)]
    case Group(id, direction, children, size) => [GroupItem(id, size, direction, |children|)] + TraceAll(children)
  }

  ghost function TraceAll(nodes: seq<Node>): seq<Item>
    decreases nodes, 0
  {
    if nodes == [] then [] else Trace(nodes[0]) + TraceAll(nodes[1..])
  }

  ghost predicate LivesStrip(panels: seq<Panel>, ids: set<string>) {
    exists p :: p in panels && p.id !in ids && p.kind !in ids
  }

  /** Something of the node outlives the prune. */
  ghost predicate Lives(n: Node, ids: set<string>) {
    exists i :: 0 <= i < |Strips(n)| && LivesStrip(Strips(n)[i], ids)
  }

  ghost function Living(nodes: seq<Node>, ids: set<string>): nat {
    if nodes == [] then 0 else (if Lives(nodes[0], ids) then 1 else 0) + Living(nodes[1..], ids)
  }

  /**
   * What a prune leaves, from the top down: the slot a node stands in hands down the size it declares for as
   * long as only one child lives, and a group is there exactly where two or more children live.
   */
  ghost function Remains(n: Node, ids: set<string>, slot: Option<int>): seq<Item>
    decreases n, 1
  {
    var size := if slot.Some? then slot else n.size;
    match n
    case Tabs(id, active, panels, _) =>
      var kept := Keep(panels, ids);
      if kept == [] then []
      else [StripItem(id, size, kept, if exists p :: p in kept && p.id == active then active else kept[0].id)]
    case Group(id, direction, children, _) =>
      if Living(children, ids) <= 1 then RemainsAll(children, ids, size)
      else [GroupItem(id, size, direction, Living(children, ids))] + RemainsAll(children, ids, None)
  }

  ghost function RemainsAll(nodes: seq<Node>, ids: set<string>, slot: Option<int>): seq<Item>
    decreases nodes, 0
  {
    if nodes == [] then [] else Remains(nodes[0], ids, slot) + RemainsAll(nodes[1..], ids, slot)
  }

  lemma StripLives(panels: seq<Panel>, ids: set<string>)
    ensures LivesStrip(panels, ids) <==> Keep(panels, ids) != []
  {
    KeepMembers(panels, ids);
    if Keep(panels, ids) != [] { assert Keep(panels, ids)[0] in Keep(panels, ids); }
  }

  lemma {:induction false} KeptStripsLive(strips: seq<seq<Panel>>, ids: set<string>)
    ensures KeptStrips(strips, ids) != [] <==> exists i :: 0 <= i < |strips| && LivesStrip(strips[i], ids)
  {
    if strips != [] {
      KeptStripsLive(strips[1..], ids);
      StripLives(strips[0], ids);
      forall i | 1 <= i < |strips| ensures strips[i] == strips[1..][i - 1] {
      }
      if KeptStrips(strips[1..], ids) != [] {
        var i :| 0 <= i < |strips[1..]| && LivesStrip(strips[1..][i], ids);
        assert LivesStrip(strips[i + 1], ids);
      }
    }
  }

  lemma LivesIffKept(n: Node, ids: set<string>)
    ensures Lives(n, ids) <==> KeptStrips(Strips(n), ids) != []
    ensures Lives(n, ids) <==> Prune(n, ids).Some?
  {
    PruneStrips(n, ids);
    KeptStripsLive(Strips(n), ids);
  }

  lemma {:induction false} PruneAllCounts(nodes: seq<Node>, ids: set<string>)
    ensures |PruneAll(nodes, ids)| == Living(nodes, ids)
  {
    if nodes != [] {
      LivesIffKept(nodes[0], ids);
      PruneAllCounts(nodes[1..], ids);
    }
  }

  lemma ReselectIs(active: string, kept: seq<Panel>)
    requires kept != []
    ensures Reselect(active, kept) == if exists p :: p in kept && p.id == active then active else kept[0].id
  {
    if p :| p in kept && p.id == active {
      var i :| 0 <= i < |kept| && kept[i] == p;
    }
  }

  ghost function TraceIn(m: Option<Node>): seq<Item> {
    match m case None => [] case Some(n) => Trace(n)
  }

  ghost function TraceResized(nodes: seq<Node>, slot: Option<int>): seq<Item> {
    if nodes == [] then [] else Trace(WithSize(nodes[0], slot)) + TraceResized(nodes[1..], slot)
  }

  lemma {:induction false} Unresized(nodes: seq<Node>)
    ensures TraceResized(nodes, None) == TraceAll(nodes)
  {
    if nodes != [] {
      assert WithSize(nodes[0], None) == nodes[0];
      Unresized(nodes[1..]);
    }
  }

  /** The pruned tree is what remains seen from above: groups, strips, selections and inherited sizes. */
  lemma {:induction false} PruneRemains(n: Node, ids: set<string>, slot: Option<int>)
    ensures TraceIn(Resized(Prune(n, ids), slot)) == Remains(n, ids, slot)
    decreases n, 1
  {
    match n
    case Tabs(_, active, panels, _) => if Keep(panels, ids) != [] { ReselectIs(active, Keep(panels, ids)); }
    case Group(_, _, children, size) =>
      var kept, own := PruneAll(children, ids), if slot.Some? then slot else size;
      PruneAllCounts(children, ids);
      PruneAllRemains(children, ids, own);
      PruneAllRemains(children, ids, None);
      if |kept| == 1 {
        assert kept == [kept[0]];
        assert TraceResized(kept, own) == Trace(WithSize(kept[0], own)) + TraceResized(kept[1..], own);
      } else if |kept| > 1 {
        Unresized(kept);
      }
  }

  lemma {:induction false} PruneAllRemains(nodes: seq<Node>, ids: set<string>, slot: Option<int>)
    ensures TraceResized(PruneAll(nodes, ids), slot) == RemainsAll(nodes, ids, slot)
    decreases nodes, 0
  {
    if nodes != [] {
      PruneRemains(nodes[0], ids, slot);
      PruneAllRemains(nodes[1..], ids, slot);
      if Prune(nodes[0], ids).Some? {
        ConsTail(Prune(nodes[0], ids).value, PruneAll(nodes[1..], ids));
      } else {
        ConcatEmpty(PruneAll(nodes[1..], ids));
      }
    }
  }

  lemma PruneFromAbove(n: Node, ids: set<string>)
    ensures TraceIn(Prune(n, ids)) == Remains(n, ids, None)
  {
    PruneRemains(n, ids, None);
    if Prune(n, ids).Some? { assert WithSize(Prune(n, ids).value, None) == Prune(n, ids).value; }
  }

  lemma {:induction false} TraceSplits(a: Node, r: seq<Item>, b: Node, q: seq<Item>)
    requires Trace(a) + r == Trace(b) + q
    ensures a == b && r == q
    decreases a, 1
  {
    assert (Trace(a) + r)[0] == Trace(a)[0] && (Trace(b) + q)[0] == Trace(b)[0];
    match a
    case Tabs(_, _, _, _) => CancelPrefix(Trace(a), r, q);
    case Group(_, _, children, _) =>
      var head := [Trace(a)[0]];
      ConcatAssociates(head, TraceAll(children), r);
      ConcatAssociates(head, TraceAll(b.children), q);
      CancelPrefix(head, TraceAll(children) + r, TraceAll(b.children) + q);
      TraceAllSplits(children, r, b.children, q);
  }

  lemma {:induction false} TraceAllSplits(xs: seq<Node>, r: seq<Item>, ys: seq<Node>, q: seq<Item>)
    requires |xs| == |ys| && TraceAll(xs) + r == TraceAll(ys) + q
    ensures xs == ys && r == q
    decreases xs, 0
  {
    if xs == [] {
      ConcatEmpty(r);
      ConcatEmpty(q);
    } else {
      ConcatAssociates(Trace(xs[0]), TraceAll(xs[1..]), r);
      ConcatAssociates(Trace(ys[0]), TraceAll(ys[1..]), q);
      TraceSplits(xs[0], TraceAll(xs[1..]) + r, ys[0], TraceAll(ys[1..]) + q);
      TraceAllSplits(xs[1..], r, ys[1..], q);
      HeadAndTail(xs);
      HeadAndTail(ys);
    }
  }

  /** The entries spell the tree: two trees with the same entries are the same tree. */
  lemma TraceDecodes(a: Node, b: Node)
    requires Trace(a) == Trace(b)
    ensures a == b
  {
    ConcatEmpty(Trace(a));
    ConcatEmpty(Trace(b));
    TraceSplits(a, [], b, []);
  }

  /** The size of a survivor: what its slot declares, else what the only living child brings, else none. */
  ghost function SlotSize(n: Node, ids: set<string>): Option<int>
    decreases n, 1
  {
    if n.size.Some? then n.size
    else match n
      case Tabs(_, _, _, _) => None
      case Group(_, _, children, _) => if Living(children, ids) == 1 then SoleSize(children, ids) else None
  }

  ghost function SoleSize(nodes: seq<Node>, ids: set<string>): Option<int>
    decreases nodes, 0
  {
    if nodes == [] then None
    else if Lives(nodes[0], ids) then SlotSize(nodes[0], ids) else SoleSize(nodes[1..], ids)
  }

  lemma {:induction false} PruneSize(n: Node, ids: set<string>)
    requires Prune(n, ids).Some?
    ensures Prune(n, ids).value.size == SlotSize(n, ids)
    decreases n, 1
  {
    if n.Group? {
      PruneAllCounts(n.children, ids);
      if Living(n.children, ids) == 1 { SoleSurvivorSize(n.children, ids); }
    }
  }

  lemma {:induction false} SoleSurvivorSize(nodes: seq<Node>, ids: set<string>)
    requires Living(nodes, ids) == 1
    ensures |PruneAll(nodes, ids)| == 1 && PruneAll(nodes, ids)[0].size == SoleSize(nodes, ids)
    decreases nodes, 0
  {
    PruneAllCounts(nodes, ids);
    LivesIffKept(nodes[0], ids);
    if Lives(nodes[0], ids) {
      PruneSize(nodes[0], ids);
    } else {
      SoleSurvivorSize(nodes[1..], ids);
      ConcatEmpty(PruneAll(nodes[1..], ids));
    }
  }

  lemma {:induction false} PruneEachStrips(n: Node, ids: seq<string>)
    requires ids != []
    ensures StripsIn(PruneEach(n, ids)) == KeptStrips(Strips(n), SetOf(ids))
    ensures PruneEach(n, ids).None? <==> KeptStrips(Strips(n), SetOf(ids)) == []
    decreases |ids|
  {
    var first, rest := {ids[0]}, ids[1..];
    assert SetOf(ids) == first + SetOf(rest) by { assert ids == [ids[0]] + rest; }
    PruneStrips(n, first);
    if rest == [] {
      assert SetOf(ids) == first;
    } else {
      KeptStripsFusion(Strips(n), first, SetOf(rest));
      match Prune(n, first)
      case None =>
      case Some(m) => PruneEachStrips(m, rest);
    }
  }

  // ---------------------------------------------------------------- searching and inserting

  function Contains(n: Node, name: string): bool
    decreases n, 1
  {
    match n
    case Tabs(_, _, panels, _) => Holds(panels, name)
    case Group(_, _, children, _) => ContainsAny(children, name)
  }

  function ContainsAny(nodes: seq<Node>, name: string): bool
    decreases nodes, 0
  {
    nodes != [] && (Contains(nodes[0], name) || ContainsAny(nodes[1..], name))
  }

  lemma {:induction false} ContainsStrips(n: Node, name: string)
    ensures Contains(n, name) <==> AnyHolds(Strips(n), name)
    decreases n, 1
  {
    match n
    case Tabs(_, _, panels, _) => assert AnyHolds([panels], name) <==> Holds([panels][0], name);
    case Group(_, _, children, _) => ContainsAnyStrips(children, name);
  }

  lemma {:induction false} ContainsAnyStrips(nodes: seq<Node>, name: string)
    ensures ContainsAny(nodes, name) <==> AnyHolds(StripsOf(nodes), name)
    decreases nodes, 0
  {
    if nodes != [] {
      ContainsStrips(nodes[0], name);
      ContainsAnyStrips(nodes[1..], name);
      AnyHoldsConcat(Strips(nodes[0]), StripsOf(nodes[1..]), name);
    }
  }

  function AddBeside(n: Node): Option<Node>
    decreases n, 1
  {
    match n
    case Tabs(_, _, panels, _) =>
      if Holds(panels, "run-of-show") then Some(n.(panels := panels + [INVENTORY])) else None
    case Group(_, _, children, _) =>
      match AddBesideIn(children) case None => None case Some(cs) => Some(n.(children := cs))
  }

  function AddBesideIn(nodes: seq<Node>): Option<seq<Node>>
    decreases nodes, 0
  {
    if nodes == [] then None
    else match AddBeside(nodes[0])
      case Some(m) => Some([m] + nodes[1..])
      case None =>
        match AddBesideIn(nodes[1..]) case None => None case Some(rest) => Some([nodes[0]] + rest)
  }

  /** Everything about a tree except which panels sit in its strips. */
  ghost function Outline(n: Node): Node
    decreases n, 1
  {
    match n
    case Tabs(_, _, _, _) => n.(panels := [])
    case Group(_, _, children, _) => n.(children := OutlineAll(children))
  }

  ghost function OutlineAll(nodes: seq<Node>): seq<Node>
    decreases nodes, 0
  {
    if nodes == [] then [] else [Outline(nodes[0])] + OutlineAll(nodes[1..])
  }

  /** Insertion succeeds exactly when run-of-show is present, and touches one strip only. */
  lemma {:induction false} AddBesideStrips(n: Node)
    ensures AddBeside(n).Some? <==> AnyHolds(Strips(n), "run-of-show")
    ensures AddBeside(n).Some? ==>
      Strips(AddBeside(n).value) == WithInventory(Strips(n)) && Outline(AddBeside(n).value) == Outline(n)
    decreases n, 1
  {
    match n
    case Tabs(_, _, panels, _) =>
      assert AnyHolds([panels], "run-of-show") <==> Holds([panels][0], "run-of-show");
      assert Holds(panels, "run-of-show") ==> WithInventory([panels]) == [panels + [INVENTORY]];
    case Group(_, _, children, _) => AddBesideInStrips(children);
  }

  lemma {:induction false} AddBesideInStrips(nodes: seq<Node>)
    ensures AddBesideIn(nodes).Some? <==> AnyHolds(StripsOf(nodes), "run-of-show")
    ensures AddBesideIn(nodes).Some? ==>
      StripsOf(AddBesideIn(nodes).value) == WithInventory(StripsOf(nodes))
      && OutlineAll(AddBesideIn(nodes).value) == OutlineAll(nodes)
    decreases nodes, 0
  {
    if nodes != [] {
      AddBesideStrips(nodes[0]);
      AddBesideInStrips(nodes[1..]);
      AnyHoldsConcat(Strips(nodes[0]), StripsOf(nodes[1..]), "run-of-show");
      WithInventoryConcat(Strips(nodes[0]), StripsOf(nodes[1..]));
    }
  }

  // ---------------------------------------------------------------- the Active Event board

  const RETIRED := ["transcript", "on-deck", "event-chat"]
  const RETIRED_IDS := {"transcript", "on-deck", "event-chat"}

  function FloatingContains(l: Layout, name: string): bool {
    AnyHolds(FloatingStrips(l.floating.GetOr([])), name)
  }

  function LayoutContains(l: Layout, name: string): bool {
    Contains(l.root, name) || FloatingContains(l, name)
  }

  function RetiredAmong(l: Layout, ids: seq<string>): seq<string> {
    if ids == [] then []
    else (if LayoutContains(l, ids[0]) then [ids[0]] else []) + RetiredAmong(l, ids[1..])
  }

  function RetiredIn(l: Layout): seq<string> {
    RetiredAmong(l, RETIRED)
  }

  function KeptFloating(groups: seq<Floating>): seq<Floating> {
    if groups == [] then []
    else
      var kept := Keep(groups[0].panels, RETIRED_IDS);
      (if kept == [] then []
       else [groups[0].(panels := kept, activePanelId := Reselect(groups[0].activePanelId, kept))])
      + KeptFloating(groups[1..])
  }

  function AddBesideFloating(groups: seq<Floating>): Option<seq<Floating>> {
    if groups == [] then None
    else if Holds(groups[0].panels, "run-of-show") then
      Some([groups[0].(panels := groups[0].panels + [INVENTORY])] + groups[1..])
    else match AddBesideFloating(groups[1..]) case None => None case Some(rest) => Some([groups[0]] + rest)
  }

  function Solo(id: string, title: string, size: int): Node {
    Tabs(id + "-group", id, [Panel(id, id, title)], Some(size))
  }

  function ActiveDefault(): Layout {
    Layout(1,
      Group("seller-active-root", Row, [
        Group("seller-active-primary", Col,
          [Solo("stage-status", "Live console", 650), Solo("copilot", "Copilot", 350)], Some(620)),
        Group("seller-active-rail", Col,
          [Tabs("run-of-show-group", "run-of-show",
            [Panel("run-of-show", "run-of-show", "Run of show"), INVENTORY], Some(1000))], Some(380))],
        None),
      None)
  }

  function Cleaned(l: Layout, root: Node): Layout {
    if RetiredIn(l) == [] then l
    else
      var floating := KeptFloating(l.floating.GetOr([]));
      l.(root := root, floating := if floating == [] then None else Some(floating))
  }

  function MigrateActive(l: Layout): Layout {
    var retired := RetiredIn(l);
    if "on-deck" in retired && !LayoutContains(l, "run-of-show") then ActiveDefault()
    else match PruneEach(l.root, retired)
      case None => ActiveDefault()
      case Some(root) =>
        var cleaned := Cleaned(l, root);
        if LayoutContains(cleaned, "inventory") then cleaned
        else match AddBeside(cleaned.root)
          case Some(grown) => cleaned.(root := grown)
          case None =>
            match AddBesideFloating(cleaned.floating.GetOr([]))
            case Some(grown) => cleaned.(floating := Some(grown))
            case None => ActiveDefault()
  }

  lemma LayoutContainsStrips(l: Layout, name: string)
    ensures LayoutContains(l, name) <==> AnyHolds(AllStrips(l), name)
  {
    ContainsStrips(l.root, name);
    AnyHoldsConcat(Strips(l.root), FloatingStrips(l.floating.GetOr([])), name);
  }

  lemma {:induction false} KeptFloatingStrips(groups: seq<Floating>)
    ensures FloatingStrips(KeptFloating(groups)) == KeptStrips(FloatingStrips(groups), RETIRED_IDS)
    ensures KeptFloating(groups) == [] <==> KeptStrips(FloatingStrips(groups), RETIRED_IDS) == []
  {
    if groups != [] {
      KeptFloatingStrips(groups[1..]);
      var kept := Keep(groups[0].panels, RETIRED_IDS);
      if kept == [] {
        assert KeptFloating(groups) == KeptFloating(groups[1..]);
      } else {
        assert KeptFloating(groups)[1..] == KeptFloating(groups[1..]);
      }
      assert FloatingStrips(groups)[1..] == FloatingStrips(groups[1..]);
    }
  }

  lemma {:induction false} AddBesideFloatingStrips(groups: seq<Floating>)
    ensures AddBesideFloating(groups).Some? <==> AnyHolds(FloatingStrips(groups), "run-of-show")
    ensures AddBesideFloating(groups).Some? ==>
      FloatingStrips(AddBesideFloating(groups).value) == WithInventory(FloatingStrips(groups))
  {
    if groups != [] {
      AddBesideFloatingStrips(groups[1..]);
      var strips := FloatingStrips(groups);
      assert strips[0] == groups[0].panels && strips[1..] == FloatingStrips(groups[1..]);
      AnyHoldsConcat([groups[0].panels], FloatingStrips(groups[1..]), "run-of-show");
      assert AnyHolds([groups[0].panels], "run-of-show") <==> Holds([groups[0].panels][0], "run-of-show");
    }
  }

  lemma {:induction false} RetiredAmongIs(l: Layout, ids: seq<string>)
    ensures forall id :: id in RetiredAmong(l, ids) <==> id in ids && LayoutContains(l, id)
  {
    if ids != [] {
      RetiredAmongIs(l, ids[1..]);
      assert ids == [ids[0]] + ids[1..];
    }
  }

  lemma RetiredInIs(l: Layout)
    ensures forall id :: id in RetiredIn(l) <==> id in RETIRED_IDS && AnyHolds(AllStrips(l), id)
    ensures RetiredIn(l) == [] <==> forall id :: id in RETIRED_IDS ==> !AnyHolds(AllStrips(l), id)
  {
    RetiredAmongIs(l, RETIRED);
    forall id ensures id in RETIRED <==> id in RETIRED_IDS {
      assert RETIRED[0] == "transcript" && RETIRED[1] == "on-deck" && RETIRED[2] == "event-chat";
    }
    forall id ensures LayoutContains(l, id) <==> AnyHolds(AllStrips(l), id) {
      LayoutContainsStrips(l, id);
    }
    assert RetiredIn(l) != [] ==> RetiredIn(l)[0] in RetiredIn(l);
  }

  lemma MemberHolds(strips: seq<seq<Panel>>, s: seq<Panel>, p: Panel, id: string)
    requires s in strips && p in s && Named(p, {id})
    ensures AnyHolds(strips, id)
  {
    var k :| 0 <= k < |s| && s[k] == p;
    var j :| 0 <= j < |strips| && strips[j] == s;
    assert Holds(strips[j], id);
  }

  /** A panel of the layout is named by the retired ids found there exactly when it is retired at all. */
  lemma FoundNames(l: Layout)
    ensures SameNames(AllStrips(l), SetOf(RetiredIn(l)), RETIRED_IDS)
  {
    RetiredInIs(l);
    var strips := AllStrips(l);
    forall i, p | 0 <= i < |strips| && p in strips[i]
      ensures Named(p, SetOf(RetiredIn(l))) <==> Named(p, RETIRED_IDS)
    {
      if Named(p, RETIRED_IDS) {
        MemberHolds(strips, strips[i], p, if p.id in RETIRED_IDS then p.id else p.kind);
      }
    }
  }

  /** Dropping the retired ids found in a layout is dropping every retired id. */
  lemma FoundIsEnough(l: Layout)
    ensures KeptStrips(AllStrips(l), SetOf(RetiredIn(l))) == KeptStrips(AllStrips(l), RETIRED_IDS)
    ensures KeptStrips(Strips(l.root), SetOf(RetiredIn(l))) == KeptStrips(Strips(l.root), RETIRED_IDS)
  {
    FoundNames(l);
    KeptStripsSame(AllStrips(l), SetOf(RetiredIn(l)), RETIRED_IDS);
    SameNamesConcat(Strips(l.root), FloatingStrips(l.floating.GetOr([])), SetOf(RetiredIn(l)), RETIRED_IDS);
    KeptStripsSame(Strips(l.root), SetOf(RetiredIn(l)), RETIRED_IDS);
  }

  lemma {:induction false} PruneSame(n: Node, a: set<string>, b: set<string>)
    requires SameNames(Strips(n), a, b)
    ensures Prune(n, a) == Prune(n, b)
    decreases n, 1
  {
    match n
    case Tabs(_, _, panels, _) =>
      assert Strips(n)[0] == panels;
      KeepSame(panels, a, b);
    case Group(_, _, children, _) => PruneAllSame(children, a, b);
  }

  lemma {:induction false} PruneAllSame(nodes: seq<Node>, a: set<string>, b: set<string>)
    requires SameNames(StripsOf(nodes), a, b)
    ensures PruneAll(nodes, a) == PruneAll(nodes, b)
    decreases nodes, 0
  {
    if nodes != [] {
      SameNamesConcat(Strips(nodes[0]), StripsOf(nodes[1..]), a, b);
      PruneSame(nodes[0], a, b);
      PruneAllSame(nodes[1..], a, b);
    }
  }

  /**
   * The migration's reduce over the ids it found is one pass over every retired id, exactly unless a strip
   * slips; with ids unique within each strip none does.
   */
  lemma MigrationPrunesOnce(l: Layout)
    requires RetiredIn(l) != []
    ensures PruneEach(l.root, RetiredIn(l)) == Prune(l.root, RETIRED_IDS)
       <==> !AnySlips(l.root, Singletons(RetiredIn(l)))
    ensures UniqueInStrips(l.root) ==> !AnySlips(l.root, Singletons(RetiredIn(l)))
  {
    PruneEachIsOnePass(l.root, RetiredIn(l));
    FoundNames(l);
    SameNamesConcat(Strips(l.root), FloatingStrips(l.floating.GetOr([])), SetOf(RetiredIn(l)), RETIRED_IDS);
    PruneSame(l.root, SetOf(RetiredIn(l)), RETIRED_IDS);
    if UniqueInStrips(l.root) { UniqueNeverSlips(l.root, Singletons(RetiredIn(l))); }
  }

  lemma KeepCons(p: Panel, rest: seq<Panel>, ids: set<string>)
    ensures Keep([p] + rest, ids) == (if Named(p, ids) then [] else [p]) + Keep(rest, ids)
  {
    ConcatHead([p], rest);
    assert [p][1..] + rest == rest;
  }

  lemma KeepsFading(t: Panel, d: Panel, last: seq<Panel>, a: set<string>, b: set<string>)
    requires Named(t, a) && !Named(d, a) && Named(d, b)
    requires forall p :: p in last ==> !Named(p, a + b)
    ensures Keep([t] + ([d] + last), a) == [d] + last
    ensures Keep([d] + last, b) == last && Keep([t] + ([d] + last), a + b) == last
  {
    KeepAll(last, a);
    KeepAll(last, b);
    KeepCons(d, last, a);
    KeepCons(d, last, b);
    KeepCons(t, [d] + last, a);
    ConcatEmpty([d] + last);
    ConcatEmpty(last);
    KeepKeep([t] + ([d] + last), a, b);
  }

  /** The selected `t` goes, `d` takes the selection and goes in turn, and its namesake keeps it from the new head. */
  lemma NamesakeTakesOver(strip: Node, t: Panel, d: Panel, last: seq<Panel>, a: set<string>, b: set<string>)
    requires strip.Tabs? && strip.panels == [t] + ([d] + last) && strip.activePanelId == t.id
    requires Named(t, a) && !Named(d, a) && Named(d, b)
    requires forall p :: p in last ==> !Named(p, a + b)
    requires last != [] && last[0].id != d.id && HasId(last, d.id) && !HasId([d] + last, t.id) && !HasId(last, t.id)
    ensures Prune(strip, a) == Some(strip.(panels := [d] + last, activePanelId := d.id))
    ensures PruneThen(Prune(strip, a), b) == Some(strip.(panels := last, activePanelId := d.id))
    ensures Prune(strip, a + b) == Some(strip.(panels := last, activePanelId := last[0].id))
  {
    KeepsFading(t, d, last, a, b);
    ConsTail(d, last);
  }

  const FADING := [Panel("transcript", "transcript", "Transcript"), Panel("x", "on-deck", "On deck")]
  const STAYING := [Panel("run-of-show", "run-of-show", "Run of show"), Panel("x", "copilot", "Copilot")]

  lemma FadingThenStaying()
    ensures FADING + STAYING == [FADING[0]] + ([FADING[1]] + STAYING)
    ensures HasId(STAYING, "x") && !HasId(STAYING, "transcript") && !HasId([FADING[1]] + STAYING, "transcript")
    ensures forall p :: p in STAYING ==> !Named(p, RETIRED_IDS)
    ensures forall p :: p in [FADING[0], FADING[1]] + STAYING ==> !Named(p, {"event-chat"})
  {
    assert STAYING[1].id == "x";
  }

  lemma FadingIsRetired(l: Layout, t: Panel, d: Panel, staying: seq<Panel>)
    requires AllStrips(l) == [[t] + ([d] + staying)]
    requires Named(t, {"transcript"}) && Named(d, {"on-deck"})
    requires forall p :: p in [t, d] + staying ==> !Named(p, {"event-chat"})
    ensures RetiredIn(l) == ["transcript", "on-deck"]
  {
    var all := [t] + ([d] + staying);
    assert all == [t, d] + staying;
    assert all[0] == t && all[1] == d;
    assert Holds(AllStrips(l)[0], "transcript") && Holds(AllStrips(l)[0], "on-deck");
    assert !Holds(AllStrips(l)[0], "event-chat");
    LayoutContainsStrips(l, "transcript");
    LayoutContainsStrips(l, "on-deck");
    LayoutContainsStrips(l, "event-chat");
    assert RETIRED[1..] == ["on-deck", "event-chat"] && RETIRED[1..][1..] == ["event-chat"];
    assert RetiredAmong(l, ["event-chat"]) == [];
    assert RetiredAmong(l, ["on-deck", "event-chat"]) == ["on-deck"];
  }

  /**
   * A saved board on which the migration's passes select another tab than one pass would: Transcript
   * goes and On Deck takes the selection, then On Deck goes while another panel of the same id stays.
   */
  lemma SharedIdsBreakFusion()
    ensures var strip := Tabs("s", "transcript", FADING + STAYING, None);
      && RetiredIn(Layout(1, strip, None)) == ["transcript", "on-deck"]
      && PruneEach(strip, ["transcript", "on-deck"]) == Some(strip.(panels := STAYING, activePanelId := "x"))
      && Prune(strip, {"transcript", "on-deck"}) == Some(strip.(panels := STAYING, activePanelId := "run-of-show"))
  {
    var strip := Tabs("s", "transcript", FADING + STAYING, None);
    var a, b := {"transcript"}, {"on-deck"};
    assert a + b == {"transcript", "on-deck"};
    FadingThenStaying();
    NamesakeTakesOver(strip, FADING[0], FADING[1], STAYING, a, b);
    FadingIsRetired(Layout(1, strip, None), FADING[0], FADING[1], STAYING);
    assert ["transcript", "on-deck"][1..] == ["on-deck"] && ["on-deck"][1..] == [];
  }

  /** The strips a board keeps: untouched when nothing is retired, else pruned in reading order. */
  ghost function Surviving(l: Layout): seq<seq<Panel>> {
    if RetiredIn(l) == [] then AllStrips(l) else KeptStrips(AllStrips(l), RETIRED_IDS)
  }

  // When a saved board cannot be kept: On Deck was there without Run of Show, nothing of the
  // root survives a prune, or no strip is left to take Inventory.
  ghost predicate Reseeds(l: Layout) {
    || (AnyHolds(AllStrips(l), "on-deck") && !AnyHolds(AllStrips(l), "run-of-show"))
    || (RetiredIn(l) != [] && KeptStrips(Strips(l.root), RETIRED_IDS) == [])
    || (!AnyHolds(Surviving(l), "inventory") && !AnyHolds(Surviving(l), "run-of-show"))
  }

  lemma CleanedStrips(l: Layout, root: Node)
    requires PruneEach(l.root, RetiredIn(l)) == Some(root)
    ensures AllStrips(Cleaned(l, root)) == Surviving(l)
  {
    if RetiredIn(l) != [] {
      FoundIsEnough(l);
      PruneEachStrips(l.root, RetiredIn(l));
      KeptFloatingStrips(l.floating.GetOr([]));
      KeptStripsConcat(Strips(l.root), FloatingStrips(l.floating.GetOr([])), RETIRED_IDS);
    }
  }

  ghost function OutlineFloating(groups: seq<Floating>): seq<Floating> {
    if groups == [] then [] else [groups[0].(panels := [])] + OutlineFloating(groups[1..])
  }

  lemma {:induction false} AddBesideFloatingOutline(groups: seq<Floating>)
    ensures AddBesideFloating(groups).Some? ==>
      OutlineFloating(AddBesideFloating(groups).value) == OutlineFloating(groups)
  {
    if groups != [] { AddBesideFloatingOutline(groups[1..]); }
  }

  lemma RootSurvives(l: Layout)
    ensures PruneEach(l.root, RetiredIn(l)).None?
       <==> RetiredIn(l) != [] && KeptStrips(Strips(l.root), RETIRED_IDS) == []
  {
    if RetiredIn(l) != [] {
      FoundIsEnough(l);
      PruneEachStrips(l.root, RetiredIn(l));
    }
  }

  /** A board is kept exactly when its root survives and Inventory is there or finds a place. */
  lemma KeptBoard(l: Layout)
    ensures Reseeds(l) <==>
      || ("on-deck" in RetiredIn(l) && !LayoutContains(l, "run-of-show"))
      || PruneEach(l.root, RetiredIn(l)).None?
      || var cleaned := Cleaned(l, PruneEach(l.root, RetiredIn(l)).value);
         && !LayoutContains(cleaned, "inventory")
         && AddBeside(cleaned.root).None? && AddBesideFloating(cleaned.floating.GetOr([])).None?
  {
    RetiredInIs(l);
    LayoutContainsStrips(l, "run-of-show");
    RootSurvives(l);
    match PruneEach(l.root, RetiredIn(l))
    case None =>
    case Some(root) =>
      var cleaned := Cleaned(l, root);
      CleanedStrips(l, root);
      LayoutContainsStrips(cleaned, "inventory");
      AddBesideStrips(cleaned.root);
      AddBesideFloatingStrips(cleaned.floating.GetOr([]));
      AnyHoldsConcat(Strips(cleaned.root), FloatingStrips(cleaned.floating.GetOr([])), "run-of-show");
  }

  /**
   * A board that is kept keeps its root as the passes left it, and its floating groups as they were pruned,
   * but for the panels of the strip that takes Inventory.
   */
  lemma MigrateKeepsBoard(l: Layout)
    requires !Reseeds(l)
    ensures PruneEach(l.root, RetiredIn(l)).Some?
    ensures var m := MigrateActive(l);
      var groups := if RetiredIn(l) == [] then l.floating.GetOr([]) else KeptFloating(l.floating.GetOr([]));
      && m.schemaVersion == l.schemaVersion
      && Outline(m.root) == Outline(PruneEach(l.root, RetiredIn(l)).value)
      && OutlineFloating(m.floating.GetOr([])) == OutlineFloating(groups)
      && (RetiredIn(l) != [] && groups == [] ==> m.floating == None)
  {
    KeptBoard(l);
    var cleaned := Cleaned(l, PruneEach(l.root, RetiredIn(l)).value);
    AddBesideStrips(cleaned.root);
    AddBesideFloatingOutline(cleaned.floating.GetOr([]));
  }

  /**
   * Migration reseeds exactly when it must; otherwise its strips are the surviving ones, in order, with
   * Inventory appended to the first that holds run-of-show where it was missing.
   */
  lemma MigrateConserves(l: Layout)
    ensures Reseeds(l) ==> MigrateActive(l) == ActiveDefault()
    ensures !Reseeds(l) ==>
      AllStrips(MigrateActive(l))
        == if AnyHolds(Surviving(l), "inventory") then Surviving(l) else WithInventory(Surviving(l))
  {
    KeptBoard(l);
    if !Reseeds(l) {
      var root := PruneEach(l.root, RetiredIn(l)).value;
      var cleaned := Cleaned(l, root);
      CleanedStrips(l, root);
      LayoutContainsStrips(cleaned, "inventory");
      AddBesideStrips(cleaned.root);
      AddBesideFloatingStrips(cleaned.floating.GetOr([]));
      WithInventoryConcat(Strips(cleaned.root), FloatingStrips(cleaned.floating.GetOr([])));
    }
  }

  lemma {:induction false} KeptFloatingConcat(xs: seq<Floating>, ys: seq<Floating>)
    ensures KeptFloating(xs + ys) == KeptFloating(xs) + KeptFloating(ys)
  {
    if xs == [] {
      ConcatEmpty(ys);
    } else {
      ConcatHead(xs, ys);
      KeptFloatingConcat(xs[1..], ys);
    }
  }

  /** What is left of one floating group: nothing, or the group itself with the panels that stay. */
  ghost function PrunedGroup(g: Floating): seq<Floating> {
    var kept := Keep(g.panels, RETIRED_IDS);
    if kept == [] then []
    else [Floating(g.id, g.x, g.y, g.width, g.height,
                   if exists p :: p in kept && p.id == g.activePanelId then g.activePanelId else kept[0].id, kept)]
  }

  lemma KeptFloatingOne(g: Floating)
    ensures KeptFloating([g]) == PrunedGroup(g)
  {
    if Keep(g.panels, RETIRED_IDS) != [] { ReselectIs(g.activePanelId, Keep(g.panels, RETIRED_IDS)); }
    assert [g][1..] == [];
    ConcatEmpty(PrunedGroup(g));
  }

  /** Floating groups: pruned in place, keeping id, place and extent. */
  lemma {:induction false} KeptFloatingIs(xs: seq<Floating>, g: Floating, ys: seq<Floating>)
    ensures KeptFloating([]) == []
    ensures KeptFloating(xs + [g] + ys) == KeptFloating(xs) + PrunedGroup(g) + KeptFloating(ys)
  {
    KeptFloatingConcat(xs + [g], ys);
    KeptFloatingConcat(xs, [g]);
    KeptFloatingOne(g);
  }

  /** Nothing retired left, Inventory present. */
  ghost predicate UpToDate(l: Layout) {
    RetiredIn(l) == [] && LayoutContains(l, "inventory")
  }

  lemma StripsOfTwo(a: Node, b: Node)
    ensures StripsOf([a, b]) == Strips(a) + Strips(b)
    ensures StripsOf([b]) == Strips(b)
  {
    assert [a, b][1..] == [b] && [b][1..] == [];
    assert StripsOf([b]) == Strips(b) + StripsOf([]);
    assert StripsOf([a, b]) == Strips(a) + StripsOf([b]);
  }

  lemma DefaultStrips()
    ensures AllStrips(ActiveDefault())
         == [[Panel("stage-status", "stage-status", "Live console")], [Panel("copilot", "copilot", "Copilot")],
             [Panel("run-of-show", "run-of-show", "Run of show"), INVENTORY]]
  {
    var groups := ActiveDefault().root.children;
    StripsOfTwo(groups[0], groups[1]);
    StripsOfTwo(groups[0].children[0], groups[0].children[1]);
    StripsOfTwo(groups[0], groups[1].children[0]);
  }

  lemma UpToDateByNames(l: Layout, stage: Panel, copilot: Panel, show: Panel)
    requires AllStrips(l) == [[stage], [copilot], [show, INVENTORY]]
    requires Named(show, {"run-of-show"})
    requires !Named(stage, RETIRED_IDS) && !Named(copilot, RETIRED_IDS) && !Named(show, RETIRED_IDS)
    ensures UpToDate(l) && AnyHolds(AllStrips(l), "run-of-show")
  {
    var strips := AllStrips(l);
    assert Holds(strips[2], "run-of-show") by { assert Named(strips[2][0], {"run-of-show"}); }
    assert Holds(strips[2], "inventory") by { assert Named(strips[2][1], {"inventory"}); }
    LayoutContainsStrips(l, "inventory");
    RetiredInIs(l);
    assert !Named(INVENTORY, RETIRED_IDS);
    forall id, i | id in RETIRED_IDS && 0 <= i < |strips| ensures !Holds(strips[i], id) {
      assert forall k :: 0 <= k < |strips[i]| ==> !Named(strips[i][k], RETIRED_IDS);
    }
  }

  lemma DefaultUpToDate()
    ensures UpToDate(ActiveDefault())
    ensures AnyHolds(AllStrips(ActiveDefault()), "run-of-show")
  {
    DefaultStrips();
    UpToDateByNames(ActiveDefault(), Panel("stage-status", "stage-status", "Live console"),
                    Panel("copilot", "copilot", "Copilot"), Panel("run-of-show", "run-of-show", "Run of show"));
  }

  lemma UpToDateFromStrips(l: Layout)
    requires Free(AllStrips(l), RETIRED_IDS) && AnyHolds(AllStrips(l), "inventory")
    ensures UpToDate(l)
  {
    RetiredInIs(l);
    var strips := AllStrips(l);
    forall id, i | id in RETIRED_IDS && 0 <= i < |strips| ensures !Holds(strips[i], id) {
      forall k | 0 <= k < |strips[i]| ensures !Named(strips[i][k], {id}) {
        assert strips[i][k] in strips[i];
      }
    }
    LayoutContainsStrips(l, "inventory");
  }

  lemma SurvivingFree(l: Layout)
    ensures Free(Surviving(l), RETIRED_IDS)
  {
    FoundNames(l);
    KeptStripsFree(AllStrips(l), RETIRED_IDS);
  }

  lemma KeptAreUpToDate(kept: seq<seq<Panel>>)
    requires Free(kept, RETIRED_IDS) && (AnyHolds(kept, "inventory") || AnyHolds(kept, "run-of-show"))
    ensures var strips := if AnyHolds(kept, "inventory") then kept else WithInventory(kept);
      Free(strips, RETIRED_IDS) && AnyHolds(strips, "inventory")
  {
    if !AnyHolds(kept, "inventory") {
      WithInventoryHolds(kept);
      assert !Named(INVENTORY, RETIRED_IDS);
      WithInventoryFree(kept, RETIRED_IDS);
    }
  }

  lemma MigrateUpToDate(l: Layout)
    ensures UpToDate(MigrateActive(l))
  {
    MigrateConserves(l);
    if Reseeds(l) {
      DefaultUpToDate();
    } else {
      SurvivingFree(l);
      KeptAreUpToDate(Surviving(l));
      UpToDateFromStrips(MigrateActive(l));
    }
  }

  /** Migration is a fixpoint, and leaves a layout alone exactly when it was up to date. */
  lemma MigrateFixpoint(l: Layout)
    ensures MigrateActive(MigrateActive(l)) == MigrateActive(l)
    ensures MigrateActive(l) == l <==> UpToDate(l)
  {
    MigrateUpToDate(l);
  }

  // ---------------------------------------------------------------- the shape of a migrated board

  ghost predicate NormalStrip(panels: seq<Panel>, active: string) {
    panels != [] && HasId(panels, active)
  }

  ghost predicate NormalFloating(groups: seq<Floating>) {
    forall g :: g in groups ==> NormalStrip(g.panels, g.activePanelId)
  }

  /** The root is in normal form; so is every floating group, and an empty list of them is not kept. */
  ghost predicate NormalLayout(l: Layout) {
    && NormalForm(l.root)
    && (l.floating.Some? ==> NormalFloating(l.floating.value) && l.floating.value != [])
  }

  lemma GrownNormal(panels: seq<Panel>, active: string)
    requires NormalStrip(panels, active)
    ensures NormalStrip(panels + [INVENTORY], active)
  {
    var i :| 0 <= i < |panels| && panels[i].id == active;
    assert (panels + [INVENTORY])[i].id == active;
  }

  lemma {:induction false} PruneEachNormal(n: Node, ids: seq<string>)
    requires ids != [] && PruneEach(n, ids).Some?
    ensures NormalForm(PruneEach(n, ids).value)
    decreases |ids|
  {
    PruneNormalForm(n, {ids[0]});
    if ids[1..] != [] { PruneEachNormal(Prune(n, {ids[0]}).value, ids[1..]); }
  }

  lemma {:induction false} KeptFloatingNormal(groups: seq<Floating>)
    ensures NormalFloating(KeptFloating(groups))
  {
    if groups != [] {
      KeptFloatingNormal(groups[1..]);
      var kept := Keep(groups[0].panels, RETIRED_IDS);
      if kept != [] && !HasId(kept, groups[0].activePanelId) { assert HasId(kept, kept[0].id); }
    }
  }

  lemma {:induction false} AddBesideNormal(n: Node)
    requires NormalForm(n) && AddBeside(n).Some?
    ensures NormalForm(AddBeside(n).value)
    decreases n, 1
  {
    match n
    case Tabs(_, active, panels, _) => GrownNormal(panels, active);
    case Group(_, _, children, _) => AddBesideInNormal(children);
  }

  lemma {:induction false} AddBesideInNormal(nodes: seq<Node>)
    requires AddBesideIn(nodes).Some? && forall c :: c in nodes ==> NormalForm(c)
    ensures |AddBesideIn(nodes).value| == |nodes| && forall c :: c in AddBesideIn(nodes).value ==> NormalForm(c)
    decreases nodes, 0
  {
    if AddBeside(nodes[0]).Some? { AddBesideNormal(nodes[0]); } else { AddBesideInNormal(nodes[1..]); }
  }

  lemma {:induction false} AddBesideFloatingNormal(groups: seq<Floating>)
    requires AddBesideFloating(groups).Some? && NormalFloating(groups)
    ensures AddBesideFloating(groups).value != [] && NormalFloating(AddBesideFloating(groups).value)
  {
    if Holds(groups[0].panels, "run-of-show") {
      GrownNormal(groups[0].panels, groups[0].activePanelId);
    } else {
      AddBesideFloatingNormal(groups[1..]);
    }
  }

  lemma TraceOfTwo(a: Node, b: Node)
    ensures TraceAll([a, b]) == Trace(a) + Trace(b)
    ensures TraceAll([b]) == Trace(b)
  {
    assert [a, b][1..] == [b] && [b][1..] == [];
    ConcatEmpty(Trace(b));
    assert TraceAll([b]) == Trace(b) + TraceAll([]);
    assert TraceAll([a, b]) == Trace(a) + TraceAll([b]);
  }

  /** The default board, read from the top down. */
  lemma DefaultFromAbove()
    ensures Trace(ActiveDefault().root) == [
      GroupItem("seller-active-root", None, Row, 2),
      GroupItem("seller-active-primary", Some(620), Col, 2),
      StripItem("stage-status-group", Some(650), [Panel("stage-status", "stage-status", "Live console")], "stage-status"),
      StripItem("copilot-group", Some(350), [Panel("copilot", "copilot", "Copilot")], "copilot"),
      GroupItem("seller-active-rail", Some(380), Col, 1),
      StripItem("run-of-show-group", Some(1000),
                [Panel("run-of-show", "run-of-show", "Run of show"), Panel("inventory", "inventory", "Inventory")], "run-of-show")]
  {
    var groups := ActiveDefault().root.children;
    TraceOfTwo(groups[0], groups[1]);
    TraceOfTwo(groups[0].children[0], groups[0].children[1]);
    TraceOfTwo(groups[0], groups[1].children[0]);
    assert "stage-status" + "-group" == "stage-status-group" && "copilot" + "-group" == "copilot-group";
    assert Trace(groups[0]) == [GroupItem("seller-active-primary", Some(620), Col, 2)]
      + (Trace(groups[0].children[0]) + Trace(groups[0].children[1]));
    assert Trace(groups[1]) == [GroupItem("seller-active-rail", Some(380), Col, 1)] + Trace(groups[1].children[0]);
    var top := Trace(ActiveDefault().root);
    assert top == [GroupItem("seller-active-root", None, Row, 2)] + (Trace(groups[0]) + Trace(groups[1]));
  }

  /** The default board is not one itself: its rail is a group of one. */
  lemma DefaultHasGroupOfOne()
    ensures !NormalForm(ActiveDefault().root)
  {
    var rail := ActiveDefault().root.children[1];
    assert rail in ActiveDefault().root.children && !NormalForm(rail);
  }

  /**
   * A board that lost a retired panel and was not reseeded comes out in normal form, in root and floating
   * groups alike; one that had nothing to retire keeps its form; a reseeded one has the default's form.
   */
  lemma MigrateNormal(l: Layout)
    ensures !Reseeds(l) && (RetiredIn(l) != [] || NormalLayout(l)) ==> NormalLayout(MigrateActive(l))
    ensures Reseeds(l) ==> !NormalLayout(MigrateActive(l))
  {
    KeptBoard(l);
    DefaultHasGroupOfOne();
    if !Reseeds(l) && (RetiredIn(l) != [] || NormalLayout(l)) {
      var cleaned := Cleaned(l, PruneEach(l.root, RetiredIn(l)).value);
      if RetiredIn(l) != [] {
        PruneEachNormal(l.root, RetiredIn(l));
        KeptFloatingNormal(l.floating.GetOr([]));
      }
      assert NormalLayout(cleaned);
      if AddBeside(cleaned.root).Some? { AddBesideNormal(cleaned.root); }
      if AddBesideFloating(cleaned.floating.GetOr([])).Some? { AddBesideFloatingNormal(cleaned.floating.GetOr([])); }
    }
  }

  // ---------------------------------------------------------------- the Event Manager board

  function ManagerDefault(): Layout {
    Layout(1, Solo("event-manager", "Event manager", 1000), None)
  }

  predicate CanonicalManager(l: Layout) {
    && l.root.Tabs?
    && |l.root.panels| == 1
    && l.root.panels[0].id == "event-manager"
    && l.root.panels[0].kind == "event-manager"
    && l.root.activePanelId == "event-manager"
    && forall i :: 0 <= i < |l.floating.GetOr([])| ==> l.floating.GetOr([])[i].panels == []
  }

  function MigrateManager(l: Layout): Layout {
    if CanonicalManager(l) then l else ManagerDefault()
  }

  ghost function FloatingPanels(groups: seq<Floating>): seq<Panel> {
    if groups == [] then [] else groups[0].panels + FloatingPanels(groups[1..])
  }

  lemma {:induction false} FloatingPanelsEmpty(groups: seq<Floating>)
    ensures FloatingPanels(groups) == [] <==> forall i :: 0 <= i < |groups| ==> groups[i].panels == []
  {
    if groups != [] {
      FloatingPanelsEmpty(groups[1..]);
      forall i | 1 <= i < |groups| ensures groups[i] == groups[1..][i - 1] {
      }
      if FloatingPanels(groups[1..]) == [] && groups[0].panels == [] {
        forall i | 0 <= i < |groups| ensures groups[i].panels == [] {
          if i > 0 { assert groups[i] == groups[1..][i - 1]; }
        }
      }
    }
  }

  /** A board is canonical when its only panel is the Event Manager, selected in a root strip. */
  lemma CanonicalManagerMeans(l: Layout)
    ensures CanonicalManager(l) <==>
      && (exists p: Panel :: l.root.Tabs? && l.root.panels == [p] && p.id == "event-manager" && p.kind == "event-manager")
      && l.root.activePanelId == "event-manager"
      && FloatingPanels(l.floating.GetOr([])) == []
  {
    FloatingPanelsEmpty(l.floating.GetOr([]));
    if CanonicalManager(l) { assert l.root.panels == [l.root.panels[0]]; }
  }

  lemma {:induction false} EmptyFloatings(groups: seq<Floating>)
    requires forall i :: 0 <= i < |groups| ==> groups[i].panels == []
    ensures KeptStrips(FloatingStrips(groups), {}) == []
  {
    if groups != [] {
      EmptyFloatings(groups[1..]);
      assert FloatingStrips(groups)[1..] == FloatingStrips(groups[1..]);
    }
  }

  /** Every Event Manager board converges on its one pane, and a board already there is left alone. */
  lemma MigrateManagerConverges(l: Layout)
    ensures var m := MigrateManager(l);
      && MigrateManager(m) == m
      && (m == l <==> CanonicalManager(l))
      && exists p: Panel :: KeptStrips(AllStrips(m), {}) == [[p]] && p.id == p.kind == "event-manager"
  {
    var m := MigrateManager(l);
    var p := m.root.panels[0];
    assert m.root.Tabs? && m.root.panels == [p];
    EmptyFloatings(m.floating.GetOr([]));
    KeptStripsConcat([[p]], FloatingStrips(m.floating.GetOr([])), {});
    KeepNothing([p]);
    assert KeptStrips([[p]], {}) == [[p]] by { assert [[p]][1..] == []; }
  }

  // ---------------------------------------------------------------- bringing a panel to the front

  datatype TabView = TabView(active: string, panels: seq<Panel>)

  /** Each strip with its selected tab, in reading order. */
  function Views(n: Node): seq<TabView>
    decreases n, 1
  {
    match n
    case Tabs(_, active, panels, _) => [TabView(active, panels)]
    case Group(_, _, children, _) => ViewsOf(children)
  }

  function ViewsOf(nodes: seq<Node>): seq<TabView>
    decreases nodes, 0
  {
    if nodes == [] then [] else Views(nodes[0]) + ViewsOf(nodes[1..])
  }

  function FloatingViews(groups: seq<Floating>): seq<TabView> {
    if groups == [] then [] else [TabView(groups[0].activePanelId, groups[0].panels)] + FloatingViews(groups[1..])
  }

  function AllViews(l: Layout): seq<TabView> {
    Views(l.root) + FloatingViews(l.floating.GetOr([]))
  }

  function Select(n: Node, id: string): Option<Node>
    decreases n, 1
  {
    match n
    case Tabs(_, _, panels, _) => if HasId(panels, id) then Some(n.(activePanelId := id)) else None
    case Group(_, _, children, _) =>
      match SelectIn(children, id) case None => None case Some(cs) => Some(n.(children := cs))
  }

  function SelectIn(nodes: seq<Node>, id: string): Option<seq<Node>>
    decreases nodes, 0
  {
    if nodes == [] then None
    else match Select(nodes[0], id)
      case Some(m) => Some([m] + nodes[1..])
      case None => match SelectIn(nodes[1..], id) case None => None case Some(rest) => Some([nodes[0]] + rest)
  }

  function SelectFloating(groups: seq<Floating>, id: string): Option<seq<Floating>> {
    if groups == [] then None
    else if HasId(groups[0].panels, id) then Some([groups[0].(activePanelId := id)] + groups[1..])
    else match SelectFloating(groups[1..], id) case None => None case Some(rest) => Some([groups[0]] + rest)
  }

  function Foreground(l: Layout, id: string): Option<Layout> {
    match Select(l.root, id)
    case Some(root) => Some(l.(root := root))
    case None =>
      match SelectFloating(l.floating.GetOr([]), id)
      case Some(groups) => Some(l.(floating := Some(groups)))
      case None => None
  }

  predicate AnyView(views: seq<TabView>, id: string) {
    exists i :: 0 <= i < |views| && HasId(views[i].panels, id)
  }

  /** The first strip with the panel selects it; every other strip keeps its selection. */
  ghost function SelectFirst(views: seq<TabView>, id: string): seq<TabView> {
    if views == [] then []
    else if HasId(views[0].panels, id) then [views[0].(active := id)] + views[1..]
    else [views[0]] + SelectFirst(views[1..], id)
  }

  lemma AnyViewStep(views: seq<TabView>, id: string)
    requires views != []
    ensures AnyView(views, id) <==> HasId(views[0].panels, id) || AnyView(views[1..], id)
  {
    assert views == [views[0]] + views[1..];
    if AnyView(views[1..], id) {
      var i :| 0 <= i < |views[1..]| && HasId(views[1..][i].panels, id);
      assert views[i + 1] == views[1..][i];
    }
  }

  lemma {:induction false} SelectFirstConcat(xs: seq<TabView>, ys: seq<TabView>, id: string)
    ensures SelectFirst(xs + ys, id) == if AnyView(xs, id) then SelectFirst(xs, id) + ys else xs + SelectFirst(ys, id)
    ensures AnyView(xs + ys, id) <==> AnyView(xs, id) || AnyView(ys, id)
  {
    if xs == [] {
      assert xs + ys == ys;
    } else {
      ConcatHead(xs, ys);
      SelectFirstConcat(xs[1..], ys, id);
      AnyViewStep(xs, id);
      AnyViewStep(xs + ys, id);
      if HasId(xs[0].panels, id) {
        ConcatAssociates([xs[0].(active := id)], xs[1..], ys);
      } else {
        ConcatAssociates([xs[0]], SelectFirst(xs[1..], id), ys);
        ConcatAssociates([xs[0]], xs[1..], SelectFirst(ys, id));
        assert xs == [xs[0]] + xs[1..];
      }
    }
  }

  lemma {:induction false} SelectViews(n: Node, id: string)
    ensures Select(n, id).Some? <==> AnyView(Views(n), id)
    ensures Select(n, id).Some? ==> Views(Select(n, id).value) == SelectFirst(Views(n), id)
    ensures Select(n, id).Some? ==> Strips(Select(n, id).value) == Strips(n)
    decreases n, 1
  {
    match n
    case Tabs(_, active, panels, _) => AnyViewStep([TabView(active, panels)], id);
    case Group(_, _, children, _) => SelectInViews(children, id);
  }

  lemma {:induction false} SelectInViews(nodes: seq<Node>, id: string)
    ensures SelectIn(nodes, id).Some? <==> AnyView(ViewsOf(nodes), id)
    ensures SelectIn(nodes, id).Some? ==> ViewsOf(SelectIn(nodes, id).value) == SelectFirst(ViewsOf(nodes), id)
    ensures SelectIn(nodes, id).Some? ==> StripsOf(SelectIn(nodes, id).value) == StripsOf(nodes)
    decreases nodes, 0
  {
    if nodes != [] {
      SelectViews(nodes[0], id);
      SelectInViews(nodes[1..], id);
      SelectFirstConcat(Views(nodes[0]), ViewsOf(nodes[1..]), id);
    }
  }

  lemma {:induction false} SelectFloatingViews(groups: seq<Floating>, id: string)
    ensures SelectFloating(groups, id).Some? <==> AnyView(FloatingViews(groups), id)
    ensures SelectFloating(groups, id).Some? ==>
      FloatingViews(SelectFloating(groups, id).value) == SelectFirst(FloatingViews(groups), id)
      && FloatingStrips(SelectFloating(groups, id).value) == FloatingStrips(groups)
  {
    if groups != [] {
      SelectFloatingViews(groups[1..], id);
      AnyViewStep(FloatingViews(groups), id);
      assert FloatingViews(groups)[1..] == FloatingViews(groups[1..]);
    }
  }

  /** A tree with every selection taken away. */
  ghost function Unselected(n: Node): Node
    decreases n, 1
  {
    match n
    case Tabs(_, _, _, _) => n.(activePanelId := "")
    case Group(_, _, children, _) => n.(children := UnselectedAll(children))
  }

  ghost function UnselectedAll(nodes: seq<Node>): seq<Node>
    decreases nodes, 0
  {
    if nodes == [] then [] else [Unselected(nodes[0])] + UnselectedAll(nodes[1..])
  }

  ghost function UnselectedFloating(groups: seq<Floating>): seq<Floating> {
    if groups == [] then [] else [groups[0].(activePanelId := "")] + UnselectedFloating(groups[1..])
  }

  lemma {:induction false} SelectKeepsTree(n: Node, id: string)
    ensures Select(n, id).Some? ==> Unselected(Select(n, id).value) == Unselected(n)
    decreases n, 1
  {
    match n
    case Tabs(_, _, _, _) =>
    case Group(_, _, children, _) => SelectInKeepsTrees(children, id);
  }

  lemma {:induction false} SelectInKeepsTrees(nodes: seq<Node>, id: string)
    ensures SelectIn(nodes, id).Some? ==> UnselectedAll(SelectIn(nodes, id).value) == UnselectedAll(nodes)
    decreases nodes, 0
  {
    if nodes != [] {
      SelectKeepsTree(nodes[0], id);
      SelectInKeepsTrees(nodes[1..], id);
    }
  }

  lemma {:induction false} SelectFloatingKeepsGroups(groups: seq<Floating>, id: string)
    ensures SelectFloating(groups, id).Some? ==>
      UnselectedFloating(SelectFloating(groups, id).value) == UnselectedFloating(groups)
  {
    if groups != [] { SelectFloatingKeepsGroups(groups[1..], id); }
  }

  /** Foregrounding keeps the whole board but for its selections: trees, sizes, places, version. */
  lemma ForegroundKeepsBoard(l: Layout, id: string)
    requires Foreground(l, id).Some?
    ensures var m := Foreground(l, id).value;
      && m.schemaVersion == l.schemaVersion && Unselected(m.root) == Unselected(l.root)
      && UnselectedFloating(m.floating.GetOr([])) == UnselectedFloating(l.floating.GetOr([]))
  {
    SelectKeepsTree(l.root, id);
    SelectFloatingKeepsGroups(l.floating.GetOr([]), id);
  }

  /** Foregrounding succeeds exactly when some strip has the panel id, and changes one selection only. */
  lemma ForegroundSelects(l: Layout, id: string)
    ensures Foreground(l, id).Some? <==> AnyView(AllViews(l), id)
    ensures Foreground(l, id).Some? ==> AllViews(Foreground(l, id).value) == SelectFirst(AllViews(l), id)
    ensures Foreground(l, id).Some? ==> AllStrips(Foreground(l, id).value) == AllStrips(l)
  {
    SelectViews(l.root, id);
    SelectFloatingViews(l.floating.GetOr([]), id);
    SelectFirstConcat(Views(l.root), FloatingViews(l.floating.GetOr([])), id);
  }

  /** Foregrounding never makes a migrated board stale again. */
  lemma ForegroundStaysUpToDate(l: Layout, id: string)
    requires UpToDate(l) && Foreground(l, id).Some?
    ensures UpToDate(Foreground(l, id).value)
  {
    ForegroundSelects(l, id);
    var m := Foreground(l, id).value;
    LayoutContainsStrips(l, "inventory");
    LayoutContainsStrips(m, "inventory");
    RetiredInIs(l);
    RetiredInIs(m);
  }
}
