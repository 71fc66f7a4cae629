/**
 * The run of show: the log of which product held the stage and for how long, the plan joined with
 * that log, and the clock text. Times are whole milliseconds.
 */
module RunOfShow {
  import opened Prelude

  datatype StageLog = StageLog(visitedSec: map<string, int>, activeProductId: Option<string>, activeSinceMs: Option<int>)

  const EMPTY_LOG := StageLog(map[], None, None)

  // ---------------------------------------------------------------- the stage log

  /** Whole seconds, halves rounded up, never negative. */
  function SpentSec(since: int, now: int): int {
    var rounded := (now - since + 500) / 1000;
    if rounded > 0 then rounded else 0
  }

  /** Rounded to the nearest second, a half rounded up; nothing for less than half a second, or for no time at all. */
  lemma SpentIsRounded(since: int, now: int)
    ensures now - since >= 500 ==> 1000 * SpentSec(since, now) <= now - since + 500 < 1000 * SpentSec(since, now) + 1000
    ensures now - since < 500 ==> SpentSec(since, now) == 0
  {
  }

  function Closed(log: StageLog, id: string): int {
    if id in log.visitedSec then log.visitedSec[id] else 0
  }

  /** An empty product id counts as nobody on stage. */
  predicate Running(log: StageLog) {
    log.activeProductId.Some? && log.activeProductId.value != "" && log.activeSinceMs.Some?
  }

  function CloseSegment(log: StageLog, now: int): map<string, int> {
    if !Running(log) then log.visitedSec
    else
      var id := log.activeProductId.value;
      log.visitedSec[id := Closed(log, id) + SpentSec(log.activeSinceMs.value, now)]
  }

  function OnProductChange(log: StageLog, id: Option<string>, now: int): StageLog {
    if id == log.activeProductId then log
    else StageLog(CloseSegment(log, now), id, if id.None? then None else Some(now))
  }

  function SecondsOn(log: StageLog, id: string, now: int): int {
    if log.activeProductId == Some(id) && log.activeSinceMs.Some?
    then Closed(log, id) + SpentSec(log.activeSinceMs.value, now) else Closed(log, id)
  }

  /** The time the log would lose at a change: only a product with an empty id can lose any. */
  function AtRisk(log: StageLog, now: int): int {
    if log.activeProductId == Some("") && log.activeSinceMs.Some? then SpentSec(log.activeSinceMs.value, now) else 0
  }

  /** A change at time t alters no product's seconds at t, unless the product leaving has an empty id. */
  lemma ChangePreservesSeconds(log: StageLog, id: Option<string>, now: int)
    ensures (forall q :: SecondsOn(OnProductChange(log, id, now), q, now) == SecondsOn(log, q, now))
       <==> id == log.activeProductId || AtRisk(log, now) == 0
  {
    var after := OnProductChange(log, id, now);
    if id != log.activeProductId && AtRisk(log, now) != 0 {
      assert SecondsOn(after, "", now) != SecondsOn(log, "", now);
    }
    forall q | id == log.activeProductId || AtRisk(log, now) == 0
      ensures SecondsOn(after, q, now) == SecondsOn(log, q, now)
    {
      if id != log.activeProductId && id == Some(q) { assert SpentSec(now, now) == 0; }
    }
  }

  /** A log on which that happens: a product with an empty id holds the stage for a second and leaves. */
  lemma EmptyIdLosesTime()
    ensures var staged := OnProductChange(EMPTY_LOG, Some(""), 0);
      && SecondsOn(staged, "", 1000) == 1
      && SecondsOn(OnProductChange(staged, None, 1000), "", 1000) == 0
  {
    assert SpentSec(0, 1000) == 1;
  }

  // ---------------------------------------------------------------- totals

  ghost function Sum(m: map<string, int>): int {
    if m == map[] then 0 else var k :| k in m; m[k] + Sum(m - {k})
  }

  lemma {:induction false} SumRemove(m: map<string, int>, k: string)
    requires k in m
    ensures Sum(m) == m[k] + Sum(m - {k})
    decreases |m|
  {
    var j :| j in m && Sum(m) == m[j] + Sum(m - {j});
    if j != k {
      SumRemove(m - {j}, k);
      SumRemove(m - {k}, j);
      assert m - {j} - {k} == m - {k} - {j};
    }
  }

  lemma SumPut(m: map<string, int>, k: string, v: int)
    ensures Sum(m[k := v]) == Sum(m) + v - if k in m then m[k] else 0
  {
    SumRemove(m[k := v], k);
    assert m[k := v] - {k} == m - {k};
    if k in m { SumRemove(m, k); } else { assert m - {k} == m; }
  }

  ghost function TotalElapsed(log: StageLog, now: int): int {
    Sum(log.visitedSec) + if Running(log) then SpentSec(log.activeSinceMs.value, now) else 0
  }

  /** Seconds of every product that has any, the one on stage included. */
  ghost function SecondsTable(log: StageLog, now: int): map<string, int> {
    if log.activeProductId.Some? && log.activeSinceMs.Some?
    then log.visitedSec[log.activeProductId.value := SecondsOn(log, log.activeProductId.value, now)]
    else log.visitedSec
  }

  /** The per-product seconds sum to the total elapsed, plus what an empty id on stage would lose. */
  lemma SecondsSumToTotal(log: StageLog, now: int)
    ensures Sum(SecondsTable(log, now)) == TotalElapsed(log, now) + AtRisk(log, now)
    ensures forall q ::
      SecondsOn(log, q, now) == if q in SecondsTable(log, now) then SecondsTable(log, now)[q] else 0
  {
    if log.activeProductId.Some? && log.activeSinceMs.Some? {
      SumPut(log.visitedSec, log.activeProductId.value, SecondsOn(log, log.activeProductId.value, now));
    }
  }

  // ---------------------------------------------------------------- a run of changes

  datatype Change = Change(productId: Option<string>, at: int)

  function LogOf(changes: seq<Change>): StageLog {
    if changes == [] then EMPTY_LOG
    else
      var last := changes[|changes| - 1];
      OnProductChange(LogOf(changes[..|changes| - 1]), last.productId, last.at)
  }

  /** Milliseconds during which some product was on stage. */
  ghost function OnStageMs(changes: seq<Change>, now: int): int {
    if changes == [] then 0
    else
      var last := changes[|changes| - 1];
      OnStageMs(changes[..|changes| - 1], last.at) + if last.productId.Some? then now - last.at else 0
  }

  ghost function LastProduct(changes: seq<Change>): Option<string> {
    if changes == [] then None else changes[|changes| - 1].productId
  }

  /** How many times a product took the stage. */
  ghost function Appearances(changes: seq<Change>): nat {
    if changes == [] then 0
    else
      var init, last := changes[..|changes| - 1], changes[|changes| - 1].productId;
      Appearances(init) + if last.Some? && last != LastProduct(init) then 1 else 0
  }

  ghost predicate Orderly(changes: seq<Change>, now: int) {
    && (forall i :: 0 <= i < |changes| ==> changes[i].productId != Some("") && changes[i].at <= now)
    && (forall i, j :: 0 <= i < j < |changes| ==> changes[i].at <= changes[j].at)
  }

  function Within(x: int, y: int): bool {
    -y <= x <= y
  }

  lemma RoundingBound(since: int, now: int)
    requires since <= now
    ensures Within(1000 * SpentSec(since, now) - (now - since), 500)
  {
  }

  function Live(log: StageLog, now: int): int {
    if log.activeSinceMs.Some? then now - log.activeSinceMs.value else 0
  }

  lemma {:induction false} ClosedTimeBound(changes: seq<Change>, now: int)
    requires Orderly(changes, now)
    ensures var log := LogOf(changes);
      && log.activeProductId == LastProduct(changes)
      && log.activeProductId != Some("") && (log.activeProductId.Some? <==> log.activeSinceMs.Some?)
      && (log.activeSinceMs.Some? ==> log.activeSinceMs.value <= now)
      && (log.activeProductId.Some? ==> Appearances(changes) >= 1)
      && Within(1000 * Sum(log.visitedSec) - (OnStageMs(changes, now) - Live(log, now)),
                500 * (Appearances(changes) - if log.activeProductId.Some? then 1 else 0))
  {
    if changes != [] {
      var init, last := changes[..|changes| - 1], changes[|changes| - 1];
      ClosedTimeBound(init, last.at);
      var before := LogOf(init);
      if last.productId != before.activeProductId && before.activeProductId.Some? {
        var id := before.activeProductId.value;
        SumPut(before.visitedSec, id, Closed(before, id) + SpentSec(before.activeSinceMs.value, last.at));
        RoundingBound(before.activeSinceMs.value, last.at);
      }
    }
  }

  /** With times that never go back, the total is within half a second per appearance of the truth. */
  lemma TotalWithinHalfSecondEach(changes: seq<Change>, now: int)
    requires Orderly(changes, now)
    ensures Within(1000 * TotalElapsed(LogOf(changes), now) - OnStageMs(changes, now), 500 * Appearances(changes))
  {
    ClosedTimeBound(changes, now);
    var log := LogOf(changes);
    if log.activeSinceMs.Some? { RoundingBound(log.activeSinceMs.value, now); }
  }

  // ---------------------------------------------------------------- the plan joined with the log

  datatype Entry = Entry(productId: string, plannedDurationSec: Option<int>, notes: string)

  datatype SlotState = Done | Active | Upcoming

  datatype Slot = Slot(productId: string, position: nat, plannedDurationSec: Option<int>, notes: string,
                       state: SlotState, spentSec: int, overBudgetSec: Option<int>)

  datatype View = View(slots: seq<Slot>, activeSlot: Option<Slot>, offPlanActive: Option<string>, nextUp: Option<Slot>,
                       paceDeltaSec: Option<int>, remainingCount: nat)

  function SlotFor(entry: Entry, position: nat, log: StageLog, now: int): Slot {
    var spent := SecondsOn(log, entry.productId, now);
    var visited := spent > 0 || Closed(log, entry.productId) > 0;
    var state := if log.activeProductId == Some(entry.productId) then Active else if visited then Done else Upcoming;
    Slot(entry.productId, position, entry.plannedDurationSec, entry.notes, state, spent,
         if entry.plannedDurationSec.Some? && state != Upcoming then Some(spent - entry.plannedDurationSec.value) else None)
  }

  function Slots(entries: seq<Entry>, log: StageLog, now: int): seq<Slot> {
    seq(|entries|, i requires 0 <= i < |entries| => SlotFor(entries[i], i + 1, log, now))
  }

  function FirstIn(slots: seq<Slot>, state: SlotState): Option<Slot> {
    if slots == [] then None else if slots[0].state == state then Some(slots[0]) else FirstIn(slots[1..], state)
  }

  function CountIn(slots: seq<Slot>, state: SlotState): nat {
    if slots == [] then 0 else (if slots[0].state == state then 1 else 0) + CountIn(slots[1..], state)
  }

  /** A slot left behind counts in full; the one on stage counts only when over its budget. */
  function PaceShare(slot: Slot): int {
    if slot.overBudgetSec.None? then 0
    else if slot.state == Active && slot.overBudgetSec.value < 0 then 0
    else slot.overBudgetSec.value
  }

  function PaceSum(slots: seq<Slot>): int {
    if slots == [] then 0 else PaceShare(slots[0]) + PaceSum(slots[1..])
  }

  predicate AnyTouched(slots: seq<Slot>) {
    exists i :: 0 <= i < |slots| && slots[i].overBudgetSec.Some?
  }

  function Pace(slots: seq<Slot>): Option<int> {
    if AnyTouched(slots) then Some(PaceSum(slots)) else None
  }

  predicate IsPlanned(entries: seq<Entry>, id: string) {
    exists i :: 0 <= i < |entries| && entries[i].productId == id
  }

  function BuildView(entries: seq<Entry>, log: StageLog, now: int): View {
    var slots := Slots(entries, log, now);
    var active := FirstIn(slots, Active);
    View(slots, active,
         if log.activeProductId.Some? && log.activeProductId.value != "" && active.None? then log.activeProductId else None,
         FirstIn(slots, Upcoming), Pace(slots), CountIn(slots, Upcoming))
  }

  /** What each slot shows, from the log: on stage, left behind, or still to come; its time and its budget. */
  lemma SlotShows(entries: seq<Entry>, log: StageLog, now: int, i: nat)
    requires i < |entries|
    ensures var slot, e := BuildView(entries, log, now).slots[i], entries[i];
      var left := e.productId in log.visitedSec && log.visitedSec[e.productId] > 0;
      && slot.productId == e.productId && slot.position == i + 1 && slot.notes == e.notes
      && slot.plannedDurationSec == e.plannedDurationSec
      && (slot.state == Active <==> log.activeProductId == Some(e.productId))
      && (slot.state == Done <==> log.activeProductId != Some(e.productId) && left)
      && (slot.state == Upcoming <==> log.activeProductId != Some(e.productId) && !left)
      && slot.spentSec == SecondsOn(log, e.productId, now)
      && (slot.overBudgetSec.Some? <==> e.plannedDurationSec.Some? && slot.state != Upcoming)
      && (slot.overBudgetSec.Some? ==> slot.overBudgetSec.value == slot.spentSec - e.plannedDurationSec.value)
  {
  }

  /** The pace adds up slot by slot: a slot on stage counts only what it is over, one left behind counts in full. */
  lemma {:induction false} PaceAddsUp(slots: seq<Slot>, slot: Slot)
    ensures PaceSum([]) == 0
    ensures PaceSum(slots + [slot]) - PaceSum(slots)
         == match slot.overBudgetSec
            case None => 0
            case Some(over) => if slot.state == Active then Max(0, over) else over
  {
    if slots == [] {
      ConcatEmpty([slot]);
      assert [slot][1..] == [];
    } else {
      ConcatHead(slots, [slot]);
      PaceAddsUp(slots[1..], slot);
    }
  }

  /** The view's pace is that sum once some budgeted slot has been on stage, and nothing before. */
  lemma PaceShows(entries: seq<Entry>, log: StageLog, now: int)
    ensures var v := BuildView(entries, log, now);
      v.paceDeltaSec == if exists s :: s in v.slots && s.overBudgetSec.Some? then Some(PaceSum(v.slots)) else None
  {
    var slots := Slots(entries, log, now);
    if s :| s in slots && s.overBudgetSec.Some? {
      var i :| 0 <= i < |slots| && slots[i] == s;
    }
  }

  ghost predicate DistinctPlan(entries: seq<Entry>) {
    forall i, j :: 0 <= i < j < |entries| ==> entries[i].productId != entries[j].productId
  }

  /** The slot is the first of its state. */
  ghost predicate Earliest(slots: seq<Slot>, state: SlotState, k: int) {
    0 <= k < |slots| && slots[k].state == state && forall i :: 0 <= i < k ==> slots[i].state != state
  }

  lemma {:induction false} FirstInIsEarliest(slots: seq<Slot>, state: SlotState)
    ensures FirstIn(slots, state).None? <==> forall i :: 0 <= i < |slots| ==> slots[i].state != state
    ensures FirstIn(slots, state).Some? ==>
      exists k :: Earliest(slots, state, k) && slots[k] == FirstIn(slots, state).value
  {
    if slots != [] {
      FirstInIsEarliest(slots[1..], state);
      if slots[0].state == state {
        assert Earliest(slots, state, 0);
      } else if FirstIn(slots, state).Some? {
        var k :| Earliest(slots[1..], state, k) && slots[1..][k] == FirstIn(slots, state).value;
        forall i | 0 <= i < k + 1 ensures slots[i].state != state {
          if i > 0 { assert slots[i] == slots[1..][i - 1]; }
        }
        assert Earliest(slots, state, k + 1);
      } else {
        forall i | 0 <= i < |slots| ensures slots[i].state != state {
          if i > 0 { assert slots[i] == slots[1..][i - 1]; }
        }
      }
    }
  }

  lemma {:induction false} CountsPartition(slots: seq<Slot>)
    ensures CountIn(slots, Done) + CountIn(slots, Active) + CountIn(slots, Upcoming) == |slots|
  {
    if slots != [] { CountsPartition(slots[1..]); }
  }

  lemma {:induction false} CountAtMostOne(slots: seq<Slot>, state: SlotState)
    requires forall i, j :: 0 <= i < j < |slots| ==> !(slots[i].state == state && slots[j].state == state)
    ensures CountIn(slots, state) <= 1
    ensures CountIn(slots, state) == 0 <==> forall i :: 0 <= i < |slots| ==> slots[i].state != state
  {
    if slots != [] {
      var rest := slots[1..];
      forall i, j | 0 <= i < j < |rest| ensures !(rest[i].state == state && rest[j].state == state) {
        assert rest[i] == slots[i + 1] && rest[j] == slots[j + 1];
      }
      CountAtMostOne(rest, state);
      forall i | 0 <= i < |rest| ensures rest[i] == slots[i + 1] {
      }
      if slots[0].state == state {
        forall i | 0 <= i < |rest| ensures rest[i].state != state {
          assert !(slots[0].state == state && slots[i + 1].state == state);
        }
      }
    }
  }

  lemma ActiveSlotIsStaged(entries: seq<Entry>, log: StageLog, now: int)
    ensures var active := FirstIn(Slots(entries, log, now), Active);
      && (active.Some? <==> log.activeProductId.Some? && IsPlanned(entries, log.activeProductId.value))
      && (active.Some? ==> log.activeProductId == Some(active.value.productId))
  {
    var slots := Slots(entries, log, now);
    FirstInIsEarliest(slots, Active);
    if FirstIn(slots, Active).Some? {
      var k :| Earliest(slots, Active, k) && slots[k] == FirstIn(slots, Active).value;
      assert entries[k].productId == slots[k].productId;
    }
    if log.activeProductId.Some? && IsPlanned(entries, log.activeProductId.value) {
      var i :| 0 <= i < |entries| && entries[i].productId == log.activeProductId.value;
      assert slots[i].state == Active;
    }
  }

  lemma AtMostOneActive(entries: seq<Entry>, log: StageLog, now: int)
    requires DistinctPlan(entries)
    ensures CountIn(Slots(entries, log, now), Active) <= 1
  {
    var slots := Slots(entries, log, now);
    forall i, j | 0 <= i < j < |slots| ensures !(slots[i].state == Active && slots[j].state == Active) {
      assert entries[i].productId != entries[j].productId;
    }
    CountAtMostOne(slots, Active);
  }

  lemma {:induction false} CountZero(slots: seq<Slot>, state: SlotState)
    ensures CountIn(slots, state) == 0 <==> forall i :: 0 <= i < |slots| ==> slots[i].state != state
  {
    if slots != [] {
      CountZero(slots[1..], state);
      forall i | 1 <= i < |slots| ensures slots[i] == slots[1..][i - 1] {
      }
    }
  }

  /**
   * Slot states partition the plan with at most one active; exactly one of the active slot and the
   * off-plan detour is there when somebody is on stage; next up is the earliest upcoming slot.
   */
  lemma ViewIsConsistent(entries: seq<Entry>, log: StageLog, now: int)
    requires DistinctPlan(entries)
    ensures var v := BuildView(entries, log, now);
      && CountIn(v.slots, Done) + CountIn(v.slots, Active) + v.remainingCount == |entries|
      && CountIn(v.slots, Active) <= 1
      && (v.activeSlot.Some? ==> log.activeProductId == Some(v.activeSlot.value.productId) && v.offPlanActive == None)
      && (v.activeSlot.None? ==> v.offPlanActive == if log.activeProductId == Some("") then None else log.activeProductId)
      && (v.activeSlot.Some? <==> log.activeProductId.Some? && IsPlanned(entries, log.activeProductId.value))
      && (v.nextUp.None? <==> v.remainingCount == 0)
      && (v.nextUp.Some? ==> exists k :: Earliest(v.slots, Upcoming, k) && v.slots[k] == v.nextUp.value)
  {
    var slots := Slots(entries, log, now);
    CountsPartition(slots);
    AtMostOneActive(entries, log, now);
    ActiveSlotIsStaged(entries, log, now);
    FirstInIsEarliest(slots, Upcoming);
    CountZero(slots, Upcoming);
  }

  function SpentSum(slots: seq<Slot>): int {
    if slots == [] then 0 else slots[0].spentSec + SpentSum(slots[1..])
  }

  function PlannedIds(entries: seq<Entry>): set<string> {
    set e | e in entries :: e.productId
  }

  lemma RemoveOneMore(table: map<string, int>, id: string, ids: set<string>)
    ensures table - {id} - ids == table - ({id} + ids)
    ensures Sum(table) == Sum(table - {id}) + if id in table then table[id] else 0
  {
    if id in table { SumRemove(table, id); } else { assert table - {id} == table; }
  }

  lemma {:induction false} PlannedSeconds(entries: seq<Entry>, from: nat, log: StageLog, now: int, table: map<string, int>)
    requires from <= |entries| && DistinctPlan(entries)
    requires forall i :: from <= i < |entries| ==>
      SecondsOn(log, entries[i].productId, now) == if entries[i].productId in table then table[entries[i].productId] else 0
    ensures SpentSum(Slots(entries, log, now)[from..]) == Sum(table) - Sum(table - PlannedIds(entries[from..]))
    decreases |entries| - from
  {
    var slots := Slots(entries, log, now);
    if from == |entries| {
      assert entries[from..] == [] && slots[from..] == [];
      assert table - PlannedIds(entries[from..]) == table;
    } else {
      var id := entries[from].productId;
      assert slots[from..][1..] == slots[from + 1..];
      PlannedSeconds(entries, from + 1, log, now, table - {id});
      assert entries[from..] == [entries[from]] + entries[from + 1..];
      assert PlannedIds(entries[from..]) == {id} + PlannedIds(entries[from + 1..]);
      RemoveOneMore(table, id, PlannedIds(entries[from + 1..]));
    }
  }

  /** Planned plus off-plan seconds equal the total elapsed, unless an empty id is on stage. */
  lemma PlanConservesSeconds(entries: seq<Entry>, log: StageLog, now: int)
    requires DistinctPlan(entries)
    ensures SpentSum(BuildView(entries, log, now).slots) + Sum(SecondsTable(log, now) - PlannedIds(entries))
         == TotalElapsed(log, now) + AtRisk(log, now)
  {
    SecondsSumToTotal(log, now);
    PlannedSeconds(entries, 0, log, now, SecondsTable(log, now));
    assert entries[0..] == entries && Slots(entries, log, now)[0..] == Slots(entries, log, now);
  }

  lemma SlotsOverTime(entry: Entry, position: nat, log: StageLog, t: int, u: int)
    requires t <= u
    ensures var a, b := SlotFor(entry, position, log, t), SlotFor(entry, position, log, u);
      a.state == b.state && (a.overBudgetSec.Some? <==> b.overBudgetSec.Some?) && PaceShare(a) <= PaceShare(b)
  {
  }

  lemma {:induction false} PaceSumGrows(a: seq<Slot>, b: seq<Slot>)
    requires |a| == |b| && forall i :: 0 <= i < |a| ==> PaceShare(a[i]) <= PaceShare(b[i])
    ensures PaceSum(a) <= PaceSum(b)
  {
    if a != [] {
      forall i | 0 <= i < |a[1..]| ensures PaceShare(a[1..][i]) <= PaceShare(b[1..][i]) {
        assert PaceShare(a[i + 1]) <= PaceShare(b[i + 1]);
      }
      PaceSumGrows(a[1..], b[1..]);
    }
  }

  /** While the staged product is unchanged the pace never decreases, and never appears or vanishes. */
  lemma PaceNeverDecreases(entries: seq<Entry>, log: StageLog, t: int, u: int)
    requires t <= u
    ensures var a, b := BuildView(entries, log, t).paceDeltaSec, BuildView(entries, log, u).paceDeltaSec;
      (a.Some? <==> b.Some?) && (a.Some? ==> a.value <= b.value)
  {
    var a, b := Slots(entries, log, t), Slots(entries, log, u);
    forall i | 0 <= i < |entries|
      ensures (a[i].overBudgetSec.Some? <==> b[i].overBudgetSec.Some?) && PaceShare(a[i]) <= PaceShare(b[i])
    {
      SlotsOverTime(entries[i], i + 1, log, t, u);
    }
    PaceSumGrows(a, b);
  }

  // ---------------------------------------------------------------- clock text

  function Pad2(n: nat): string {
    if n < 10 then "0" + Digits(n) else Digits(n)
  }

  function FormatClock(totalSec: int): string {
    var sec := if totalSec > 0 then totalSec else 0;
    var h, m, s := sec / 3600, sec % 3600 / 60, sec % 60;
    if h > 0 then Digits(h) + ":" + Pad2(m) + ":" + Pad2(s) else Digits(m) + ":" + Pad2(s)
  }

  /** Reads clock text back: closed fields in base sixty, and the field being read. */
  function Scan(text: string, closed: nat, field: nat): (nat, nat) {
    if text == "" then (closed, field)
    else if '0' <= text[0] <= '9' then Scan(text[1..], closed, 10 * field + (text[0] - '0') as nat)
    else Scan(text[1..], 60 * (closed + field), 0)
  }

  function ParseClock(text: string): nat {
    var (closed, field) := Scan(text, 0, 0);
    closed + field
  }

  lemma {:induction false} ScanConcat(a: string, b: string, closed: nat, field: nat)
    ensures Scan(a + b, closed, field) == Scan(b, Scan(a, closed, field).0, Scan(a, closed, field).1)
  {
    if a == "" {
      assert a + b == b;
    } else {
      assert (a + b)[0] == a[0] && (a + b)[1..] == a[1..] + b;
      if '0' <= a[0] <= '9' { ScanConcat(a[1..], b, closed, 10 * field + (a[0] - '0') as nat); }
      else { ScanConcat(a[1..], b, 60 * (closed + field), 0); }
    }
  }

  lemma ScanDigit(d: nat, closed: nat, field: nat)
    requires d < 10
    ensures Scan([DigitChar(d)], closed, field) == (closed, 10 * field + d)
  {
    assert [DigitChar(d)][1..] == "";
  }

  lemma {:induction false} ScanDigits(n: nat, closed: nat)
    ensures Scan(Digits(n), closed, 0) == (closed, n)
  {
    if n < 10 {
      ScanDigit(n, closed, 0);
    } else {
      ScanDigits(n / 10, closed);
      ScanConcat(Digits(n / 10), [DigitChar(n % 10)], closed, 0);
      ScanDigit(n % 10, closed, n / 10);
    }
  }

  lemma ScanPad2(n: nat, closed: nat)
    ensures Scan(Pad2(n), closed, 0) == (closed, n)
  {
    ScanDigits(n, closed);
    if n < 10 {
      ScanConcat("0", Digits(n), closed, 0);
      assert "0" == [DigitChar(0)];
      ScanDigit(0, closed, 0);
    }
  }

  lemma ScanColon(closed: nat, field: nat)
    ensures Scan(":", closed, field) == (60 * (closed + field), 0)
  {
    assert ":"[1..] == "";
  }

  lemma ScanField(head: string, n: nat, closed: nat, field: nat)
    requires Scan(head, 0, 0) == (closed, field)
    ensures Scan(head + ":" + Pad2(n), 0, 0) == (60 * (closed + field), n)
  {
    ScanConcat(head, ":", 0, 0);
    ScanColon(closed, field);
    ScanConcat(head + ":", Pad2(n), 0, 0);
    ScanPad2(n, 60 * (closed + field));
  }

  lemma FieldsRoundTrip(h: nat, m: nat, s: nat)
    ensures ParseClock(Digits(m) + ":" + Pad2(s)) == 60 * m + s
    ensures ParseClock(Digits(h) + ":" + Pad2(m) + ":" + Pad2(s)) == 60 * (60 * h + m) + s
  {
    ScanDigits(m, 0);
    ScanField(Digits(m), s, 0, m);
    ScanDigits(h, 0);
    ScanField(Digits(h), m, 0, h);
    ScanField(Digits(h) + ":" + Pad2(m), s, 60 * h, m);
  }

  function TwoDigits(n: nat): string
    requires n < 100
  {
    [DigitChar(n / 10), DigitChar(n % 10)]
  }

  lemma Pad2Is(n: nat)
    requires n < 100
    ensures Pad2(n) == TwoDigits(n)
  {
    if n >= 10 {
      assert Digits(n / 10) == [DigitChar(n / 10)];
    }
  }

  /** Clock text: minutes and two digits of seconds; from an hour on, hours and two digits of each. */
  lemma ClockShape(sec: nat)
    ensures sec < 3600 ==> FormatClock(sec) == Digits(sec / 60) + ":" + TwoDigits(sec % 60)
    ensures sec >= 3600 ==>
      FormatClock(sec) == Digits(sec / 3600) + ":" + TwoDigits(sec % 3600 / 60) + ":" + TwoDigits(sec % 60)
  {
    Pad2Is(sec % 60);
    Pad2Is(sec % 3600 / 60);
    assert sec < 3600 ==> sec / 3600 == 0 && sec % 3600 == sec;
  }

  lemma HoursSplit(sec: nat)
    ensures sec == 3600 * (sec / 3600) + sec % 3600
  {
  }

  lemma MinutesSplit(sec: nat)
    ensures sec == 60 * (sec / 60) + sec % 60 && sec % 60 < 60
  {
  }

  lemma WholeMinutes(minutes: nat, sec: nat)
    requires sec < 60
    ensures (60 * minutes + sec) % 60 == sec
  {
  }

  lemma SixtyFields(sec: nat, h: nat, r: nat)
    requires h == sec / 3600 && r == sec % 3600
    ensures 60 * (60 * h + r / 60) + sec % 60 == sec
  {
    HoursSplit(sec);
    MinutesSplit(r);
    WholeMinutes(60 * h + r / 60, r % 60);
  }

  /** Clock text decodes to the seconds it was made from; a negative time shows as zero. */
  lemma ClockRoundTrip(totalSec: int)
    ensures ParseClock(FormatClock(totalSec)) == if totalSec > 0 then totalSec else 0
  {
    var sec := if totalSec > 0 then totalSec else 0;
    SixtyFields(sec, sec / 3600, sec % 3600);
    FieldsRoundTrip(sec / 3600, sec % 3600 / 60, sec % 60);
  }
}
