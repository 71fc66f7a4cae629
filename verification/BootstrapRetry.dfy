/**
 * Bootstrap with retry: capped exponential backoff, an attempt budget that may be infinite, and a
 * budget of port conflicts counted over the whole run. The outcomes seen so far are given in order,
 * so a run that goes on for ever is every finite prefix of it.
 */
module BootstrapRetry {
  import opened Prelude

  datatype Outcome = Starts | PortConflict(error: string) | Fails(error: string)

  /** `maxAttempts` is absent when there is no limit. */
  datatype Options = Options(maxAttempts: Option<int>, portConflictMaxAttempts: int, initialDelayMs: nat, maxDelayMs: nat)

  datatype Result = Recovered(attempt: nat) | GaveUp(attempt: nat, error: string) | StillTrying

  function Conflicts(outcomes: seq<Outcome>): nat {
    if outcomes == [] then 0
    else Conflicts(outcomes[..|outcomes| - 1]) + if outcomes[|outcomes| - 1].PortConflict? then 1 else 0
  }

  /** The run ends at attempt `a`: it starts, the conflict budget is spent, or the attempt budget is. */
  predicate Ends(outcomes: seq<Outcome>, o: Options, a: nat)
    requires 1 <= a <= |outcomes|
  {
    || outcomes[a - 1].Starts?
    || (outcomes[a - 1].PortConflict? && Conflicts(outcomes[..a]) >= o.portConflictMaxAttempts)
    || (o.maxAttempts.Some? && a >= o.maxAttempts.value)
  }

  ghost function ConflictsAmong(outcomes: seq<Outcome>, a: nat): set<nat>
    requires a <= |outcomes|
  {
    set i: nat | i < a && outcomes[i].PortConflict?
  }

  lemma ConflictsAmongStep(outcomes: seq<Outcome>, a: nat)
    requires a < |outcomes|
    ensures |ConflictsAmong(outcomes, a + 1)|
         == |ConflictsAmong(outcomes, a)| + if outcomes[a].PortConflict? then 1 else 0
  {
    assert ConflictsAmong(outcomes, a + 1)
        == ConflictsAmong(outcomes, a) + if outcomes[a].PortConflict? then {a} else {};
  }

  lemma ConflictsStep(outcomes: seq<Outcome>, i: nat)
    requires i < |outcomes|
    ensures Conflicts(outcomes[..i + 1]) == Conflicts(outcomes[..i]) + if outcomes[i].PortConflict? then 1 else 0
  {
    assert outcomes[..i + 1][..i] == outcomes[..i];
  }

  /** The port conflicts among the first `a` outcomes, counted one by one. */
  lemma {:induction false} ConflictsCounted(outcomes: seq<Outcome>, a: nat)
    requires a <= |outcomes|
    ensures Conflicts(outcomes[..a]) == |ConflictsAmong(outcomes, a)|
  {
    if a > 0 {
      ConflictsCounted(outcomes, a - 1);
      ConflictsStep(outcomes, a - 1);
      ConflictsAmongStep(outcomes, a - 1);
    }
  }

  /**
   * What ends the run at an attempt: it starts; it is a conflict and spends the conflict budget; or the
   * attempt budget is spent. An ordinary failure below the attempt budget, or a conflict below both, does not.
   */
  lemma EndsWhen(outcomes: seq<Outcome>, o: Options, a: nat)
    requires 1 <= a <= |outcomes|
    ensures var spent := o.maxAttempts.Some? && o.maxAttempts.value <= a;
      match outcomes[a - 1]
      case Starts => Ends(outcomes, o, a)
      case Fails(_) => Ends(outcomes, o, a) <==> spent
      case PortConflict(_) =>
        Ends(outcomes, o, a) <==>
          spent || o.portConflictMaxAttempts <= |ConflictsAmong(outcomes, a)|
  {
    ConflictsCounted(outcomes, a);
  }

  ghost predicate GoesOn(outcomes: seq<Outcome>, o: Options, n: nat) {
    n <= |outcomes| && forall a :: 1 <= a <= n ==> !Ends(outcomes, o, a)
  }

  ghost predicate EndsFirst(outcomes: seq<Outcome>, o: Options, a: nat) {
    1 <= a <= |outcomes| && Ends(outcomes, o, a) && GoesOn(outcomes, o, a - 1)
  }

  /** The wait after attempt k + 1. */
  function DelayAt(o: Options, k: nat): nat {
    if k == 0 then o.initialDelayMs else Min(DelayAt(o, k - 1) * 2, o.maxDelayMs)
  }

  ghost predicate BackedOff(waits: seq<nat>, o: Options) {
    forall k :: 0 <= k < |waits| ==> waits[k] == DelayAt(o, k)
  }

  lemma GoesOnStep(outcomes: seq<Outcome>, o: Options, n: nat)
    requires n < |outcomes| && GoesOn(outcomes, o, n) && !Ends(outcomes, o, n + 1)
    ensures GoesOn(outcomes, o, n + 1)
  {
  }

  method BootstrapWithRetry(outcomes: seq<Outcome>, o: Options) returns (result: Result, waits: seq<nat>)
    ensures result.Recovered? ==> EndsFirst(outcomes, o, result.attempt) && outcomes[result.attempt - 1].Starts?
    ensures result.GaveUp? ==>
      EndsFirst(outcomes, o, result.attempt) && !outcomes[result.attempt - 1].Starts?
      && result.error == outcomes[result.attempt - 1].error
    ensures result.StillTrying? ==> GoesOn(outcomes, o, |outcomes|)
    ensures |waits| == if result.StillTrying? then |outcomes| else result.attempt - 1
    ensures BackedOff(waits, o)
  {
    var delayMs, portConflicts := o.initialDelayMs, 0;
    waits := [];
    for i := 0 to |outcomes|
      invariant |waits| == i && delayMs == DelayAt(o, i)
      invariant BackedOff(waits, o)
      invariant portConflicts == Conflicts(outcomes[..i])
      invariant GoesOn(outcomes, o, i)
    {
      var attempt := i + 1;
      ConflictsStep(outcomes, i);
      if outcomes[i].Starts? { return Recovered(attempt), waits; }
      if outcomes[i].PortConflict? {
        portConflicts := portConflicts + 1;
        if portConflicts >= o.portConflictMaxAttempts { return GaveUp(attempt, outcomes[i].error), waits; }
      }
      if o.maxAttempts.Some? && attempt >= o.maxAttempts.value { return GaveUp(attempt, outcomes[i].error), waits; }
      GoesOnStep(outcomes, o, i);
      waits := waits + [delayMs];
      delayMs := Min(delayMs * 2, o.maxDelayMs);
    }
    result := StillTrying;
  }

  lemma Doubled(a: nat, b: nat)
    ensures a * (2 * b) == 2 * (a * b)
  {
  }

  lemma {:induction false} DelayAfterFirst(o: Options, k: nat)
    requires k >= 1 || o.initialDelayMs <= o.maxDelayMs
    ensures DelayAt(o, k) == Min(o.initialDelayMs * Power2(k), o.maxDelayMs)
  {
    if k == 1 {
      assert Power2(1) == 2 * Power2(0);
    } else if k > 1 {
      DelayAfterFirst(o, k - 1);
      Doubled(o.initialDelayMs, Power2(k - 1));
    }
  }

  /** Every wait is min(initial * 2^k, max) exactly when the first wait does not exceed the cap. */
  lemma DelaysAreCappedDoublings(o: Options)
    ensures (forall k: nat :: DelayAt(o, k) == Min(o.initialDelayMs * Power2(k), o.maxDelayMs))
       <==> o.initialDelayMs <= o.maxDelayMs
  {
    if o.initialDelayMs <= o.maxDelayMs {
      forall k: nat ensures DelayAt(o, k) == Min(o.initialDelayMs * Power2(k), o.maxDelayMs) {
        DelayAfterFirst(o, k);
      }
    } else {
      assert DelayAt(o, 0) != Min(o.initialDelayMs * Power2(0), o.maxDelayMs);
    }
  }

  /** A run that does not go on past `n` has a first end by then. */
  lemma {:induction false} FirstEnd(outcomes: seq<Outcome>, o: Options, n: nat) returns (a: nat)
    requires n <= |outcomes| && !GoesOn(outcomes, o, n)
    ensures a <= n && EndsFirst(outcomes, o, a)
  {
    if GoesOn(outcomes, o, n - 1) { a := n; } else { a := FirstEnd(outcomes, o, n - 1); }
  }

  lemma {:induction false} LastConflict(outcomes: seq<Outcome>, o: Options, n: nat)
    requires GoesOn(outcomes, o, n)
    ensures Conflicts(outcomes[..n]) == 0 || Conflicts(outcomes[..n]) < o.portConflictMaxAttempts
  {
    if n > 0 {
      LastConflict(outcomes, o, n - 1);
      assert outcomes[..n][..n - 1] == outcomes[..n - 1];
      assert !Ends(outcomes, o, n);
    }
  }

  /** A finite attempt budget ends the run, and so do enough port conflicts anywhere in it. */
  lemma BudgetsEndTheRun(outcomes: seq<Outcome>, o: Options)
    requires outcomes != []
    ensures o.maxAttempts.Some? && o.maxAttempts.value <= |outcomes| ==>
      exists a: nat :: a <= Max(1, o.maxAttempts.value) && EndsFirst(outcomes, o, a)
    ensures Conflicts(outcomes) >= Max(1, o.portConflictMaxAttempts) ==> exists a :: EndsFirst(outcomes, o, a)
  {
    if o.maxAttempts.Some? && o.maxAttempts.value <= |outcomes| {
      var last := Max(1, o.maxAttempts.value);
      assert Ends(outcomes, o, last);
      var a := FirstEnd(outcomes, o, last);
    }
    if Conflicts(outcomes) >= Max(1, o.portConflictMaxAttempts) {
      assert outcomes[..|outcomes|] == outcomes;
      if GoesOn(outcomes, o, |outcomes|) { LastConflict(outcomes, o, |outcomes|); }
      var a := FirstEnd(outcomes, o, |outcomes|);
    }
  }

  /**
   * The run is bounded: it ends by the attempt budget, and the conflicts seen before it ends, however
   * they are spread over the run, stay below the conflict budget.
   */
  lemma RunIsBounded(outcomes: seq<Outcome>, o: Options, a: nat)
    requires EndsFirst(outcomes, o, a)
    ensures o.maxAttempts.Some? && o.maxAttempts.value >= 1 ==> a <= o.maxAttempts.value
    ensures Conflicts(outcomes[..a - 1]) == 0 || Conflicts(outcomes[..a - 1]) < o.portConflictMaxAttempts
  {
    if o.maxAttempts.Some? && 1 <= o.maxAttempts.value < a { assert Ends(outcomes, o, o.maxAttempts.value); }
    LastConflict(outcomes, o, a - 1);
  }
}
