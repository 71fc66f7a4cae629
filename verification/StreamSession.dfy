/**
 * The media session lifecycle behind both video panes. `start` awaits a connect, so its body is two
 * steps, and starts, stops, teardowns and settling connects of different attempts interleave freely.
 * The session a connect returns is named by the attempt that asked for it.
 */
module StreamSession {
  import opened Prelude

  datatype Status = Idle | Connecting | Live | Failed

  datatype State = State(
    held: Option<nat>,
    attempt: nat,
    connecting: bool,
    status: Status,
    pending: set<nat>,
    returned: set<nat>,
    stopped: multiset<nat>)

  datatype Event =
    | Start
    | ConnectReturned(attempt: nat, attachThrows: bool)
    | ConnectThrew(attempt: nat)
    | Stop
    | Unmount

  datatype Outcome = Busy | Began | Connected | Superseded | StartFailed | Quiet

  const INITIAL := State(None, 0, false, Idle, {}, {}, multiset{})

  function Released(s: State): multiset<nat> {
    if s.held.Some? then s.stopped + multiset{s.held.value} else s.stopped
  }

  /** One atomic stretch of code. A connect settles once, so only a pending attempt can settle. */
  function Step(s: State, e: Event): (State, Outcome) {
    match e
    case Start =>
      if s.held.Some? || s.connecting then (s, Busy)
      else (s.(attempt := s.attempt + 1, connecting := true, status := Connecting, pending := s.pending + {s.attempt + 1}), Began)
    case ConnectReturned(n, attachThrows) =>
      if n !in s.pending then (s, Quiet)
      else
        var t := s.(pending := s.pending - {n}, returned := s.returned + {n});
        if s.attempt != n then (t.(stopped := s.stopped + multiset{n}), Superseded)
        else if attachThrows then (t.(connecting := false, held := Some(n), status := Failed), StartFailed)
        else (t.(connecting := false, held := Some(n), status := Live), Connected)
    case ConnectThrew(n) =>
      if n !in s.pending then (s, Quiet)
      else
        var t := s.(pending := s.pending - {n});
        if s.attempt != n then (t, Superseded) else (t.(connecting := false, status := Failed), StartFailed)
    case Stop =>
      (s.(attempt := s.attempt + 1, connecting := false, held := None, status := Idle, stopped := Released(s)), Quiet)
    case Unmount =>
      (s.(attempt := s.attempt + 1, connecting := false, held := None, stopped := Released(s)), Quiet)
  }

  ghost function Run(s: State, events: seq<Event>): State
    decreases |events|
  {
    if events == [] then s else Run(Step(s, events[0]).0, events[1..])
  }

  /** Every returned session is held or was stopped exactly once; the held one is the newest attempt's. */
  ghost predicate Conserved(s: State) {
    && (forall n :: n in s.returned ==> s.stopped[n] == if s.held == Some(n) then 0 else 1)
    && (forall n :: n !in s.returned ==> s.stopped[n] == 0)
    && (s.held.Some? ==> s.held.value == s.attempt && s.held.value in s.returned && !s.connecting)
    && (s.connecting <==> s.attempt in s.pending)
    && (forall n :: n in s.pending ==> 1 <= n <= s.attempt && n !in s.returned)
    && (forall n :: n in s.returned ==> n <= s.attempt)
  }

  lemma SettlingConserves(s: State, e: Event)
    requires Conserved(s) && (e.ConnectReturned? || e.ConnectThrew?)
    ensures Conserved(Step(s, e).0)
  {
  }

  lemma StoppingConserves(s: State, e: Event)
    requires Conserved(s) && (e.Stop? || e.Unmount?)
    ensures Conserved(Step(s, e).0)
  {
  }

  lemma StepConserves(s: State, e: Event)
    requires Conserved(s)
    ensures Conserved(Step(s, e).0)
  {
    match e
    case Start =>
    case ConnectReturned(_, _) => SettlingConserves(s, e);
    case ConnectThrew(_) => SettlingConserves(s, e);
    case Stop => StoppingConserves(s, e);
    case Unmount => StoppingConserves(s, e);
  }

  lemma {:induction false} RunConserves(s: State, events: seq<Event>)
    requires Conserved(s)
    ensures Conserved(Run(s, events))
    decreases |events|
  {
    if events != [] {
      StepConserves(s, events[0]);
      RunConserves(Step(s, events[0]).0, events[1..]);
    }
  }

  /** In every reachable state: no session lost, none stopped twice, the held one the newest attempt's. */
  lemma EveryRunConserves(events: seq<Event>)
    ensures Conserved(Run(INITIAL, events))
  {
    RunConserves(INITIAL, events);
  }

  /** When nothing is held, each session ever returned was stopped exactly once. */
  lemma NothingLeaks(events: seq<Event>)
    ensures var end := Run(INITIAL, events);
      end.held.None? ==> end.stopped == multiset(end.returned)
  {
    RunConserves(INITIAL, events);
    var end := Run(INITIAL, events);
    if end.held.None? {
      forall n ensures end.stopped[n] == multiset(end.returned)[n] {
      }
    }
  }

  /** A stale attempt settling changes nothing of the current one. */
  lemma StaleSettlesQuietly(s: State, e: Event)
    requires (e.ConnectReturned? || e.ConnectThrew?) && e.attempt != s.attempt
    ensures var t := Step(s, e).0;
      t.held == s.held && t.attempt == s.attempt && t.connecting == s.connecting && t.status == s.status
    ensures Step(s, e).1 == Superseded || Step(s, e).1 == Quiet
  {
  }

  /** A connect that comes back to the newest attempt is held, and live unless attaching its video throws. */
  lemma NewestConnectIsHeld(s: State, attachThrows: bool)
    requires s.attempt in s.pending
    ensures var (t, outcome) := Step(s, ConnectReturned(s.attempt, attachThrows));
      && t.held == Some(s.attempt) && !t.connecting && t.stopped == s.stopped && t.attempt == s.attempt
      && t.status == (if attachThrows then Failed else Live)
      && outcome == (if attachThrows then StartFailed else Connected)
  {
  }

  /** A start is refused exactly while a session is held or connecting, and a refused start changes nothing. */
  lemma StartsWhenFree(s: State)
    ensures var (t, outcome) := Step(s, Start);
      && (outcome == Busy <==> s.held.Some? || s.connecting)
      && (outcome == Busy ==> t == s)
      && (outcome != Busy ==>
            && outcome == Began && t.attempt == s.attempt + 1 && t.attempt in t.pending && t.connecting
            && t.status == Connecting && t.held == None && t.stopped == s.stopped)
  {
  }

  /** A connect settles once: an attempt that is not pending settles nothing. */
  lemma SettlesOnce(s: State, e: Event)
    requires (e.ConnectReturned? || e.ConnectThrew?) && e.attempt !in s.pending
    ensures Step(s, e) == (s, Quiet)
  {
  }

  /** A connect of the newest attempt that throws leaves nothing held and the pane free to start again. */
  lemma NewestConnectFails(s: State)
    requires Conserved(s) && s.attempt in s.pending
    ensures var (t, outcome) := Step(s, ConnectThrew(s.attempt));
      && t.held == None && !t.connecting && t.status == Failed && outcome == StartFailed
      && t.attempt == s.attempt && t.returned == s.returned && t.stopped == s.stopped
  {
  }

  /** Stopping or unmounting stops what is held, once, and supersedes whatever is connecting. */
  lemma EndingReleases(s: State, e: Event)
    requires Conserved(s) && (e == Stop || e == Unmount)
    ensures var t := Step(s, e).0;
      && t.held == None && !t.connecting && t.attempt == s.attempt + 1 && t.attempt !in t.pending
      && t.stopped == s.stopped + (if s.held.Some? then multiset{s.held.value} else multiset{})
      && t.pending == s.pending && t.status == if e == Stop then Idle else s.status
  {
  }

  ghost predicate Settles(e: Event, n: nat) {
    (e.ConnectReturned? || e.ConnectThrew?) && e.attempt == n
  }

  ghost predicate Ends(e: Event) {
    e.Stop? || e.Unmount?
  }

  /** Until it settles, an attempt stays the newest exactly as long as nobody stops: starts are refused. */
  lemma {:induction false} SupersededOnlyByStop(s: State, n: nat, events: seq<Event>)
    requires Conserved(s) && n in s.pending
    requires forall i :: 0 <= i < |events| ==> !Settles(events[i], n)
    ensures Run(s, events).attempt == n <==> s.attempt == n && forall i :: 0 <= i < |events| ==> !Ends(events[i])
    ensures n in Run(s, events).pending && Run(s, events).attempt >= s.attempt
    decreases |events|
  {
    if events != [] {
      var next := Step(s, events[0]).0;
      StepConserves(s, events[0]);
      SupersededOnlyByStop(next, n, events[1..]);
      if forall i :: 0 <= i < |events[1..]| ==> !Ends(events[1..][i]) {
        if !Ends(events[0]) {
          forall i | 0 <= i < |events| ensures !Ends(events[i]) {
            if i > 0 { assert events[i] == events[1..][i - 1]; }
          }
        }
      } else {
        var i :| 0 <= i < |events[1..]| && Ends(events[1..][i]);
        assert events[i + 1] == events[1..][i];
      }
    }
  }

  /** The hook's refs, changed in place by each stretch of code between awaits. */
  class StreamSessionHook {
    var held: Option<nat>
    var attempt: nat
    var connecting: bool
    var status: Status
    ghost var pending: set<nat>
    ghost var returned: set<nat>
    ghost var stopped: multiset<nat>

    ghost function View(): State
      reads this
    {
      State(held, attempt, connecting, status, pending, returned, stopped)
    }

    constructor ()
      ensures View() == INITIAL
    {
      held, attempt, connecting, status := None, 0, false, Idle;
      pending, returned, stopped := {}, {}, multiset{};
    }

    /** `start` up to its await: refuses, or hands out the attempt number its connect runs under. */
    method BeginStart() returns (begun: Option<nat>)
      requires Conserved(View())
      modifies this
      ensures Conserved(View()) && View() == Step(old(View()), Start).0
      ensures begun == if Step(old(View()), Start).1 == Began then Some(attempt) else None
    {
      StepConserves(View(), Start);
      if held.Some? || connecting { return None; }
      attempt := attempt + 1;
      connecting := true;
      status := Connecting;
      pending := pending + {attempt};
      begun := Some(attempt);
    }

    /** `start` after its connect returned a session. */
    method FinishStart(mine: nat, attachThrows: bool) returns (outcome: Outcome)
      requires Conserved(View()) && mine in pending
      modifies this
      ensures Conserved(View()) && (View(), outcome) == Step(old(View()), ConnectReturned(mine, attachThrows))
    {
      StepConserves(View(), ConnectReturned(mine, attachThrows));
      pending, returned := pending - {mine}, returned + {mine};
      if attempt != mine {
        stopped := stopped + multiset{mine};
        return Superseded;
      }
      connecting := false;
      held := Some(mine);
      status := Live;
      if attachThrows {
        status := Failed;
        return StartFailed;
      }
      outcome := Connected;
    }

    /** `start` after its connect threw. */
    method FailStart(mine: nat) returns (outcome: Outcome)
      requires Conserved(View()) && mine in pending
      modifies this
      ensures Conserved(View()) && (View(), outcome) == Step(old(View()), ConnectThrew(mine))
    {
      StepConserves(View(), ConnectThrew(mine));
      pending := pending - {mine};
      if attempt != mine { return Superseded; }
      connecting := false;
      status := Failed;
      outcome := StartFailed;
    }

    method StopSession()
      requires Conserved(View())
      modifies this
      ensures Conserved(View()) && View() == Step(old(View()), Stop).0
    {
      StepConserves(View(), Stop);
      attempt := attempt + 1;
      connecting := false;
      var current := held;
      held := None;
      status := Idle;
      if current.Some? { stopped := stopped + multiset{current.value}; }
    }

    method TearDown()
      requires Conserved(View())
      modifies this
      ensures Conserved(View()) && View() == Step(old(View()), Unmount).0
    {
      StepConserves(View(), Unmount);
      attempt := attempt + 1;
      connecting := false;
      var current := held;
      held := None;
      if current.Some? { stopped := stopped + multiset{current.value}; }
    }
  }
}
