/**
 * The Deepgram capture session. `start` awaits a token and then a socket open, so attempts overlap
 * with stops, failures and each other; `generation` and `stopping` decide which attempt may proceed.
 * Sockets and recorders are named by the generation that created them.
 */
module Deepgram {
  import opened Prelude

  datatype Mode = Idle | Connecting | Listening | Stopped | InError

  datatype Stream = NoStream | EndedStream | LiveStream

  /** Where an attempt is waiting: for its token, for its socket, or for its failure to be caught. */
  datatype Phase = AwaitingToken | AwaitingOpen | Rejected

  /** What came of the recorder when the socket opened: none made, one that would not start, or one running. */
  datatype Capture = NotMade | WouldNotStart | Started

  /**
   * `attempts` records the attempts in flight; `wired` and `recording` the attempts whose socket and whose
   * recorder were given handlers. Handlers are never taken off again, whether the attempt is over or not.
   */
  datatype State = State(
    mode: Mode,
    socket: Option<nat>,
    recorder: Option<nat>,
    stopping: bool,
    generation: nat,
    attempts: map<nat, Phase>,
    wired: set<nat>,
    recording: set<nat>)

  datatype Event =
    | Start(stream: Stream)
    | TokenArrives(attempt: nat, usable: bool, socketOpensUp: bool)
    | TokenFails(attempt: nat)
    | SocketOpens(attempt: nat, streamLive: bool, capture: Capture)
    | FailureCaught(attempt: nat)
    | SocketErrors(attempt: nat)
    | SocketCloses(attempt: nat)
    | RecorderErrors(attempt: nat)
    | MessageUnreadable(attempt: nat)
    | Stop

  const INITIAL := State(Idle, None, None, false, 0, map[], {}, {})

  predicate Superseded(s: State, attempt: nat) {
    s.stopping || attempt != s.generation
  }

  predicate Waiting(s: State, attempt: nat, phase: Phase) {
    attempt in s.attempts && s.attempts[attempt] == phase
  }

  function Settled(s: State, attempt: nat): State {
    s.(attempts := s.attempts - {attempt})
  }

  function CleanedUp(s: State): State {
    s.(stopping := true, recorder := None, socket := None)
  }

  /** The catch path: shared cleanup, then the error is reported. */
  function Caught(s: State, attempt: nat): State {
    Settled(CleanedUp(s), attempt).(mode := InError)
  }

  function Step(s: State, e: Event): State {
    match e
    case Start(stream) =>
      if s.mode == Listening || s.mode == Connecting then s
      else if stream != LiveStream then s.(mode := InError)
      else
        var g := s.generation + 1;
        s.(generation := g, stopping := false, mode := Connecting, attempts := s.attempts[g := AwaitingToken])
    case TokenArrives(g, usable, socketOpensUp) =>
      if !Waiting(s, g, AwaitingToken) then s
      else if Superseded(s, g) then Settled(s, g)
      else if !usable || !socketOpensUp then Caught(s, g)
      else s.(socket := Some(g), attempts := s.attempts[g := AwaitingOpen], wired := s.wired + {g})
    case TokenFails(g) =>
      if !Waiting(s, g, AwaitingToken) then s else Caught(s, g)
    case SocketOpens(g, streamLive, capture) =>
      if !Waiting(s, g, AwaitingOpen) then s
      else if Superseded(s, g) then Settled(s, g)
      else if !streamLive || capture == NotMade then s.(attempts := s.attempts[g := Rejected])
      else
        var t := s.(recording := s.recording + {g});
        if capture == WouldNotStart then t.(attempts := s.attempts[g := Rejected])
        else Settled(t, g).(recorder := Some(g), mode := Listening)
    case FailureCaught(g) =>
      if !Waiting(s, g, Rejected) then s else Caught(s, g)
    case SocketErrors(g) => if g in s.wired then s.(mode := InError) else s
    case SocketCloses(g) => if g in s.wired && !s.stopping && s.mode != InError then s.(mode := InError) else s
    case RecorderErrors(g) => if g in s.recording then s.(mode := InError) else s
    case MessageUnreadable(g) => if g in s.wired then s.(mode := InError) else s
    case Stop =>
      var t := s.(generation := s.generation + 1, stopping := true);
      if s.mode == Stopped || s.mode == Idle then t else CleanedUp(t).(mode := Stopped)
  }

  ghost function Run(s: State, events: seq<Event>): State
    decreases |events|
  {
    if events == [] then s else Run(Step(s, events[0]), events[1..])
  }

  /** What every reachable state satisfies. */
  ghost predicate Inv(s: State) {
    && (s.mode == Listening ==> s.recorder == Some(s.generation) && s.socket == Some(s.generation) && !s.stopping)
    && (s.stopping ==> s.socket == None && s.recorder == None && s.mode != Listening && s.mode != Connecting)
    && (s.mode == Idle || s.mode == Stopped ==> s.socket == None && s.recorder == None)
    && (s.mode == Idle ==> s.attempts == map[] && s.wired == {})
    && s.recording <= s.wired
    && (forall g :: g in s.attempts && s.attempts[g] != AwaitingToken ==> g in s.wired)
    && (forall g :: g in s.wired ==> 1 <= g <= s.generation)
    && (s.mode == Listening ==> s.generation in s.recording)
    && (s.mode == Stopped ==> s.stopping)
    && (s.mode == Connecting ==> s.generation in s.attempts)
    && (forall g :: g in s.attempts ==> 1 <= g <= s.generation)
    && (Waiting(s, s.generation, AwaitingOpen) && !s.stopping ==> s.socket == Some(s.generation))
  }

  lemma ArrivalKeepsInv(s: State, e: Event)
    requires Inv(s) && (e.TokenArrives? || e.SocketOpens?)
    ensures Inv(Step(s, e))
  {
  }

  lemma StepKeepsInv(s: State, e: Event)
    requires Inv(s)
    ensures Inv(Step(s, e))
  {
    if e.TokenArrives? || e.SocketOpens? { ArrivalKeepsInv(s, e); }
  }

  lemma {:induction false} RunKeepsInv(s: State, events: seq<Event>)
    requires Inv(s)
    ensures Inv(Run(s, events))
    decreases |events|
  {
    if events != [] {
      StepKeepsInv(s, events[0]);
      RunKeepsInv(Step(s, events[0]), events[1..]);
    }
  }

  /** In every reachable state, listening means holding a recorder and a socket of the newest attempt. */
  lemma ListeningHoldsBoth(events: seq<Event>)
    ensures var s := Run(INITIAL, events);
      s.mode == Listening ==>
        s.recorder == Some(s.generation) && s.socket == Some(s.generation) && !s.stopping
  {
    RunKeepsInv(INITIAL, events);
  }

  /** Only the newest attempt that has not been stopped, with a live stream, can enter listening. */
  lemma OnlyNewestEntersListening(s: State, e: Event)
    requires Inv(s) && s.mode != Listening && Step(s, e).mode == Listening
    ensures e == SocketOpens(s.generation, true, Started)
    ensures !s.stopping && Waiting(s, s.generation, AwaitingOpen)
  {
  }

  lemma {:induction false} StaysStopping(s: State, events: seq<Event>)
    requires s.stopping
    requires forall i :: 0 <= i < |events| ==> events[i] != Start(LiveStream)
    ensures Run(s, events).stopping
    decreases |events|
  {
    if events != [] {
      StaysStopping(Step(s, events[0]), events[1..]);
    }
  }

  /** A start begins a fresh attempt on a live stream, is refused on any other, and is ignored while one is under way. */
  lemma StartBegins(s: State, stream: Stream)
    requires Inv(s)
    ensures var t := Step(s, Start(stream));
      if s.mode == Listening || s.mode == Connecting then t == s
      else if stream != LiveStream then t == s.(mode := InError)
      else
        && t.mode == Connecting && !t.stopping && t.generation == s.generation + 1
        && Waiting(t, t.generation, AwaitingToken) && t.generation !in t.wired
        && t.socket == s.socket && t.recorder == s.recorder
  {
  }

  /** The newest attempt gets through: a usable token wires its socket, and the open socket starts it listening. */
  lemma NewestGetsThrough(s: State)
    requires Inv(s) && !s.stopping
    ensures Waiting(s, s.generation, AwaitingToken) ==>
      var t := Step(s, TokenArrives(s.generation, true, true));
      t.socket == Some(s.generation) && s.generation in t.wired && Waiting(t, s.generation, AwaitingOpen)
      && t.mode == s.mode && t.recorder == s.recorder
    ensures Waiting(s, s.generation, AwaitingOpen) ==>
      var t := Step(s, SocketOpens(s.generation, true, Started));
      t.mode == Listening && t.recorder == Some(s.generation) && t.socket == Some(s.generation)
      && s.generation in t.recording && s.generation !in t.attempts
  {
  }

  /** A handler left on the attempt's socket or recorder reports an error. */
  ghost predicate Complains(s: State, e: Event, g: nat) {
    || (g in s.wired && (e == SocketErrors(g) || e == MessageUnreadable(g)))
    || (g in s.recording && e == RecorderErrors(g))
    || (g in s.wired && e == SocketCloses(g) && !s.stopping)
  }

  /** Any complaint that is heard is an error and nothing else, whichever attempt it comes from. */
  lemma ComplaintsAreErrors(s: State, e: Event, g: nat)
    requires e == SocketErrors(g) || e == MessageUnreadable(g) || e == RecorderErrors(g) || e == SocketCloses(g)
    ensures Step(s, e) ==
      if Complains(s, e, g) then s.(mode := InError) else s
  {
  }

  /** From a stop until the next start on a live stream: never listening, nothing held. */
  lemma {:induction false} StopSilences(s: State, events: seq<Event>)
    requires Inv(s)
    requires forall i :: 0 <= i < |events| ==> events[i] != Start(LiveStream)
    ensures var t := Run(Step(s, Stop), events);
      t.mode != Listening && t.mode != Connecting && t.socket == None && t.recorder == None
  {
    StepKeepsInv(s, Stop);
    StaysStopping(Step(s, Stop), events);
    RunKeepsInv(Step(s, Stop), events);
  }

  /** An attempt that was stopped never listens, whatever is started later. */
  lemma {:induction false} StoppedAttemptNeverListens(s: State, g: nat, events: seq<Event>)
    requires Inv(s) && g <= s.generation && (g == s.generation ==> s.stopping)
    ensures Run(s, events).recorder == Some(g) ==> s.recorder == Some(g)
    ensures Run(s, events).mode == Listening ==> Run(s, events).generation > g
    decreases |events|
  {
    if events != [] {
      StepKeepsInv(s, events[0]);
      StoppedAttemptNeverListens(Step(s, events[0]), g, events[1..]);
    }
  }

  // ---------------------------------------------------------------- attempts that are not the newest

  ghost predicate OfAttempt(e: Event, g: nat) {
    match e
    case Start(_) => false
    case Stop => false
    case _ => e.attempt == g
  }

  /** The attempt's own failure reaches its catch block. */
  ghost predicate Fails(s: State, e: Event, g: nat) {
    || (e == TokenFails(g) && Waiting(s, g, AwaitingToken))
    || (e == FailureCaught(g) && Waiting(s, g, Rejected))
  }

  /** Everything but which attempts are still in flight and which have handlers. */
  ghost function Session(s: State): State {
    s.(attempts := map[], wired := {}, recording := {})
  }

  /**
   * An attempt that is not the newest leaves the session alone exactly unless it fails while the session
   * is not already stopped in error, or a handler it left behind complains while the session is not in
   * error: neither the catch block nor those handlers ask whether the attempt was superseded. A failure
   * takes everything held away; a complaint leaves it held and only reports the error.
   */
  lemma StaleAttemptIsQuietUnless(s: State, g: nat, e: Event)
    requires Inv(s) && g != s.generation && OfAttempt(e, g)
    ensures Session(Step(s, e)) == Session(s) <==>
      && (Fails(s, e, g) ==> s.stopping && s.mode == InError)
      && (Complains(s, e, g) ==> s.mode == InError)
    ensures Fails(s, e, g) ==>
      Session(Step(s, e)) == Session(s).(mode := InError, stopping := true, socket := None, recorder := None)
    ensures Complains(s, e, g) ==> Session(Step(s, e)) == Session(s).(mode := InError)
  {
  }

  /**
   * Whoever fails, the newest attempt or an older one, the shared cleanup leaves nothing held and nobody
   * listening until the next start on a live stream.
   */
  lemma FailureSilences(s: State, g: nat, e: Event, events: seq<Event>)
    requires Inv(s) && Fails(s, e, g)
    requires forall i :: 0 <= i < |events| ==> events[i] != Start(LiveStream)
    ensures var t := Run(Step(s, e), events);
      t.mode != Listening && t.mode != Connecting && t.socket == None && t.recorder == None
  {
    StepKeepsInv(s, e);
    StaysStopping(Step(s, e), events);
    RunKeepsInv(Step(s, e), events);
  }

  lemma {:induction false} RunSnoc(s: State, events: seq<Event>, e: Event)
    ensures Run(s, events + [e]) == Step(Run(s, events), e)
    decreases |events|
  {
    if events == [] {
      ConcatEmpty([e]);
      assert [e][1..] == [];
    } else {
      ConcatHead(events, [e]);
      RunSnoc(Step(s, events[0]), events[1..], e);
    }
  }

  /** The first attempt waits for its token while a stop lets a second start, which gets the number 3. */
  const RESTARTED := [Start(LiveStream)] + [Stop] + [Start(LiveStream)]

  const OVERTAKEN := RESTARTED + [TokenArrives(3, true, true)] + [SocketOpens(3, true, Started)]

  lemma StaleFailureIsReachable()
    ensures Run(INITIAL, RESTARTED)
         == State(Connecting, None, None, false, 3, map[1 := AwaitingToken, 3 := AwaitingToken], {}, {})
    ensures Run(INITIAL, OVERTAKEN) == State(Listening, Some(3), Some(3), false, 3, map[1 := AwaitingToken], {3}, {3})
  {
    RunSnoc(INITIAL, [], Start(LiveStream));
    ConcatEmpty([Start(LiveStream)]);
    RunSnoc(INITIAL, [Start(LiveStream)], Stop);
    RunSnoc(INITIAL, [Start(LiveStream)] + [Stop], Start(LiveStream));
    RunSnoc(INITIAL, RESTARTED, TokenArrives(3, true, true));
    RunSnoc(INITIAL, RESTARTED + [TokenArrives(3, true, true)], SocketOpens(3, true, Started));
    assert Run(INITIAL, OVERTAKEN).attempts == map[1 := AwaitingToken];
  }

  /** From there the first attempt's refused token ends the second one, connecting or already listening. */
  lemma StaleFailureStopsNewAttempt()
    ensures Run(INITIAL, RESTARTED + [TokenFails(1)])
         == State(InError, None, None, true, 3, map[3 := AwaitingToken], {}, {})
    ensures Run(INITIAL, OVERTAKEN + [TokenFails(1)]) == State(InError, None, None, true, 3, map[], {3}, {3})
  {
    StaleFailureIsReachable();
    RunSnoc(INITIAL, RESTARTED, TokenFails(1));
    RunSnoc(INITIAL, OVERTAKEN, TokenFails(1));
    assert map[1 := AwaitingToken, 3 := AwaitingToken] - {1} == map[3 := AwaitingToken];
    assert map[1 := AwaitingToken] - {1} == map[];
  }

  const HEARD := [Start(LiveStream)] + [TokenArrives(1, true, true)] + [SocketOpens(1, true, Started)]

  /** The first attempt listened and was stopped; a second one connects. */
  const STOPPED_AND_RESTARTED := HEARD + [Stop] + [Start(LiveStream)]

  /** The first attempt's recorder broke, its socket still open; a second one listens. */
  const BROKEN_AND_RESTARTED :=
    HEARD + [RecorderErrors(1)] + [Start(LiveStream)] + [TokenArrives(2, true, true)] + [SocketOpens(2, true, Started)]

  lemma HeardFirst()
    ensures Run(INITIAL, HEARD) == State(Listening, Some(1), Some(1), false, 1, map[], {1}, {1})
  {
    RunSnoc(INITIAL, [], Start(LiveStream));
    ConcatEmpty([Start(LiveStream)]);
    RunSnoc(INITIAL, [Start(LiveStream)], TokenArrives(1, true, true));
    RunSnoc(INITIAL, [Start(LiveStream)] + [TokenArrives(1, true, true)], SocketOpens(1, true, Started));
    assert Run(INITIAL, HEARD).attempts == map[];
  }

  /** The late close of a stopped attempt's socket puts the attempt started since in error. */
  lemma LateCloseStopsConnecting()
    ensures Run(INITIAL, STOPPED_AND_RESTARTED)
         == State(Connecting, None, None, false, 3, map[3 := AwaitingToken], {1}, {1})
    ensures Run(INITIAL, STOPPED_AND_RESTARTED + [SocketCloses(1)])
         == State(InError, None, None, false, 3, map[3 := AwaitingToken], {1}, {1})
  {
    HeardFirst();
    RunSnoc(INITIAL, HEARD, Stop);
    RunSnoc(INITIAL, HEARD + [Stop], Start(LiveStream));
    RunSnoc(INITIAL, STOPPED_AND_RESTARTED, SocketCloses(1));
  }

  /** The close of an older socket ends listening in error, with the newer recorder and socket still held. */
  lemma LateCloseEndsListening()
    ensures Run(INITIAL, BROKEN_AND_RESTARTED)
         == State(Listening, Some(2), Some(2), false, 2, map[], {1, 2}, {1, 2})
    ensures Run(INITIAL, BROKEN_AND_RESTARTED + [SocketCloses(1)])
         == State(InError, Some(2), Some(2), false, 2, map[], {1, 2}, {1, 2})
  {
    HeardFirst();
    var broken := HEARD + [RecorderErrors(1)];
    RunSnoc(INITIAL, HEARD, RecorderErrors(1));
    RunSnoc(INITIAL, broken, Start(LiveStream));
    RunSnoc(INITIAL, broken + [Start(LiveStream)], TokenArrives(2, true, true));
    RunSnoc(INITIAL, broken + [Start(LiveStream)] + [TokenArrives(2, true, true)], SocketOpens(2, true, Started));
    assert Run(INITIAL, BROKEN_AND_RESTARTED).attempts == map[];
    RunSnoc(INITIAL, BROKEN_AND_RESTARTED, SocketCloses(1));
  }

  class DeepgramSession {
    var mode: Mode
    var socket: Option<nat>
    var recorder: Option<nat>
    var stopping: bool
    var generation: nat
    ghost var attempts: map<nat, Phase>
    ghost var wired: set<nat>
    ghost var recording: set<nat>

    ghost function View(): State
      reads this
    {
      State(mode, socket, recorder, stopping, generation, attempts, wired, recording)
    }

    constructor ()
      ensures View() == INITIAL
    {
      mode, socket, recorder, stopping, generation := Idle, None, None, false, 0;
      attempts, wired, recording := map[], {}, {};
    }

    /** Nothing is held any more and every attempt in flight is superseded; mode and generation stay. */
    method Cleanup()
      modifies this`stopping, this`recorder, this`socket
      ensures View() == CleanedUp(old(View()))
      ensures socket == None && recorder == None && forall g: nat :: Superseded(View(), g)
      ensures mode == old(mode) && generation == old(generation) && attempts == old(attempts)
    {
      stopping := true;
      recorder := None;
      socket := None;
    }

    /** `start` up to its first await: the generation it runs under, or nothing when it did not begin. */
    method BeginStart(stream: Stream) returns (begun: Option<nat>, refused: bool)
      requires Inv(View())
      modifies this
      ensures Inv(View()) && View() == Step(old(View()), Start(stream))
      ensures begun.Some? ==> begun.value == generation == old(generation) + 1 && mode == Connecting
      ensures refused <==> old(mode) != Listening && old(mode) != Connecting && stream != LiveStream
      ensures begun.Some? <==> old(mode) != Listening && old(mode) != Connecting && stream == LiveStream
    {
      StepKeepsInv(View(), Start(stream));
      if mode == Listening || mode == Connecting { return None, false; }
      if stream != LiveStream {
        mode := InError;
        return None, true;
      }
      generation := generation + 1;
      stopping := false;
      mode := Connecting;
      attempts := attempts[generation := AwaitingToken];
      return Some(generation), false;
    }

    /** `start` resumed with a token. */
    method ResumeWithToken(mine: nat, usable: bool, socketOpensUp: bool)
      requires Inv(View()) && Waiting(View(), mine, AwaitingToken)
      modifies this
      ensures Inv(View()) && View() == Step(old(View()), TokenArrives(mine, usable, socketOpensUp))
    {
      StepKeepsInv(View(), TokenArrives(mine, usable, socketOpensUp));
      if stopping || mine != generation {
        attempts := attempts - {mine};
        return;
      }
      if !usable || !socketOpensUp {
        CatchFailure(mine);
        return;
      }
      socket := Some(mine);
      wired := wired + {mine};
      attempts := attempts[mine := AwaitingOpen];
    }

    /** The catch block of `start`, run whether or not the attempt was superseded. */
    method CatchFailure(mine: nat)
      modifies this
      ensures View() == Caught(old(View()), mine)
    {
      Cleanup();
      mode := InError;
      attempts := attempts - {mine};
    }

    method OnOpen(mine: nat, streamLive: bool, capture: Capture)
      requires Inv(View()) && Waiting(View(), mine, AwaitingOpen)
      modifies this
      ensures Inv(View()) && View() == Step(old(View()), SocketOpens(mine, streamLive, capture))
    {
      StepKeepsInv(View(), SocketOpens(mine, streamLive, capture));
      if stopping || mine != generation {
        attempts := attempts - {mine};
        return;
      }
      if !streamLive || capture == NotMade {
        attempts := attempts[mine := Rejected];
        return;
      }
      recording := recording + {mine};
      if capture == WouldNotStart {
        attempts := attempts[mine := Rejected];
        return;
      }
      recorder := Some(mine);
      mode := Listening;
      attempts := attempts - {mine};
    }

    /** The close handler of any attempt's socket: silent while stopping, an error otherwise. */
    method OnClose(mine: nat)
      requires Inv(View()) && mine in wired
      modifies this
      ensures Inv(View()) && View() == Step(old(View()), SocketCloses(mine))
    {
      StepKeepsInv(View(), SocketCloses(mine));
      if !stopping && mode != InError { mode := InError; }
    }

    /** The error handler of any attempt's socket or recorder, and a message that cannot be read. */
    method OnComplaint(mine: nat, fromRecorder: bool)
      requires Inv(View()) && mine in (if fromRecorder then recording else wired)
      modifies this
      ensures Inv(View())
      ensures View() == Step(old(View()), if fromRecorder then RecorderErrors(mine) else SocketErrors(mine))
      ensures !fromRecorder ==> View() == Step(old(View()), MessageUnreadable(mine))
    {
      StepKeepsInv(View(), if fromRecorder then RecorderErrors(mine) else SocketErrors(mine));
      mode := InError;
    }

    /** After a stop nothing is held and the session is not listening, whatever was in flight. */
    method StopSession()
      requires Inv(View())
      modifies this
      ensures Inv(View()) && View() == Step(old(View()), Stop)
      ensures mode != Listening && socket == None && recorder == None
    {
      StepKeepsInv(View(), Stop);
      generation := generation + 1;
      stopping := true;
      if mode == Stopped || mode == Idle { return; }
      Cleanup();
      mode := Stopped;
    }
  }
}
