/**
 * Waiting for a publisher: a viewer re-offers on a finite schedule while the room has no publisher
 * yet. A chain of offers is named by the generation it started under; at most one timer is armed.
 */
module PublisherWait {
  import opened Prelude

  const RETRY_DELAYS_MS := [1_000, 2_000, 3_000, 5_000, 5_000, 10_000, 10_000, 15_000, 15_000, 30_000]
  const MAX_LOSS_RECONNECTS := 3

  function RetryDelay(attempt: int): Option<nat> {
    if attempt < 0 then Some(RETRY_DELAYS_MS[0])
    else if attempt < |RETRY_DELAYS_MS| then Some(RETRY_DELAYS_MS[attempt]) else None
  }

  /** Total wait scheduled before offer number `n`, counting from zero. */
  ghost function WaitedBefore(n: nat): nat {
    if n == 0 then 0 else WaitedBefore(n - 1) + RetryDelay(n - 1).GetOr(0)
  }

  /** The schedule has ten waits; past them there is none, and a negative count reads the first. */
  lemma ScheduleRead(attempt: int)
    ensures attempt < 0 ==> RetryDelay(attempt) == Some(1_000)
    ensures 0 <= attempt < 10 ==> RetryDelay(attempt) == Some(RETRY_DELAYS_MS[attempt])
    ensures attempt >= 10 ==> RetryDelay(attempt) == None
  {
  }

  datatype Position = Position(chain: nat, failures: nat)

  datatype Chain = Chain(offers: nat, waitedMs: nat)

  /** `chains` records every chain ever started; `inFlight` the offers not answered yet. */
  datatype State = State(
    generation: nat,
    timer: Option<Position>,
    waiting: bool,
    absent: bool,
    lossesLeft: nat,
    inFlight: set<Position>,
    chains: map<nat, Chain>)

  datatype Event =
    | Connect
    | NotReady(offer: Position)
    | Answered(offer: Position)
    | TimerFires
    | ConnectionLost
    | EventGoesLive
    | Cancel

  const INITIAL := State(0, None, false, false, MAX_LOSS_RECONNECTS, {}, map[])

  function Cancelled(s: State): State {
    s.(generation := s.generation + 1, timer := None, waiting := false)
  }

  function Offered(s: State, offer: Position): State {
    var before := if offer.chain in s.chains then s.chains[offer.chain] else Chain(0, 0);
    s.(inFlight := s.inFlight + {offer}, chains := s.chains[offer.chain := before.(offers := before.offers + 1)])
  }

  function Connected(s: State): State {
    var t := Cancelled(s);
    Offered(t, Position(t.generation, 0))
  }

  function Step(s: State, e: Event): State {
    match e
    case Connect => Connected(s)
    case NotReady(offer) =>
      if offer !in s.inFlight then s
      else
        var t := s.(inFlight := s.inFlight - {offer});
        if offer.chain != s.generation then t
        else (match RetryDelay(offer.failures)
          case None => t.(waiting := false, absent := true)
          case Some(delay) =>
            var chain := if offer.chain in s.chains then s.chains[offer.chain] else Chain(0, 0);
            t.(waiting := true, timer := Some(Position(offer.chain, offer.failures + 1)),
               chains := s.chains[offer.chain := chain.(waitedMs := chain.waitedMs + delay)]))
    case Answered(offer) =>
      if offer !in s.inFlight then s
      else
        var t := s.(inFlight := s.inFlight - {offer});
        if offer.chain != s.generation then t else t.(waiting := false)
    case TimerFires =>
      if s.timer.None? then s
      else if s.timer.value.chain != s.generation then s.(timer := None)
      else Offered(s.(timer := None), s.timer.value)
    case ConnectionLost =>
      if s.lossesLeft == 0 then s.(waiting := false, absent := true)
      else Connected(s.(lossesLeft := s.lossesLeft - 1))
    case EventGoesLive => Connected(s.(lossesLeft := MAX_LOSS_RECONNECTS))
    case Cancel => Cancelled(s)
  }

  ghost function Run(s: State, events: seq<Event>): State
    decreases |events|
  {
    if events == [] then s else Run(Step(s, events[0]), events[1..])
  }

  ghost predicate ChainAt(s: State, c: nat, offers: nat, waitedMs: nat) {
    c in s.chains && s.chains[c].offers == offers && s.chains[c].waitedMs == waitedMs
  }

  /** An offer in flight, or armed on the timer, says exactly how far its chain has got. */
  ghost predicate Inv(s: State) {
    && (forall c :: c in s.chains ==> c <= s.generation && s.chains[c].offers <= 11 && s.chains[c].waitedMs <= 96_000)
    && (forall o :: o in s.inFlight ==> o.failures <= 10 && ChainAt(s, o.chain, o.failures + 1, WaitedBefore(o.failures)))
    && (s.timer.Some? ==>
          && s.timer.value.chain == s.generation && 1 <= s.timer.value.failures <= 10
          && ChainAt(s, s.generation, s.timer.value.failures, WaitedBefore(s.timer.value.failures))
          && forall o :: o in s.inFlight ==> o.chain != s.generation)
    && (forall o, p :: o in s.inFlight && p in s.inFlight && o.chain == p.chain ==> o == p)
  }

  lemma {:induction false} ScheduleTotal(n: nat)
    requires n <= 10
    ensures WaitedBefore(n) <= 96_000
    ensures n < 10 ==> RetryDelay(n).Some? && WaitedBefore(n + 1) == WaitedBefore(n) + RetryDelay(n).value
  {
    assert WaitedBefore(1) == 1_000 && WaitedBefore(2) == 3_000;
    assert WaitedBefore(3) == 6_000 && WaitedBefore(4) == 11_000;
    assert WaitedBefore(5) == 16_000 && WaitedBefore(6) == 26_000;
    assert WaitedBefore(7) == 36_000 && WaitedBefore(8) == 51_000;
    assert WaitedBefore(9) == 66_000 && WaitedBefore(10) == 96_000;
  }

  lemma CancelKeepsInv(s: State)
    requires Inv(s)
    ensures Inv(Cancelled(s))
  {
  }

  lemma OfferKeepsInv(s: State, offer: Position)
    requires Inv(s) && offer.chain == s.generation && s.timer == None && offer.failures <= 10
    requires forall o :: o in s.inFlight ==> o.chain != s.generation
    requires if offer.failures == 0 then s.generation !in s.chains
             else ChainAt(s, s.generation, offer.failures, WaitedBefore(offer.failures))
    ensures Inv(Offered(s, offer))
  {
    var t := Offered(s, offer);
    assert ChainAt(t, s.generation, offer.failures + 1, WaitedBefore(offer.failures));
    forall o | o in t.inFlight ensures o.failures <= 10 && ChainAt(t, o.chain, o.failures + 1, WaitedBefore(o.failures)) {
      if o != offer { assert ChainAt(s, o.chain, o.failures + 1, WaitedBefore(o.failures)); }
    }
  }

  lemma SettledKeepsInv(s: State, offer: Position, waiting: bool, absent: bool)
    requires Inv(s)
    ensures Inv(s.(inFlight := s.inFlight - {offer}, waiting := waiting, absent := absent))
  {
    var t := s.(inFlight := s.inFlight - {offer}, waiting := waiting, absent := absent);
    forall o | o in t.inFlight ensures ChainAt(t, o.chain, o.failures + 1, WaitedBefore(o.failures)) {
      assert ChainAt(s, o.chain, o.failures + 1, WaitedBefore(o.failures));
    }
    if t.timer.Some? { assert ChainAt(s, s.generation, s.timer.value.failures, WaitedBefore(s.timer.value.failures)); }
  }

  lemma RearmedKeepsInv(s: State, offer: Position)
    requires Inv(s) && offer in s.inFlight && offer.chain == s.generation && offer.failures < 10
    ensures Inv(Step(s, NotReady(offer)))
  {
    var f := offer.failures;
    assert ChainAt(s, offer.chain, f + 1, WaitedBefore(f));
    ScheduleTotal(f);
    ScheduleTotal(f + 1);
    var t := Step(s, NotReady(offer));
    assert ChainAt(t, s.generation, f + 1, WaitedBefore(f + 1));
    forall o | o in t.inFlight ensures o.chain != s.generation && ChainAt(t, o.chain, o.failures + 1, WaitedBefore(o.failures)) {
      assert ChainAt(s, o.chain, o.failures + 1, WaitedBefore(o.failures));
    }
  }

  lemma NotReadyKeepsInv(s: State, offer: Position)
    requires Inv(s) && offer in s.inFlight
    ensures Inv(Step(s, NotReady(offer)))
  {
    if offer.chain == s.generation && offer.failures < 10 {
      RearmedKeepsInv(s, offer);
    } else {
      SettledKeepsInv(s, offer, if offer.chain == s.generation then false else s.waiting,
                      if offer.chain == s.generation then true else s.absent);
    }
  }

  lemma ConnectKeepsInv(s: State)
    requires Inv(s)
    ensures Inv(Connected(s))
  {
    CancelKeepsInv(s);
    OfferKeepsInv(Cancelled(s), Position(s.generation + 1, 0));
  }

  lemma BudgetedConnectKeepsInv(s: State, budget: nat)
    requires Inv(s)
    ensures Inv(Connected(s.(lossesLeft := budget)))
  {
    assert Inv(s.(lossesLeft := budget));
    ConnectKeepsInv(s.(lossesLeft := budget));
  }

  lemma TimerKeepsInv(s: State)
    requires Inv(s) && s.timer.Some?
    ensures Inv(Step(s, TimerFires))
  {
    OfferKeepsInv(s.(timer := None), s.timer.value);
  }

  lemma StepKeepsInv(s: State, e: Event)
    requires Inv(s)
    ensures Inv(Step(s, e))
  {
    match e
    case Connect => ConnectKeepsInv(s);
    case NotReady(offer) => if offer in s.inFlight { NotReadyKeepsInv(s, offer); }
    case Answered(offer) =>
      SettledKeepsInv(s, offer, if offer.chain == s.generation then false else s.waiting, s.absent);
    case TimerFires => if s.timer.Some? { TimerKeepsInv(s); }
    case ConnectionLost => if s.lossesLeft > 0 { BudgetedConnectKeepsInv(s, s.lossesLeft - 1); }
    case EventGoesLive => BudgetedConnectKeepsInv(s, MAX_LOSS_RECONNECTS);
    case Cancel => CancelKeepsInv(s);
  }

  lemma {:induction false} RunKeepsInv(s: State, events: seq<Event>)
    requires Inv(s)
    ensures Inv(Run(s, events))
    decreases |events|
  {
    if events != [] {
      StepKeepsInv(s, events[0]);
      RunKeepsInv(Step(s, events[0]), events[1..]);
    }
  }

  /** Over any run, one chain makes at most eleven offers and waits at most 96 seconds. */
  lemma ChainsAreBounded(events: seq<Event>)
    ensures forall c :: c in Run(INITIAL, events).chains ==>
      Run(INITIAL, events).chains[c].offers <= 11 && Run(INITIAL, events).chains[c].waitedMs <= 96_000
  {
    RunKeepsInv(INITIAL, events);
  }

  /** A first connect whose first `k` offers are refused, each wait being sat out. */
  ghost function Refusals(k: nat): seq<Event> {
    if k == 0 then [Connect] else Refusals(k - 1) + [NotReady(Position(1, k - 1)), TimerFires]
  }

  lemma {:induction false} RunConcat(s: State, xs: seq<Event>, ys: seq<Event>)
    ensures Run(s, xs + ys) == Run(Run(s, xs), ys)
    decreases |xs|
  {
    if xs == [] {
      assert xs + ys == ys;
    } else {
      ConcatHead(xs, ys);
      RunConcat(Step(s, xs[0]), xs[1..], ys);
    }
  }

  /** Offer number `k` of chain 1, the one in flight, after waiting `waited` in all. */
  ghost function InFlight(k: nat, waited: nat): State {
    State(1, None, k > 0, false, MAX_LOSS_RECONNECTS, {Position(1, k)}, map[1 := Chain(k + 1, waited)])
  }

  lemma RunOne(s: State, e: Event)
    ensures Run(s, [e]) == Step(s, e)
  {
    assert [e][1..] == [];
  }

  lemma RefusedOnce(k: nat, waited: nat, delay: nat)
    requires RetryDelay(k) == Some(delay)
    ensures Run(InFlight(k, waited), [NotReady(Position(1, k)), TimerFires]) == InFlight(k + 1, waited + delay)
  {
    var events := [NotReady(Position(1, k)), TimerFires];
    var waiting := State(1, Some(Position(1, k + 1)), true, false, MAX_LOSS_RECONNECTS, {},
                         map[1 := Chain(k + 1, waited + delay)]);
    assert Step(InFlight(k, waited), events[0]) == waiting;
    assert Step(waiting, TimerFires) == InFlight(k + 1, waited + delay);
    assert events[1..] == [TimerFires];
    RunOne(waiting, TimerFires);
  }

  lemma {:induction false} RefusedOffersReach(k: nat)
    requires k <= 10
    ensures Run(INITIAL, Refusals(k)) == InFlight(k, WaitedBefore(k))
  {
    if k == 0 {
      RunOne(INITIAL, Connect);
    } else {
      RefusedOffersReach(k - 1);
      ScheduleTotal(k - 1);
      RunConcat(INITIAL, Refusals(k - 1), [NotReady(Position(1, k - 1)), TimerFires]);
      RefusedOnce(k - 1, WaitedBefore(k - 1), RetryDelay(k - 1).value);
    }
  }

  /** How long a chain has waited before each of its offers after the first. */
  lemma FullSchedule()
    ensures WaitedBefore(1) == 1_000 && WaitedBefore(2) == 3_000 && WaitedBefore(3) == 6_000
    ensures WaitedBefore(4) == 11_000 && WaitedBefore(5) == 16_000 && WaitedBefore(6) == 26_000
    ensures WaitedBefore(7) == 36_000 && WaitedBefore(8) == 51_000 && WaitedBefore(9) == 66_000
    ensures WaitedBefore(10) == 96_000
  {
    assert WaitedBefore(2) == 3_000 && WaitedBefore(4) == 11_000 && WaitedBefore(6) == 26_000;
    assert WaitedBefore(8) == 51_000;
  }

  /**
   * The bound is reached: a run in which every offer is refused makes eleven offers, waits 96 seconds
   * in all, and ends with the publisher absent and nothing armed or in flight.
   */
  lemma ElevenOffersSuffice()
    ensures Run(INITIAL, Refusals(10) + [NotReady(Position(1, 10))])
         == State(1, None, false, true, MAX_LOSS_RECONNECTS, {}, map[1 := Chain(11, 96_000)])
  {
    RefusedOffersReach(10);
    FullSchedule();
    RunConcat(INITIAL, Refusals(10), [NotReady(Position(1, 10))]);
    RunOne(InFlight(10, 96_000), NotReady(Position(1, 10)));
  }

  /** A live event restores the whole loss budget and starts a chain of its own, superseding the one before. */
  lemma LiveRestoresBudget(s: State)
    requires Inv(s)
    ensures var t := Step(s, EventGoesLive);
      && t.lossesLeft == 3 && t.generation == s.generation + 1 && ChainAt(t, t.generation, 1, 0)
      && Position(t.generation, 0) in t.inFlight && t.timer == None && !t.waiting
  {
  }

  /** A loss costs one chain of the budget, and with none left shows the publisher absent. */
  lemma LossCostsAChain(s: State)
    requires Inv(s)
    ensures var t := Step(s, ConnectionLost);
      if s.lossesLeft == 0 then t.absent && t.chains == s.chains && t.inFlight == s.inFlight && t.timer == s.timer
      else t.lossesLeft == s.lossesLeft - 1 && ChainAt(t, s.generation + 1, 1, 0) && t.generation == s.generation + 1
  {
  }

  /** An outcome of a superseded chain changes nothing but that its offer is answered. */
  lemma StaleOutcomeIsQuiet(s: State, offer: Position, e: Event)
    requires offer in s.inFlight && offer.chain != s.generation && (e == NotReady(offer) || e == Answered(offer))
    ensures Step(s, e) == s.(inFlight := s.inFlight - {offer})
  {
  }

  /** An offer is answered once: an outcome of one that is not in flight changes nothing. */
  lemma OutcomesComeOnce(s: State, offer: Position, e: Event)
    requires offer !in s.inFlight && (e == NotReady(offer) || e == Answered(offer))
    ensures Step(s, e) == s
  {
  }

  /** The newest chain ends with the first offer that is answered: nothing is armed and nobody is waiting. */
  lemma AnswerEndsChain(s: State, offer: Position)
    requires Inv(s) && offer in s.inFlight && offer.chain == s.generation
    ensures var t := Step(s, Answered(offer));
      && t == s.(inFlight := s.inFlight - {offer}, waiting := false)
      && t.timer == None && forall o :: o in t.inFlight ==> o.chain != t.generation
  {
  }

  /** A refused offer of the newest chain arms the timer for the next one, by the schedule, as long as it lasts. */
  lemma RefusalArmsNext(s: State, offer: Position)
    requires Inv(s) && offer in s.inFlight && offer.chain == s.generation
    ensures var t := Step(s, NotReady(offer));
      && t.inFlight == s.inFlight - {offer} && t.generation == s.generation && t.lossesLeft == s.lossesLeft
      && (offer.failures < 10 ==>
            && t.waiting && t.absent == s.absent && t.timer == Some(Position(offer.chain, offer.failures + 1))
            && t.chains[offer.chain].waitedMs == s.chains[offer.chain].waitedMs + RETRY_DELAYS_MS[offer.failures])
      && (offer.failures == 10 ==> !t.waiting && t.absent && t.timer == None && t.chains == s.chains)
  {
    assert ChainAt(s, offer.chain, offer.failures + 1, WaitedBefore(offer.failures));
  }

  /** Cancelling supersedes the chain and disarms its timer. */
  lemma CancelDisarms(s: State)
    ensures Step(s, Cancel) == s.(generation := s.generation + 1, timer := None, waiting := false)
  {
  }

  lemma SupersededChainStep(s: State, c: nat, e: Event)
    requires Inv(s) && c < s.generation
    ensures c < Step(s, e).generation && (c in Step(s, e).chains <==> c in s.chains)
    ensures c in s.chains ==> Step(s, e).chains[c] == s.chains[c]
  {
  }

  /** A superseded chain makes no further offer and schedules no further wait. */
  lemma {:induction false} SupersededChainIsSilent(s: State, c: nat, events: seq<Event>)
    requires Inv(s) && c < s.generation
    ensures c in Run(s, events).chains <==> c in s.chains
    ensures c in s.chains ==> Run(s, events).chains[c] == s.chains[c]
    decreases |events|
  {
    if events != [] {
      StepKeepsInv(s, events[0]);
      SupersededChainStep(s, c, events[0]);
      SupersededChainIsSilent(Step(s, events[0]), c, events[1..]);
    }
  }

  lemma SizeWith(m: map<nat, Chain>, k: nat, v: Chain)
    ensures |m[k := v]| == |m| + if k in m then 0 else 1
  {
    assert m[k := v].Keys == m.Keys + {k};
    assert |m[k := v]| == |m[k := v].Keys| && |m| == |m.Keys|;
  }

  lemma ChainsAdded(s: State, e: Event)
    requires Inv(s) && !e.Connect? && !e.EventGoesLive?
    ensures |Step(s, e).chains| + Step(s, e).lossesLeft == |s.chains| + s.lossesLeft
  {
    match e
    case ConnectionLost =>
      assert s.generation + 1 !in s.chains;
      SizeWith(s.chains, s.generation + 1, Chain(1, 0));
    case NotReady(offer) =>
      if offer in s.inFlight {
        assert ChainAt(s, offer.chain, offer.failures + 1, WaitedBefore(offer.failures));
        SizeWith(s.chains, offer.chain,
                 s.chains[offer.chain].(waitedMs := s.chains[offer.chain].waitedMs + RetryDelay(offer.failures).GetOr(0)));
      }
    case TimerFires =>
      if s.timer.Some? {
        var chain := s.chains[s.generation];
        SizeWith(s.chains, s.generation, chain.(offers := chain.offers + 1));
      }
    case _ =>
  }

  /** Between live events and manual retries, lost connections start at most the chains left in the budget. */
  lemma {:induction false} LossBudgetBoundsChains(s: State, events: seq<Event>)
    requires Inv(s) && forall i :: 0 <= i < |events| ==> !events[i].Connect? && !events[i].EventGoesLive?
    ensures |Run(s, events).chains| + Run(s, events).lossesLeft == |s.chains| + s.lossesLeft
    decreases |events|
  {
    if events != [] {
      StepKeepsInv(s, events[0]);
      ChainsAdded(s, events[0]);
      LossBudgetBoundsChains(Step(s, events[0]), events[1..]);
    }
  }

  class PublisherWaiter {
    var generation: nat
    var timer: Option<Position>
    var waiting: bool
    var absent: bool
    var lossesLeft: nat
    ghost var inFlight: set<Position>
    ghost var chains: map<nat, Chain>

    ghost function View(): State
      reads this
    {
      State(generation, timer, waiting, absent, lossesLeft, inFlight, chains)
    }

    constructor ()
      ensures View() == INITIAL && Inv(View())
    {
      generation, timer, waiting, absent, lossesLeft := 0, None, false, false, MAX_LOSS_RECONNECTS;
      inFlight, chains := {}, map[];
    }

    method CancelPublisherWait()
      modifies this
      ensures View() == Cancelled(old(View()))
      ensures old(Inv(View())) ==> Inv(View())
    {
      ghost var before := View();
      generation := generation + 1;
      if timer.Some? { timer := None; }
      waiting := false;
      if Inv(before) { StepKeepsInv(before, Cancel); }
    }

    method Offer(offer: Position)
      modifies this
      ensures View() == Offered(old(View()), offer)
    {
      var before := if offer.chain in chains then chains[offer.chain] else Chain(0, 0);
      inFlight := inFlight + {offer};
      chains := chains[offer.chain := before.(offers := before.offers + 1)];
    }

    /** Starts a chain: supersedes the one before and makes the first offer. */
    method ConnectStreamUntilPublisher() returns (chain: nat)
      requires Inv(View())
      modifies this
      ensures View() == Connected(old(View())) && Inv(View())
      ensures chain == generation && ChainAt(View(), chain, 1, 0)
    {
      StepKeepsInv(View(), Connect);
      CancelPublisherWait();
      chain := generation;
      Offer(Position(chain, 0));
    }

    /** An offer resumed with its outcome. */
    method OnOutcome(offer: Position, notReady: bool)
      requires Inv(View()) && offer in inFlight
      modifies this
      ensures View() == Step(old(View()), if notReady then NotReady(offer) else Answered(offer)) && Inv(View())
    {
      StepKeepsInv(View(), if notReady then NotReady(offer) else Answered(offer));
      inFlight := inFlight - {offer};
      if offer.chain != generation { return; }
      if !notReady {
        waiting := false;
        return;
      }
      var delay := RetryDelay(offer.failures);
      if delay.None? {
        waiting := false;
        absent := true;
        return;
      }
      waiting := true;
      timer := Some(Position(offer.chain, offer.failures + 1));
      chains := chains[offer.chain := chains[offer.chain].(waitedMs := chains[offer.chain].waitedMs + delay.value)];
    }

    method OnTimer()
      requires Inv(View()) && timer.Some?
      modifies this
      ensures View() == Step(old(View()), TimerFires) && Inv(View())
    {
      StepKeepsInv(View(), TimerFires);
      var armed := timer.value;
      timer := None;
      if armed.chain != generation { return; }
      Offer(armed);
    }

    method OnConnectionLost()
      requires Inv(View())
      modifies this
      ensures View() == Step(old(View()), ConnectionLost) && Inv(View())
    {
      StepKeepsInv(View(), ConnectionLost);
      if lossesLeft == 0 {
        waiting := false;
        absent := true;
        return;
      }
      lossesLeft := lossesLeft - 1;
      var chain := ConnectStreamUntilPublisher();
    }
  }
}
