/**
 * The live transcript controller: product suggestions proposed from final segments or from a
 * classifier's late reply, confirmed by voice or click, dismissed, expired, and cleared whenever the
 * product on stage changes. Time is a clock that never goes back.
 */
module LiveTranscript {
  import opened Prelude
  import opened TranscriptText
  import opened ProductFocus

  const SUGGESTION_TTL_MS := 20_000
  const DISMISS_COOLDOWN_MS := 45_000
  const MAX_SEGMENTS := 200
  const CONFIRMATIONS := ["confirm", "yes", "stage it", "do it", "make active"]

  datatype Pending = Pending(product: Product, confidence: real, evidence: seq<string>, choices: seq<Product>,
                             proposedAt: nat, expiresAt: nat)

  datatype Dismissal = Dismissal(productId: string, at: nat)

  datatype Verdict = Same | Different | Ambiguous | Unknown

  datatype Reply = Reply(verdict: Verdict, productId: Option<string>, confidence: real, evidence: seq<string>,
                         requestSequence: nat)

  /** `dismissals` and `staged` record what happened; `requests` holds the classifier calls in flight. */
  datatype State = State(
    clock: nat,
    products: seq<Product>,
    activeId: Option<string>,
    suggestion: Option<Pending>,
    segments: seq<Segment>,
    sequence: nat,
    requests: map<nat, Option<string>>,
    dismissedUntil: map<string, nat>,
    dismissals: seq<Dismissal>,
    staged: seq<string>)

  datatype Event =
    | Tick(elapsed: nat)
    | FinalSegment(segment: Segment, classifier: bool)
    | ReplyArrives(request: nat, reply: Reply)
    | ReplyFails(request: nat)
    | Stage(productId: string)
    | Dismiss
    | Expire
    | ActiveChange(activeId: Option<string>)
    | CatalogChange(products: seq<Product>)
    | Deactivate

  function Initial(products: seq<Product>, activeId: Option<string>): State {
    State(0, products, activeId, None, [], 0, map[], map[], [], [])
  }

  predicate Confirms(text: string) {
    Normalize(text) in CONFIRMATIONS
  }

  function Cleared(s: State): State {
    s.(suggestion := None)
  }

  function Proposed(s: State, p: Product, confidence: real, evidence: seq<string>, choices: seq<Product>): State {
    if s.activeId == Some(p.id) then s
    else if p.id in s.dismissedUntil && s.dismissedUntil[p.id] > s.clock then s
    else s.(suggestion := Some(Pending(p, confidence, evidence, if |choices| > 1 then choices else [],
                                       s.clock, s.clock + SUGGESTION_TTL_MS)))
  }

  function Staged(s: State, id: string): State {
    if s.activeId == Some(id) then Cleared(s)
    else if !HasRow(s.products, id) then s
    else Cleared(s.(sequence := s.sequence + 1, staged := s.staged + [id]))
  }

  predicate ConfirmsPending(s: State, text: string) {
    s.suggestion.Some? && s.suggestion.value.expiresAt > s.clock && Confirms(text)
  }

  function WithSegment(s: State, segment: Segment): State {
    s.(segments := LastOf(s.segments + [segment], MAX_SEGMENTS))
  }

  function Unexpired(s: State): State {
    if s.suggestion.Some? && s.suggestion.value.expiresAt <= s.clock then Cleared(s) else s
  }

  /** What a decision on the latest words does when no confirmation was spoken. */
  function Acted(s: State, d: Decision, classifier: bool): State {
    match d
    case Suggest(p, confidence, evidence, _, choices) =>
      Proposed(s.(sequence := s.sequence + 1), p, confidence, evidence, choices)
    case NoSuggestion(_, _, _, reason, needsSemantic) =>
      if reason == ActiveProductOnly then Cleared(s.(sequence := s.sequence + 1))
      else if !needsSemantic || !classifier then s
      else s.(sequence := s.sequence + 1, requests := s.requests[s.sequence + 1 := s.activeId])
  }

  function Heard(s: State, segment: Segment, classifier: bool): State {
    var t := WithSegment(s, segment);
    if ConfirmsPending(t, segment.text) then Staged(t, t.suggestion.value.product.id)
    else Acted(Unexpired(t), Detect(t.segments, t.products, t.activeId), classifier)
  }

  /** The reply passes every guard and names a catalog row to propose. */
  predicate Honoured(s: State, request: nat, reply: Reply) {
    && request in s.requests
    && s.sequence == request
    && s.activeId == s.requests[request]
    && reply.requestSequence == request && reply.verdict == Different
    && reply.confidence >= CONFIDENCE_FLOOR
    && reply.productId.Some? && reply.productId.value != ""
    && HasRow(s.products, reply.productId.value)
    && s.activeId != reply.productId
  }

  lemma {:induction false} FindRowFinds(products: seq<Product>, id: string)
    ensures FindRow(products, id).Some? <==> HasRow(products, id)
    ensures FindRow(products, id).Some? ==> FindRow(products, id).value in products && FindRow(products, id).value.id == id
  {
    if products != [] {
      FindRowFinds(products[1..], id);
      if HasRow(products[1..], id) {
        var i :| 0 <= i < |products[1..]| && products[1..][i].id == id;
        assert products[i + 1].id == id;
      }
    }
  }

  function Answered(s: State, request: nat, reply: Reply): State {
    var t := s.(requests := s.requests - {request});
    if !Honoured(s, request, reply) then t
    else
      FindRowFinds(s.products, reply.productId.value);
      Proposed(t, FindRow(s.products, reply.productId.value).value, reply.confidence, reply.evidence, [])
  }

  function Dismissed(s: State): State {
    var t := Cleared(s.(sequence := s.sequence + 1));
    match s.suggestion
    case None => t
    case Some(pending) =>
      t.(dismissedUntil := s.dismissedUntil[pending.product.id := s.clock + DISMISS_COOLDOWN_MS],
         dismissals := s.dismissals + [Dismissal(pending.product.id, s.clock)])
  }

  function Step(s: State, e: Event): State {
    match e
    case Tick(elapsed) => s.(clock := s.clock + elapsed)
    case FinalSegment(segment, classifier) => Heard(s, segment, classifier)
    case ReplyArrives(request, reply) => Answered(s, request, reply)
    case ReplyFails(request) => s.(requests := s.requests - {request})
    case Stage(id) => Staged(s, id)
    case Dismiss => Dismissed(s)
    case Expire => Unexpired(s)
    case ActiveChange(id) => if id == s.activeId then s else Cleared(s.(activeId := id, sequence := s.sequence + 1))
    case CatalogChange(products) => s.(products := products)
    case Deactivate => Cleared(s.(sequence := s.sequence + 1))
  }

  ghost function Run(s: State, events: seq<Event>): State
    decreases |events|
  {
    if events == [] then s else Run(Step(s, events[0]), events[1..])
  }

  // ---------------------------------------------------------------- the pending suggestion

  ghost predicate PendingSound(s: State, p: Pending) {
    && s.activeId != Some(p.product.id)
    && p.confidence >= 0.84
    && p.proposedAt <= s.clock && p.expiresAt == p.proposedAt + 20_000
    && (forall d :: d in s.dismissals && d.productId == p.product.id ==> d.at + 45_000 <= p.proposedAt)
  }

  ghost predicate Inv(s: State) {
    && (s.suggestion.Some? ==> PendingSound(s, s.suggestion.value))
    && (forall d :: d in s.dismissals ==>
          d.at <= s.clock && d.productId in s.dismissedUntil && d.at + 45_000 <= s.dismissedUntil[d.productId])
    && (forall n :: n in s.requests ==> n <= s.sequence)
  }

  lemma ProposedKeepsInv(s: State, p: Product, confidence: real, evidence: seq<string>, choices: seq<Product>)
    requires Inv(s) && confidence >= 0.84
    ensures Inv(Proposed(s, p, confidence, evidence, choices))
  {
  }

  lemma ActedKeepsInv(s: State, d: Decision, classifier: bool)
    requires Inv(s) && (d.Suggest? ==> d.confidence >= 0.84)
    ensures Inv(Acted(s, d, classifier))
  {
    match d
    case Suggest(p, confidence, evidence, _, choices) =>
      ProposedKeepsInv(s.(sequence := s.sequence + 1), p, confidence, evidence, choices);
    case _ =>
  }

  lemma DetectConfident(segments: seq<Segment>, products: seq<Product>, activeId: Option<string>) returns (d: Decision)
    ensures d == Detect(segments, products, activeId) && (d.Suggest? ==> d.confidence >= 0.84)
  {
    d := Detect(segments, products, activeId);
    DetectSound(segments, products, activeId);
  }

  lemma QuietlyKeepsInv(s: State, segment: Segment)
    requires Inv(s)
    ensures Inv(Unexpired(WithSegment(s, segment)))
    ensures ConfirmsPending(s, segment.text) ==> Inv(Staged(WithSegment(s, segment), s.suggestion.value.product.id))
  {
  }

  lemma HeardKeepsInv(s: State, segment: Segment, classifier: bool)
    requires Inv(s)
    ensures Inv(Heard(s, segment, classifier))
  {
    QuietlyKeepsInv(s, segment);
    var t := WithSegment(s, segment);
    var d := DetectConfident(t.segments, t.products, t.activeId);
    ActedKeepsInv(Unexpired(t), d, classifier);
  }

  lemma StepKeepsInv(s: State, e: Event)
    requires Inv(s)
    ensures Inv(Step(s, e))
  {
    match e
    case FinalSegment(segment, classifier) => HeardKeepsInv(s, segment, classifier);
    case ReplyArrives(request, reply) =>
      if Honoured(s, request, reply) {
        FindRowFinds(s.products, reply.productId.value);
        ProposedKeepsInv(s.(requests := s.requests - {request}), FindRow(s.products, reply.productId.value).value,
                         reply.confidence, reply.evidence, []);
      }
    case _ =>
  }

  lemma {:induction false} RunKeepsInv(s: State, events: seq<Event>)
    requires Inv(s)
    ensures Inv(Run(s, events))
    decreases |events|
  {
    if events != [] {
      StepKeepsInv(s, events[0]);
      RunKeepsInv(Step(s, events[0]), events[1..]);
    }
  }

  /**
   * In every reachable state the pending suggestion is not the active row, has confidence at least 0.84
   * and was proposed no sooner than 45 seconds after any dismissal of that row.
   */
  lemma PendingIsAlwaysSound(products: seq<Product>, activeId: Option<string>, events: seq<Event>)
    ensures var s := Run(Initial(products, activeId), events);
      s.suggestion.Some? ==> PendingSound(s, s.suggestion.value)
  {
    RunKeepsInv(Initial(products, activeId), events);
  }

  // ---------------------------------------------------------------- when a proposal becomes pending

  ghost predicate Covered(s: State, d: Dismissal) {
    d.productId in s.dismissedUntil && d.at + 45_000 <= s.dismissedUntil[d.productId]
  }

  /** Every cooldown was started by a dismissal, 45 seconds before it ends, and every dismissal is covered by one. */
  ghost predicate Remembers(s: State) {
    && (forall id :: id in s.dismissedUntil ==>
          s.dismissedUntil[id] >= 45_000 && Dismissal(id, s.dismissedUntil[id] - 45_000) in s.dismissals)
    && (forall d :: d in s.dismissals ==> d.at <= s.clock && Covered(s, d))
  }

  lemma DismissRemembers(s: State)
    requires Remembers(s)
    ensures Remembers(Dismissed(s))
  {
    var t := Dismissed(s);
    forall d | d in t.dismissals ensures d.at <= t.clock && Covered(t, d) {
      if d in s.dismissals { assert Covered(s, d); }
    }
  }

  lemma ActedSameDismissals(s: State, d: Decision, classifier: bool)
    ensures var t := Acted(s, d, classifier);
      t.dismissals == s.dismissals && t.dismissedUntil == s.dismissedUntil && t.clock == s.clock
  {
  }

  lemma HeardSameDismissals(s: State, segment: Segment, classifier: bool)
    ensures var t := Heard(s, segment, classifier);
      t.dismissals == s.dismissals && t.dismissedUntil == s.dismissedUntil && t.clock == s.clock
  {
    var t := WithSegment(s, segment);
    if !ConfirmsPending(t, segment.text) {
      var d := DetectConfident(t.segments, t.products, t.activeId);
      ActedSameDismissals(Unexpired(t), d, classifier);
    }
  }

  lemma SameDismissals(s: State, t: State)
    requires Remembers(s) && t.dismissals == s.dismissals && t.dismissedUntil == s.dismissedUntil && t.clock >= s.clock
    ensures Remembers(t)
  {
    forall d | d in t.dismissals ensures Covered(t, d) {
      assert Covered(s, d);
    }
  }

  lemma {:induction false} RunRemembers(s: State, events: seq<Event>)
    requires Remembers(s)
    ensures Remembers(Run(s, events))
    decreases |events|
  {
    if events != [] {
      match events[0] {
        case Dismiss => DismissRemembers(s);
        case FinalSegment(segment, classifier) =>
          HeardSameDismissals(s, segment, classifier);
          SameDismissals(s, Step(s, events[0]));
        case _ => SameDismissals(s, Step(s, events[0]));
      }
      RunRemembers(Step(s, events[0]), events[1..]);
    }
  }

  lemma ReachableRemembers(products: seq<Product>, activeId: Option<string>, events: seq<Event>)
    ensures Remembers(Run(Initial(products, activeId), events))
  {
    RunRemembers(Initial(products, activeId), events);
  }

  /** The row was dismissed less than 45 seconds ago. */
  ghost predicate JustDismissed(s: State, id: string) {
    exists d :: d in s.dismissals && d.productId == id && s.clock < d.at + 45_000
  }

  /** The suggestion a proposal leaves: itself, unless its row is on stage or was just dismissed; choices of two or more. */
  ghost function Adopted(s: State, p: Product, confidence: real, evidence: seq<string>, choices: seq<Product>): Option<Pending> {
    if s.activeId == Some(p.id) || JustDismissed(s, p.id) then s.suggestion
    else Some(Pending(p, confidence, evidence, if |choices| >= 2 then choices else [], s.clock, s.clock + 20_000))
  }

  lemma ProposedAdopts(s: State, p: Product, confidence: real, evidence: seq<string>, choices: seq<Product>)
    requires Remembers(s)
    ensures Proposed(s, p, confidence, evidence, choices).suggestion == Adopted(s, p, confidence, evidence, choices)
    ensures Proposed(s, p, confidence, evidence, choices) == s.(suggestion := Adopted(s, p, confidence, evidence, choices))
  {
    if p.id in s.dismissedUntil {
      var d := Dismissal(p.id, s.dismissedUntil[p.id] - 45_000);
      assert d in s.dismissals;
    }
    forall d | d in s.dismissals ensures Covered(s, d) {
    }
  }

  lemma AdoptedIgnores(s: State, t: State, p: Product, confidence: real, evidence: seq<string>, choices: seq<Product>)
    requires s.activeId == t.activeId && s.dismissals == t.dismissals && s.clock == t.clock && s.suggestion == t.suggestion
    ensures Adopted(s, p, confidence, evidence, choices) == Adopted(t, p, confidence, evidence, choices)
  {
    assert JustDismissed(s, p.id) <==> JustDismissed(t, p.id);
  }

  lemma ActedAdopts(s: State, d: Decision, classifier: bool)
    requires Remembers(s)
    ensures var t := Acted(s, d, classifier);
      match d
      case Suggest(p, confidence, evidence, _, choices) =>
        t.suggestion == Adopted(s, p, confidence, evidence, choices)
      case NoSuggestion(_, _, _, reason, needsSemantic) =>
        if reason == ActiveProductOnly then t.suggestion == None
        else
          && t.suggestion == s.suggestion
          && t.requests == if needsSemantic && classifier then s.requests[s.sequence + 1 := s.activeId] else s.requests
  {
    if d.Suggest? {
      var t := s.(sequence := s.sequence + 1);
      SameDismissals(s, t);
      ProposedAdopts(t, d.product, d.confidence, d.evidence, d.variantChoices);
      AdoptedIgnores(t, s, d.product, d.confidence, d.evidence, d.variantChoices);
    }
  }

  /** A suggestion is dropped from the moment its twenty seconds are over. */
  ghost function StillPending(s: State): Option<Pending> {
    if s.suggestion.Some? && s.suggestion.value.expiresAt <= s.clock then None else s.suggestion
  }

  /** What acting on a decision leaves pending, and which request it sends. */
  ghost predicate Adopts(s: State, t: State, d: Decision, classifier: bool) {
    match d
    case Suggest(p, confidence, evidence, _, choices) =>
      t.suggestion == Adopted(s.(suggestion := StillPending(s)), p, confidence, evidence, choices)
    case NoSuggestion(_, _, _, reason, needsSemantic) =>
      if reason == ActiveProductOnly then t.suggestion == None
      else
        && t.suggestion == StillPending(s)
        && t.requests == if needsSemantic && classifier then s.requests[s.sequence + 1 := s.activeId] else s.requests
  }

  lemma ActsOn(s: State, segment: Segment, classifier: bool, d: Decision)
    requires Remembers(s)
    ensures Adopts(s, Acted(Unexpired(WithSegment(s, segment)), d, classifier), d, classifier)
  {
    var t := Unexpired(WithSegment(s, segment));
    SameDismissals(s, t);
    ActedAdopts(t, d, classifier);
    if d.Suggest? {
      AdoptedIgnores(t, s.(suggestion := StillPending(s)), d.product, d.confidence, d.evidence, d.variantChoices);
    }
  }

  lemma HeardActs(s: State, segment: Segment, classifier: bool, d: Decision)
    requires !ConfirmsPending(s, segment.text)
    requires d == Detect(LastOf(s.segments + [segment], 200), s.products, s.activeId)
    ensures Heard(s, segment, classifier) == Acted(Unexpired(WithSegment(s, segment)), d, classifier)
  {
    assert !ConfirmsPending(WithSegment(s, segment), segment.text);
  }

  /**
   * What a final segment leaves pending when it confirms nothing: the product its words suggest, if it may be
   * proposed; nothing, when they are about the product on stage; else whatever was pending and has not expired.
   */
  lemma HeardAdopts(s: State, segment: Segment, classifier: bool, d: Decision)
    requires Remembers(s) && !ConfirmsPending(s, segment.text)
    requires d == Detect(LastOf(s.segments + [segment], 200), s.products, s.activeId)
    ensures Adopts(s, Heard(s, segment, classifier), d, classifier)
  {
    HeardActs(s, segment, classifier, d);
    ActsOn(s, segment, classifier, d);
  }

  /** An honoured reply proposes the catalog row it names, with its own confidence and evidence and no choices. */
  lemma HonouredAdopts(s: State, request: nat, reply: Reply)
    requires Remembers(s) && Honoured(s, request, reply)
    ensures exists p ::
      && p in s.products && reply.productId == Some(p.id)
      && Step(s, ReplyArrives(request, reply)).suggestion == Adopted(s, p, reply.confidence, reply.evidence, [])
  {
    var t := s.(requests := s.requests - {request});
    FindRowFinds(s.products, reply.productId.value);
    SameDismissals(s, t);
    var p := FindRow(s.products, reply.productId.value).value;
    ProposedAdopts(t, p, reply.confidence, reply.evidence, []);
    AdoptedIgnores(t, s, p, reply.confidence, reply.evidence, []);
  }

  // ---------------------------------------------------------------- which replies are honoured

  /** The decision proposes, clears, or asks the classifier again. */
  ghost predicate Consequential(d: Decision, classifier: bool) {
    d.Suggest? || d.reason == ActiveProductOnly || (d.needsSemantic && classifier)
  }

  /** The events that overtake a classifier request. */
  ghost predicate Overtakes(s: State, e: Event) {
    match e
    case Stage(id) => s.activeId != Some(id) && HasRow(s.products, id)
    case Dismiss => true
    case ActiveChange(id) => id != s.activeId
    case Deactivate => true
    case FinalSegment(segment, classifier) =>
      var t := WithSegment(s, segment);
      if ConfirmsPending(t, segment.text) then
        s.activeId != Some(t.suggestion.value.product.id) && HasRow(s.products, t.suggestion.value.product.id)
      else Consequential(Detect(t.segments, t.products, t.activeId), classifier)
    case _ => false
  }

  lemma ActedMoves(s: State, d: Decision, classifier: bool)
    ensures Acted(s, d, classifier).sequence == s.sequence + if Consequential(d, classifier) then 1 else 0
    ensures Acted(s, d, classifier).activeId == s.activeId && Acted(s, d, classifier).staged == s.staged
  {
  }

  lemma HeardMoves(s: State, segment: Segment, classifier: bool)
    ensures var e := FinalSegment(segment, classifier);
      Heard(s, segment, classifier).sequence == s.sequence + if Overtakes(s, e) then 1 else 0
    ensures Heard(s, segment, classifier).activeId == s.activeId
    ensures !ConfirmsPending(s, segment.text) ==> Heard(s, segment, classifier).staged == s.staged
  {
    var t := WithSegment(s, segment);
    if !ConfirmsPending(t, segment.text) {
      var d := DetectConfident(t.segments, t.products, t.activeId);
      ActedMoves(Unexpired(t), d, classifier);
    }
  }

  ghost predicate Undisturbed(s: State, events: seq<Event>)
    decreases |events|
  {
    events == [] || (!Overtakes(s, events[0]) && Undisturbed(Step(s, events[0]), events[1..]))
  }

  lemma StepMovesSequence(s: State, e: Event)
    ensures Step(s, e).sequence == s.sequence + if Overtakes(s, e) then 1 else 0
    ensures !Overtakes(s, e) ==> Step(s, e).activeId == s.activeId
  {
    match e
    case FinalSegment(segment, classifier) => HeardMoves(s, segment, classifier);
    case _ =>
  }

  lemma {:induction false} RunMovesSequence(s: State, events: seq<Event>)
    ensures Run(s, events).sequence >= s.sequence
    ensures Run(s, events).sequence == s.sequence <==> Undisturbed(s, events)
    ensures Undisturbed(s, events) ==> Run(s, events).activeId == s.activeId
    decreases |events|
  {
    if events != [] {
      StepMovesSequence(s, events[0]);
      RunMovesSequence(Step(s, events[0]), events[1..]);
    }
  }

  lemma HeardKeepsRequests(s: State, segment: Segment, classifier: bool, n: nat)
    requires n <= s.sequence
    ensures n in Heard(s, segment, classifier).requests ==>
      n in s.requests && Heard(s, segment, classifier).requests[n] == s.requests[n]
  {
    var t := WithSegment(s, segment);
    if !ConfirmsPending(t, segment.text) {
      var d := DetectConfident(t.segments, t.products, t.activeId);
      assert Heard(s, segment, classifier) == Acted(Unexpired(t), d, classifier);
    }
  }

  lemma StepKeepsRequests(s: State, e: Event, n: nat)
    requires n <= s.sequence && n in Step(s, e).requests
    ensures n in s.requests && Step(s, e).requests[n] == s.requests[n]
  {
    match e
    case FinalSegment(segment, classifier) => HeardKeepsRequests(s, segment, classifier, n);
    case _ =>
  }

  /** A request still in flight is the one that was made: numbers are never reused. */
  lemma {:induction false} RequestsAreKept(s: State, n: nat, events: seq<Event>)
    requires n <= s.sequence && n in Run(s, events).requests
    ensures n in s.requests && Run(s, events).requests[n] == s.requests[n]
    decreases |events|
  {
    if events != [] {
      StepMovesSequence(s, events[0]);
      RequestsAreKept(Step(s, events[0]), n, events[1..]);
      StepKeepsRequests(s, events[0], n);
    }
  }

  /**
   * A reply is honoured exactly when nothing overtook its request, it answers that request with a
   * different product at or above the floor, and that product is in the catalog and not on stage.
   */
  lemma HonouredIffUndisturbed(s: State, events: seq<Event>, reply: Reply)
    requires s.sequence in s.requests && s.requests[s.sequence] == s.activeId
    requires s.sequence in Run(s, events).requests
    ensures Honoured(Run(s, events), s.sequence, reply) <==>
      && Undisturbed(s, events)
      && reply.requestSequence == s.sequence && reply.verdict == Different && reply.confidence >= CONFIDENCE_FLOOR
      && reply.productId.Some? && reply.productId.value != "" && reply.productId != s.activeId
      && HasRow(Run(s, events).products, reply.productId.value)
  {
    RunMovesSequence(s, events);
    RequestsAreKept(s, s.sequence, events);
  }

  /** The state as if the request had never been sent, or its answer were lost. */
  ghost function Without(s: State, request: nat): State {
    s.(requests := s.requests - {request})
  }

  lemma ActedWithout(s: State, d: Decision, classifier: bool, request: nat)
    requires request <= s.sequence
    ensures Acted(Without(s, request), d, classifier) == Without(Acted(s, d, classifier), request)
  {
    var n := s.sequence + 1;
    assert (s.requests - {request})[n := s.activeId] == s.requests[n := s.activeId] - {request};
  }

  lemma HeardWithout(s: State, segment: Segment, classifier: bool, request: nat)
    requires request <= s.sequence
    ensures Heard(Without(s, request), segment, classifier) == Without(Heard(s, segment, classifier), request)
  {
    var t := WithSegment(s, segment);
    assert WithSegment(Without(s, request), segment) == Without(t, request);
    if !ConfirmsPending(t, segment.text) {
      ActedWithout(Unexpired(t), Detect(t.segments, t.products, t.activeId), classifier, request);
    }
  }

  lemma AnsweredWithout(s: State, other: nat, reply: Reply, request: nat)
    requires other != request
    ensures Answered(Without(s, request), other, reply) == Without(Answered(s, other, reply), request)
  {
    assert s.requests - {request} - {other} == s.requests - {other} - {request};
    assert Honoured(Without(s, request), other, reply) <==> Honoured(s, other, reply);
  }

  lemma StepWithout(s: State, e: Event, request: nat)
    requires request <= s.sequence && !(e.ReplyArrives? && e.request == request)
    ensures Step(Without(s, request), e) == Without(Step(s, e), request)
  {
    match e
    case FinalSegment(segment, classifier) => HeardWithout(s, segment, classifier, request);
    case ReplyArrives(other, reply) => AnsweredWithout(s, other, reply, request);
    case ReplyFails(other) => assert s.requests - {request} - {other} == s.requests - {other} - {request};
    case _ =>
  }

  lemma {:induction false} RunWithout(s: State, request: nat, events: seq<Event>)
    requires request <= s.sequence
    requires forall i :: 0 <= i < |events| ==> !(events[i].ReplyArrives? && events[i].request == request)
    ensures Run(Without(s, request), events) == Without(Run(s, events), request)
    decreases |events|
  {
    if events != [] {
      StepWithout(s, events[0], request);
      StepMovesSequence(s, events[0]);
      RunWithout(Step(s, events[0]), request, events[1..]);
    }
  }

  /**
   * A reply that is not honoured leaves no trace: whatever happens after it, every later state is the one
   * in which the reply never came, but for the request that is no longer in flight.
   */
  lemma IgnoredReplyLeavesNoTrace(s: State, request: nat, reply: Reply, events: seq<Event>)
    requires Inv(s) && request in s.requests && !Honoured(s, request, reply)
    requires forall i :: 0 <= i < |events| ==> !(events[i].ReplyArrives? && events[i].request == request)
    ensures Run(Step(s, ReplyArrives(request, reply)), events) == Without(Run(s, events), request)
  {
    RunWithout(s, request, events);
  }

  /** Staging happens by click or by voice; by voice only an unexpired suggestion is staged. */
  lemma OnlyUnexpiredIsConfirmed(s: State, e: Event)
    requires Inv(s) && Step(s, e).staged != s.staged
    ensures e.Stage? || e.FinalSegment?
    ensures e.FinalSegment? ==>
      && s.suggestion.Some? && s.clock < s.suggestion.value.expiresAt && Confirms(e.segment.text)
      && Step(s, e).staged == s.staged + [s.suggestion.value.product.id]
    ensures Step(s, e).suggestion == None
    ensures var id := Step(s, e).staged[|s.staged|]; HasRow(s.products, id) && s.activeId != Some(id)
  {
    if e.FinalSegment? {
      HeardMoves(s, e.segment, e.classifier);
    }
  }

  /** Staging by id: a row on stage only clears the suggestion, an unknown one does nothing, any other is staged. */
  lemma StagingIs(s: State, id: string)
    ensures var t := Step(s, Stage(id));
      if s.activeId == Some(id) then t == s.(suggestion := None)
      else if forall p :: p in s.products ==> p.id != id then t == s
      else t == s.(suggestion := None, sequence := s.sequence + 1, staged := s.staged + [id])
  {
    if HasRow(s.products, id) {
      var i :| 0 <= i < |s.products| && s.products[i].id == id;
      assert s.products[i] in s.products;
    }
    if p :| p in s.products && p.id == id {
      var i :| 0 <= i < |s.products| && s.products[i] == p;
    }
  }

  ghost const CONFIRMATION_WORDS := [["confirm"], ["yes"], ["stage", "it"], ["do", "it"], ["make", "active"]]

  lemma ConfirmationsSpell()
    ensures Spell(CONFIRMATIONS, CONFIRMATION_WORDS)
  {
    PhraseOfOne("confirm");
    PhraseOfOne("yes");
    PhraseOfTwo("stage it", "stage", "it");
    PhraseOfTwo("do it", "do", "it");
    PhraseOfTwo("make active", "make", "active");
  }

  /** A segment confirms exactly when its words are those of a confirmation, no more and no less. */
  lemma ConfirmsByWords(text: string)
    ensures Confirms(text) <==> Words(text) in CONFIRMATION_WORDS
  {
    ConfirmationsSpell();
    forall i | 0 <= i < |CONFIRMATION_WORDS|
      ensures Normalize(text) == CONFIRMATIONS[i] <==> Words(text) == CONFIRMATION_WORDS[i]
    {
      assert Spells(CONFIRMATIONS[i], CONFIRMATION_WORDS[i]);
      NormalizesTo(text, CONFIRMATION_WORDS[i]);
    }
    if Normalize(text) in CONFIRMATIONS {
      var i :| 0 <= i < |CONFIRMATIONS| && CONFIRMATIONS[i] == Normalize(text);
      assert Words(text) == CONFIRMATION_WORDS[i];
    }
    if Words(text) in CONFIRMATION_WORDS {
      var i :| 0 <= i < |CONFIRMATION_WORDS| && CONFIRMATION_WORDS[i] == Words(text);
      assert Normalize(text) == CONFIRMATIONS[i];
    }
  }

  /** A spoken confirmation of an unexpired suggestion stages it, just as a click on it would. */
  lemma ConfirmationStages(s: State, segment: Segment, classifier: bool)
    requires s.suggestion.Some? && s.suggestion.value.expiresAt > s.clock && Normalize(segment.text) in CONFIRMATIONS
    ensures var t := Heard(s, segment, classifier);
      t == Step(s.(segments := t.segments), Stage(s.suggestion.value.product.id))
      && t.segments == LastOf(s.segments + [segment], 200)
  {
    assert ConfirmsPending(WithSegment(s, segment), segment.text);
  }

  /** Dismissing starts the cooldown of the pending row; leaving the product or the panel clears the suggestion. */
  lemma ClearingIs(s: State, activeId: Option<string>)
    ensures var t := Step(s, Dismiss);
      && t.suggestion == None && t.sequence == s.sequence + 1
      && t.dismissals == s.dismissals + if s.suggestion.Some? then [Dismissal(s.suggestion.value.product.id, s.clock)] else []
    ensures Step(s, ActiveChange(activeId)) ==
      if activeId == s.activeId then s else s.(activeId := activeId, suggestion := None, sequence := s.sequence + 1)
    ensures Step(s, Deactivate) == s.(suggestion := None, sequence := s.sequence + 1)
    ensures Step(s, Expire) == s.(suggestion := StillPending(s))
  {
  }

  class Controller {
    var clock: nat
    var products: seq<Product>
    var activeId: Option<string>
    var suggestion: Option<Pending>
    var segments: seq<Segment>
    var sequence: nat
    var dismissedUntil: map<string, nat>
    var staged: seq<string>
    ghost var requests: map<nat, Option<string>>
    ghost var dismissals: seq<Dismissal>

    ghost function View(): State
      reads this
    {
      State(clock, products, activeId, suggestion, segments, sequence, requests, dismissedUntil, dismissals, staged)
    }

    constructor (products: seq<Product>, activeId: Option<string>)
      ensures View() == Initial(products, activeId) && Inv(View())
    {
      this.products, this.activeId := products, activeId;
      clock, suggestion, segments, sequence := 0, None, [], 0;
      dismissedUntil, staged, requests, dismissals := map[], [], map[], [];
    }

    method ClearSuggestion()
      modifies this`suggestion
      ensures suggestion == None
    {
      suggestion := None;
    }

    method ProposeProduct(p: Product, confidence: real, evidence: seq<string>, choices: seq<Product>)
      modifies this`suggestion
      ensures View() == Proposed(old(View()), p, confidence, evidence, choices)
    {
      if activeId == Some(p.id) { return; }
      if p.id in dismissedUntil && dismissedUntil[p.id] > clock { return; }
      suggestion := Some(Pending(p, confidence, evidence, if |choices| > 1 then choices else [],
                                 clock, clock + SUGGESTION_TTL_MS));
    }

    method StageProduct(id: string)
      modifies this
      ensures View() == Staged(old(View()), id)
      ensures old(Inv(View())) ==> Inv(View())
    {
      if activeId == Some(id) {
        ClearSuggestion();
        return;
      }
      if !HasRow(products, id) { return; }
      sequence := sequence + 1;
      staged := staged + [id];
      ClearSuggestion();
    }

    method DismissSuggestion()
      requires Inv(View())
      modifies this
      ensures View() == Dismissed(old(View())) && Inv(View())
    {
      StepKeepsInv(View(), Dismiss);
      if suggestion.Some? {
        dismissedUntil := dismissedUntil[suggestion.value.product.id := clock + DISMISS_COOLDOWN_MS];
        dismissals := dismissals + [Dismissal(suggestion.value.product.id, clock)];
      }
      sequence := sequence + 1;
      ClearSuggestion();
    }

    /** A final segment: confirms, proposes, clears, or asks the classifier under a fresh number. */
    method OnFinalSegment(segment: Segment, classifier: bool) returns (request: Option<nat>)
      requires Inv(View())
      modifies this
      ensures View() == Heard(old(View()), segment, classifier) && Inv(View())
      ensures request.Some? ==> request.value == sequence && sequence in requests && requests[sequence] == activeId
    {
      HeardKeepsInv(View(), segment, classifier);
      segments := LastOf(segments + [segment], MAX_SEGMENTS);
      if suggestion.Some? && suggestion.value.expiresAt > clock && Confirms(segment.text) {
        StageProduct(suggestion.value.product.id);
        return None;
      }
      if suggestion.Some? && suggestion.value.expiresAt <= clock { ClearSuggestion(); }
      request := Act(Detect(segments, products, activeId), classifier);
    }

    method Act(decision: Decision, classifier: bool) returns (request: Option<nat>)
      modifies this
      ensures View() == Acted(old(View()), decision, classifier)
      ensures request.Some? ==> request.value == sequence && sequence in requests && requests[sequence] == activeId
    {
      if decision.Suggest? {
        sequence := sequence + 1;
        ProposeProduct(decision.product, decision.confidence, decision.evidence, decision.variantChoices);
        return None;
      }
      if decision.reason == ActiveProductOnly {
        sequence := sequence + 1;
        ClearSuggestion();
        return None;
      }
      if !decision.needsSemantic || !classifier { return None; }
      sequence := sequence + 1;
      requests := requests[sequence := activeId];
      request := Some(sequence);
    }

    /** The classifier's answer, `asked` being the active product captured with the request. */
    method OnReply(request: nat, asked: Option<string>, reply: Reply)
      requires Inv(View()) && request in requests && requests[request] == asked
      modifies this
      ensures View() == Answered(old(View()), request, reply) && Inv(View())
    {
      StepKeepsInv(View(), ReplyArrives(request, reply));
      requests := requests - {request};
      if sequence != request { return; }
      if activeId != asked { return; }
      if reply.requestSequence != request || reply.verdict != Different { return; }
      if reply.confidence < CONFIDENCE_FLOOR || reply.productId.None? || reply.productId.value == "" { return; }
      var product := FindRow(products, reply.productId.value);
      FindRowFinds(products, reply.productId.value);
      if product.None? || activeId == Some(product.value.id) { return; }
      ProposeProduct(product.value, reply.confidence, reply.evidence, []);
    }

    method OnActiveChange(id: Option<string>)
      requires Inv(View())
      modifies this
      ensures View() == Step(old(View()), ActiveChange(id)) && Inv(View())
    {
      StepKeepsInv(View(), ActiveChange(id));
      if id == activeId { return; }
      activeId := id;
      sequence := sequence + 1;
      ClearSuggestion();
    }
  }
}
