/**
 * The rehearsal load: every simulated user sends the corpus round robin, and the counts say which
 * kinds of question were covered. Elapsed times are exact integers.
 */
module LoadSimulator {
  import opened Prelude

  datatype Kind = Price | Shipping | Policy | VariantQuestion | Stock | Offer | Bid

  datatype Entry = Entry(kind: Kind, prompt: string)

  datatype Request = Request(users: int, messagesPerSecond: int, durationSeconds: int, corpus: seq<Entry>)

  datatype Message = Message(clientId: string, sequence: nat, elapsedMs: int, kind: Kind, prompt: string)

  datatype Simulation = Simulation(clients: seq<string>, messages: seq<Message>, expectedKinds: seq<Kind>,
                                   observedKinds: seq<Kind>, counts: map<Kind, nat>, complete: bool)

  datatype Result = Success(simulation: Simulation) | Failure(field: string)

  const DEFAULT_CORPUS := [
    Entry(Price, "What is the current price and compare-at price?"),
    Entry(Shipping, "How fast can this ship, and what does shipping cost?"),
    Entry(Policy, "Can I return this if the fit is not right?"),
    Entry(VariantQuestion, "Do you have this in the blue medium variant?"),
    Entry(Stock, "How many are left right now?"),
    Entry(Offer, "Can you make a live offer if I buy two?"),
    Entry(Bid, "I want to place the next bid.")]

  function CorpusOf(r: Request): (corpus: seq<Entry>)
    ensures corpus != []
  {
    if r.corpus != [] then r.corpus else DEFAULT_CORPUS
  }

  /** A corpus that is given is the one used. */
  lemma CorpusGiven(r: Request)
    ensures CorpusOf(r) == if |r.corpus| > 0 then r.corpus else DEFAULT_CORPUS
  {
  }

  function InvalidField(r: Request): Option<string> {
    if r.users < 1 then Some("users")
    else if r.messagesPerSecond < 1 then Some("messagesPerSecond")
    else if r.durationSeconds < 1 then Some("durationSeconds")
    else None
  }

  /** The first dimension below one is the one reported. */
  lemma FieldReported(r: Request)
    ensures InvalidField(r) == Some("users") <==> r.users <= 0
    ensures InvalidField(r) == Some("messagesPerSecond") <==> r.users >= 1 && r.messagesPerSecond <= 0
    ensures InvalidField(r) == Some("durationSeconds") <==>
      r.users >= 1 && r.messagesPerSecond >= 1 && r.durationSeconds <= 0
    ensures InvalidField(r) == None <==> r.users >= 1 && r.messagesPerSecond >= 1 && r.durationSeconds >= 1
  {
  }

  function ClientName(index: nat): string {
    "test-client-" + Digits(index + 1)
  }

  lemma ClientsAreNumbered()
    ensures ClientName(0) == "test-client-1" && ClientName(9) == "test-client-10" && ClientName(41) == "test-client-42"
  {
  }

  /** The corpus used when none is given asks one question of every kind. */
  lemma DefaultAsksEveryKind(kind: Kind)
    ensures exists i :: 0 <= i < |DEFAULT_CORPUS| && DEFAULT_CORPUS[i].kind == kind
    ensures forall i, j :: 0 <= i < j < |DEFAULT_CORPUS| ==> DEFAULT_CORPUS[i].kind != DEFAULT_CORPUS[j].kind
  {
    var k := match kind
      case Price => 0 case Shipping => 1 case Policy => 2 case VariantQuestion => 3
      case Stock => 4 case Offer => 5 case Bid => 6;
    assert DEFAULT_CORPUS[k].kind == kind;
  }

  // ---------------------------------------------------------------- the schedule by global position

  lemma PositiveProduct(a: int, b: int)
    requires a >= 1 && b >= 1
    ensures a * b >= 1
  {
  }

  function PerClient(r: Request): nat
    requires InvalidField(r).None?
  {
    PositiveProduct(r.messagesPerSecond, r.durationSeconds);
    r.messagesPerSecond * r.durationSeconds
  }

  function Total(r: Request): nat
    requires InvalidField(r).None?
  {
    PositiveProduct(r.users, PerClient(r));
    r.users * PerClient(r)
  }

  function EntryAt(r: Request, p: nat): Entry {
    CorpusOf(r)[p % |CorpusOf(r)|]
  }

  /** The message at a global position: its client, its number there, its time, and its corpus entry. */
  function MessageAt(r: Request, p: nat): Message
    requires InvalidField(r).None?
  {
    PositiveProduct(r.messagesPerSecond, r.durationSeconds);
    var entry := EntryAt(r, p);
    var sequence := p % PerClient(r);
    Message(ClientName(p / PerClient(r)), sequence, sequence * 1000 / r.messagesPerSecond, entry.kind, entry.prompt)
  }

  lemma Negated(d: nat, a: int, b: int)
    ensures d * (a - b) == -(d * (b - a))
  {
  }

  lemma AtLeastOnce(d: nat, k: int)
    requires k >= 1
    ensures d * k >= d
  {
  }

  lemma SameQuotient(d: nat, a: int, m: int, b: int, n: int)
    requires 0 <= m < d && 0 <= n < d && a * d + m == d * b + n
    ensures a == b && m == n
  {
    assert d * (b - a) == m - n;
    if b > a { AtLeastOnce(d, b - a); }
    Negated(d, a, b);
    if a > b { AtLeastOnce(d, a - b); }
  }

  /** Quotient and remainder are the only ones there are. */
  lemma DivMod(q: nat, d: nat, m: nat)
    requires m < d
    ensures (q * d + m) / d == q && (q * d + m) % d == m
  {
    var p := q * d + m;
    var quotient := p / d;
    assert p == d * quotient + p % d;
    SameQuotient(d, q, m, quotient, p % d);
  }

  lemma QuotientOf(p: nat, d: nat)
    requires d > 0
    ensures d * (p / d) <= p < d * (p / d) + d && p % d == p - d * (p / d)
  {
  }

  lemma LessFactor(d: nat, a: int, b: int)
    requires d * a < d * b
    ensures a < b
  {
  }

  function CountOf(messages: seq<Message>, kind: Kind): nat {
    if messages == [] then 0
    else CountOf(messages[..|messages| - 1], kind) + if messages[|messages| - 1].kind == kind then 1 else 0
  }

  function KindsOf(corpus: seq<Entry>): seq<Kind> {
    if corpus == [] then []
    else
      var init := KindsOf(corpus[..|corpus| - 1]);
      if corpus[|corpus| - 1].kind in init then init else init + [corpus[|corpus| - 1].kind]
  }

  function Observed(kinds: seq<Kind>, counts: map<Kind, nat>): seq<Kind> {
    if kinds == [] then []
    else (if kinds[0] in counts && counts[kinds[0]] > 0 then [kinds[0]] else []) + Observed(kinds[1..], counts)
  }

  ghost predicate Tallied(messages: seq<Message>, counts: map<Kind, nat>) {
    forall k: Kind :: (k in counts <==> CountOf(messages, k) > 0) && (k in counts ==> counts[k] == CountOf(messages, k))
  }

  lemma TallyOne(messages: seq<Message>, m: Message, counts: map<Kind, nat>)
    requires Tallied(messages, counts)
    ensures Tallied(messages + [m], counts[m.kind := (if m.kind in counts then counts[m.kind] else 0) + 1])
  {
    assert (messages + [m])[..|messages|] == messages;
  }

  /** The messages so far are the schedule's first ones. */
  ghost predicate Scheduled(r: Request, messages: seq<Message>)
    requires InvalidField(r).None?
  {
    forall p :: 0 <= p < |messages| ==> messages[p] == MessageAt(r, p)
  }

  lemma MessageIs(r: Request, c: nat, sequence: nat)
    requires InvalidField(r).None? && sequence < PerClient(r)
    ensures var e := EntryAt(r, c * PerClient(r) + sequence);
      MessageAt(r, c * PerClient(r) + sequence)
        == Message(ClientName(c), sequence, sequence * 1000 / r.messagesPerSecond, e.kind, e.prompt)
  {
    DivMod(c, PerClient(r), sequence);
  }

  /** The inner loop: everything one client sends. */
  method SendClient(r: Request, c: nat, before: seq<Message>, tally: map<Kind, nat>)
    returns (messages: seq<Message>, counts: map<Kind, nat>)
    requires InvalidField(r).None? && |before| == c * PerClient(r) && Scheduled(r, before) && Tallied(before, tally)
    ensures |messages| == |before| + PerClient(r) && Scheduled(r, messages) && Tallied(messages, counts)
  {
    messages, counts := before, tally;
    for sequence := 0 to PerClient(r)
      invariant |messages| == |before| + sequence
      invariant Scheduled(r, messages) && Tallied(messages, counts)
    {
      MessageIs(r, c, sequence);
      var entry := EntryAt(r, |messages|);
      var message := Message(ClientName(c), sequence, sequence * 1000 / r.messagesPerSecond, entry.kind, entry.prompt);
      TallyOne(messages, message, counts);
      messages := messages + [message];
      counts := counts[entry.kind := (if entry.kind in counts then counts[entry.kind] else 0) + 1];
    }
  }

  lemma OneMore(c: nat, d: nat)
    ensures (c + 1) * d == c * d + d
  {
  }

  /** The nested loops produce the schedule position by position, and count what they send. */
  method SimulateLoad(r: Request) returns (result: Result)
    ensures InvalidField(r).Some? ==> result == Failure(InvalidField(r).value)
    ensures InvalidField(r).None? ==> result.Success?
    ensures result.Success? ==>
      InvalidField(r).None? && |result.simulation.messages| == Total(r) && Scheduled(r, result.simulation.messages)
    ensures result.Success? ==>
      |result.simulation.clients| == r.users
      && forall c :: 0 <= c < r.users ==> result.simulation.clients[c] == ClientName(c)
    ensures result.Success? ==>
      && Tallied(result.simulation.messages, result.simulation.counts)
      && result.simulation.expectedKinds == KindsOf(CorpusOf(r))
      && result.simulation.observedKinds == Observed(KindsOf(CorpusOf(r)), result.simulation.counts)
      && (result.simulation.complete <==> |result.simulation.observedKinds| == |result.simulation.expectedKinds|)
  {
    if r.users < 1 { return Failure("users"); }
    if r.messagesPerSecond < 1 { return Failure("messagesPerSecond"); }
    if r.durationSeconds < 1 { return Failure("durationSeconds"); }
    var clients := seq(r.users, i requires 0 <= i => ClientName(i));
    var messages: seq<Message> := [];
    var counts: map<Kind, nat> := map[];
    for c := 0 to r.users
      invariant |messages| == c * PerClient(r)
      invariant Scheduled(r, messages) && Tallied(messages, counts)
    {
      messages, counts := SendClient(r, c, messages, counts);
      OneMore(c, PerClient(r));
    }
    var expected := KindsOf(CorpusOf(r));
    var observed := Observed(expected, counts);
    result := Success(Simulation(clients, messages, expected, observed, counts, |observed| == |expected|));
  }

  // ---------------------------------------------------------------- fair shares

  /** How many of the first `total` positions take corpus entry `i` of `n`. */
  function Uses(total: nat, n: nat, i: nat): nat
    requires n > 0
  {
    if total == 0 then 0 else Uses(total - 1, n, i) + if (total - 1) % n == i then 1 else 0
  }

  lemma Successor(total: nat, n: nat)
    requires n > 0
    ensures if total % n == n - 1 then (total + 1) / n == total / n + 1 && (total + 1) % n == 0
            else (total + 1) / n == total / n && (total + 1) % n == total % n + 1
  {
    var q, m := total / n, total % n;
    QuotientOf(total, n);
    var shift := if m == n - 1 then 1 else 0;
    assert (q + shift) * n == n * q + shift * n;
    DivMod(q + shift, n, if m == n - 1 then 0 else m + 1);
  }

  /** A corpus position is taken by a floor or a ceiling share of the message positions. */
  lemma {:induction false} PositionShare(total: nat, n: nat, i: nat)
    requires i < n
    ensures Uses(total, n, i) == total / n + if i < total % n then 1 else 0
  {
    if total == 0 {
      DivMod(0, n, 0);
    } else {
      PositionShare(total - 1, n, i);
      Successor(total - 1, n);
    }
  }

  predicate Carries(m: Message, e: Entry) {
    m.kind == e.kind && m.prompt == e.prompt
  }

  /** How many of the messages ask what the entry asks. */
  function Sent(messages: seq<Message>, e: Entry): nat {
    if messages == [] then 0
    else Sent(messages[..|messages| - 1], e) + if Carries(messages[|messages| - 1], e) then 1 else 0
  }

  /** Uses of all the positions among the first `k` of the corpus that hold the entry. */
  function UsesOf(corpus: seq<Entry>, k: nat, total: nat, e: Entry): nat
    requires k <= |corpus| && corpus != []
  {
    if k == 0 then 0
    else UsesOf(corpus, k - 1, total, e) + if corpus[k - 1] == e then Uses(total, |corpus|, k - 1) else 0
  }

  lemma {:induction false} UsesOfStep(corpus: seq<Entry>, k: nat, total: nat, e: Entry)
    requires k <= |corpus| && corpus != []
    ensures UsesOf(corpus, k, 0, e) == 0
    ensures UsesOf(corpus, k, total + 1, e)
         == UsesOf(corpus, k, total, e) + if total % |corpus| < k && corpus[total % |corpus|] == e then 1 else 0
  {
    if k > 0 { UsesOfStep(corpus, k - 1, total, e); }
  }

  /** The messages ask the corpus entries round robin. */
  ghost predicate RoundRobin(corpus: seq<Entry>, messages: seq<Message>)
    requires corpus != []
  {
    forall p :: 0 <= p < |messages| ==> Carries(messages[p], corpus[p % |corpus|])
  }

  lemma ScheduledRoundRobin(r: Request, messages: seq<Message>)
    requires InvalidField(r).None? && Scheduled(r, messages)
    ensures RoundRobin(CorpusOf(r), messages)
  {
    forall p | 0 <= p < |messages| ensures Carries(messages[p], CorpusOf(r)[p % |CorpusOf(r)|]) {
      assert messages[p] == MessageAt(r, p);
    }
  }

  lemma CarriesOne(m: Message, d: Entry, e: Entry)
    requires Carries(m, d)
    ensures Carries(m, e) <==> d == e
  {
  }

  /** The messages ask each entry as often as the positions that hold it are used. */
  lemma {:induction false} SentIsUses(corpus: seq<Entry>, messages: seq<Message>, e: Entry)
    requires corpus != [] && RoundRobin(corpus, messages)
    ensures Sent(messages, e) == UsesOf(corpus, |corpus|, |messages|, e)
    decreases |messages|
  {
    if messages == [] {
      UsesOfStep(corpus, |corpus|, 0, e);
    } else {
      var p := |messages| - 1;
      SentIsUses(corpus, messages[..p], e);
      UsesOfStep(corpus, |corpus|, p, e);
      CarriesOne(messages[p], corpus[p % |corpus|], e);
    }
  }

  /** How many of the first `k` corpus positions hold the entry. */
  function Copies(corpus: seq<Entry>, k: nat, e: Entry): nat
    requires k <= |corpus|
  {
    if k == 0 then 0 else Copies(corpus, k - 1, e) + if corpus[k - 1] == e then 1 else 0
  }

  lemma {:induction false} SharesAddUp(corpus: seq<Entry>, k: nat, total: nat, e: Entry, floor: nat, extra: nat)
    requires k <= |corpus| && corpus != [] && floor == total / |corpus| && extra == total % |corpus|
    ensures extra < |corpus|
    ensures UsesOf(corpus, k, total, e) == Copies(corpus, k, e) * floor + Copies(corpus, Min(k, extra), e)
  {
    if k > 0 {
      SharesAddUp(corpus, k - 1, total, e, floor, extra);
      PositionShare(total, |corpus|, k - 1);
      OneMore(Copies(corpus, k - 1, e), floor);
    }
  }

  lemma RoundRobinShare(corpus: seq<Entry>, messages: seq<Message>, e: Entry, floor: nat, extra: nat)
    requires corpus != [] && RoundRobin(corpus, messages)
    requires floor == |messages| / |corpus| && extra == |messages| % |corpus|
    ensures extra < |corpus|
    ensures Sent(messages, e) == Copies(corpus, |corpus|, e) * floor + Copies(corpus, extra, e)
  {
    SentIsUses(corpus, messages, e);
    SharesAddUp(corpus, |corpus|, |messages|, e, floor, extra);
  }

  /**
   * After any number of messages of the schedule, all of them included, every corpus entry has had its fair
   * share: each position that holds it was used a floor share of them, and once more if it is among the
   * first |messages| % size positions.
   */
  lemma FairShare(r: Request, messages: seq<Message>, e: Entry, floor: nat, extra: nat)
    requires InvalidField(r).None? && Scheduled(r, messages)
    requires floor == |messages| / |CorpusOf(r)| && extra == |messages| % |CorpusOf(r)|
    ensures extra < |CorpusOf(r)|
    ensures Sent(messages, e) == Copies(CorpusOf(r), |CorpusOf(r)|, e) * floor + Copies(CorpusOf(r), extra, e)
  {
    ScheduledRoundRobin(r, messages);
    RoundRobinShare(CorpusOf(r), messages, e, floor, extra);
  }

  // ---------------------------------------------------------------- coverage

  ghost predicate Sends(messages: seq<Message>, kind: Kind) {
    exists p :: 0 <= p < |messages| && messages[p].kind == kind
  }

  lemma {:induction false} CountSends(messages: seq<Message>, kind: Kind)
    ensures CountOf(messages, kind) > 0 <==> Sends(messages, kind)
  {
    if messages != [] {
      var init := messages[..|messages| - 1];
      CountSends(init, kind);
      if Sends(messages, kind) {
        var p :| 0 <= p < |messages| && messages[p].kind == kind;
        if p < |init| { assert init[p] == messages[p]; }
      }
      if Sends(init, kind) {
        var p :| 0 <= p < |init| && init[p].kind == kind;
        assert messages[p] == init[p];
      }
    }
  }

  lemma {:induction false} KindsOfMembers(corpus: seq<Entry>)
    ensures forall k :: k in KindsOf(corpus) <==> exists e :: e in corpus && e.kind == k
    ensures Distinct(KindsOf(corpus))
  {
    if corpus != [] {
      var init, last := corpus[..|corpus| - 1], corpus[|corpus| - 1];
      KindsOfMembers(init);
      assert corpus == init + [last];
      forall k ensures k in KindsOf(corpus) <==> exists e :: e in corpus && e.kind == k {
        if k in KindsOf(init) {
          var e :| e in init && e.kind == k;
          assert e in corpus;
        } else if k == last.kind {
          assert last in corpus;
        }
      }
    }
  }

  lemma {:induction false} ObservedAll(kinds: seq<Kind>, counts: map<Kind, nat>)
    ensures |Observed(kinds, counts)| <= |kinds|
    ensures |Observed(kinds, counts)| == |kinds| <==> forall k :: k in kinds ==> k in counts && counts[k] > 0
  {
    if kinds != [] {
      ObservedAll(kinds[1..], counts);
      assert kinds == [kinds[0]] + kinds[1..];
    }
  }

  /** The kind occurs among the first `m` corpus entries. */
  ghost predicate Early(corpus: seq<Entry>, m: nat, kind: Kind) {
    exists j :: 0 <= j < m && j < |corpus| && corpus[j].kind == kind
  }

  lemma ModAtMost(p: nat, n: nat)
    requires n > 0
    ensures p % n <= p
  {
    if p < n { DivMod(0, n, p); }
  }

  lemma SendsEarly(r: Request, messages: seq<Message>, kind: Kind)
    requires InvalidField(r).None? && |messages| == Total(r)
    requires Scheduled(r, messages)
    ensures Sends(messages, kind) <==> Early(CorpusOf(r), Total(r), kind)
  {
    var corpus := CorpusOf(r);
    if Sends(messages, kind) {
      var p :| 0 <= p < |messages| && messages[p].kind == kind;
      assert corpus[p % |corpus|].kind == kind;
      ModAtMost(p, |corpus|);
    }
    if Early(corpus, Total(r), kind) {
      var j :| 0 <= j < Total(r) && j < |corpus| && corpus[j].kind == kind;
      DivMod(0, |corpus|, j);
      assert messages[j].kind == kind;
    }
  }

  /** Coverage is complete exactly when every kind occurs in the first min(total, corpus size) entries. */
  lemma CoverageIsEarlyKinds(r: Request, s: Simulation)
    requires InvalidField(r).None? && |s.messages| == Total(r)
    requires Scheduled(r, s.messages)
    requires Tallied(s.messages, s.counts)
    requires s.expectedKinds == KindsOf(CorpusOf(r)) && s.observedKinds == Observed(s.expectedKinds, s.counts)
    ensures |s.observedKinds| == |s.expectedKinds| <==>
      forall e :: e in CorpusOf(r) ==> Early(CorpusOf(r), Total(r), e.kind)
  {
    var corpus := CorpusOf(r);
    KindsOfMembers(corpus);
    ObservedAll(s.expectedKinds, s.counts);
    forall k: Kind ensures k in s.counts && s.counts[k] > 0 <==> Early(corpus, Total(r), k) {
      CountSends(s.messages, k);
      SendsEarly(r, s.messages, k);
    }
    forall e | e in corpus ensures e.kind in KindsOf(corpus) {
    }
  }

  // ---------------------------------------------------------------- pace of one client

  lemma Thousandfold(d: nat, k: nat)
    ensures d * (1000 * k) == 1000 * (d * k)
    ensures d * (1000 * (k + 1)) == 1000 * (d * k + d)
  {
  }

  lemma SecondOf(sequence: nat, rate: nat)
    requires rate > 0
    ensures sequence * 1000 / rate / 1000 == sequence / rate
  {
    var k, ms := sequence / rate, sequence * 1000 / rate;
    QuotientOf(sequence, rate);
    QuotientOf(sequence * 1000, rate);
    Thousandfold(rate, k);
    assert rate * (ms + 1) == rate * ms + rate;
    LessFactor(rate, 1000 * k, ms + 1);
    LessFactor(rate, ms, 1000 * (k + 1));
    DivMod(k, 1000, ms - 1000 * k);
  }

  /** A message falls in second `k` when its number is among the `rate` numbers from k * rate on. */
  lemma SecondIs(sequence: nat, rate: nat, k: nat)
    requires rate > 0
    ensures sequence / rate == k <==> k * rate <= sequence < k * rate + rate
  {
    QuotientOf(sequence, rate);
    if k * rate <= sequence < k * rate + rate { DivMod(k, rate, sequence - k * rate); }
  }

  lemma Distributes(a: nat, b: nat, c: nat)
    ensures a * (b + c) == a * b + a * c && 0 <= a * c
  {
  }

  lemma LastSecondFits(rate: nat, k: nat, duration: nat)
    requires k < duration
    ensures k * rate + rate <= rate * duration
  {
    Distributes(rate, k + 1, duration - k - 1);
    Distributes(rate, k, 1);
  }

  lemma PositionIs(p: nat, per: nat, c: nat, rate: nat, k: nat)
    requires rate > 0 && k * rate + rate <= per
    ensures p / per == c && p % per / rate == k <==> c * per + k * rate <= p < c * per + (k + 1) * rate
  {
    assert (k + 1) * rate == k * rate + rate;
    QuotientOf(p, per);
    SecondIs(p % per, rate, k);
    if c * per + k * rate <= p < c * per + (k + 1) * rate { DivMod(c, per, p - c * per); }
  }

  /**
   * Client `c` sends in whole second `k` exactly at the `rate` consecutive positions from
   * c * perClient + k * rate on, and nowhere else.
   */
  lemma RateEverySecond(r: Request, c: nat, k: nat, p: nat)
    requires InvalidField(r).None? && c < r.users && k < r.durationSeconds && p < Total(r)
    ensures p / PerClient(r) == c && MessageAt(r, p).elapsedMs / 1000 == k
       <==> c * PerClient(r) + k * r.messagesPerSecond <= p < c * PerClient(r) + (k + 1) * r.messagesPerSecond
  {
    var rate, per := r.messagesPerSecond, PerClient(r);
    PositiveProduct(rate, r.durationSeconds);
    LastSecondFits(rate, k, r.durationSeconds);
    SecondOf(p % per, rate);
    PositionIs(p, per, c, rate, k);
  }
}
