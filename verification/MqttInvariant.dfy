/** What every interleaving of the MQTT connector's threads keeps for one device's inbox. */
module MqttInvariant {
  import opened Options
  import opened Sequences
  import opened MqttDispatch

  // --- order ------------------------------------------------------------------

  function InHand(c: Consumer): seq<nat> {
    match c
    case Holding(item) => Ids(item)
    case _ => []
  }

  function AboutToQueue(p: Producer): seq<nat> {
    match p
    case Arrived(x) => [x]
    case Looking(x) => [x]
    case Putting(x) => [x]
    case Making(x) => [x]
    case Replacing(x) => [x]
    case _ => []
  }

  /** Queued, or on its way into the queue. */
  function Tail(s: State): seq<nat> {
    Payloads(s.queue) + AboutToQueue(s.producer)
  }

  /** Delivered, in the dispatcher's hand, queued, on its way into the queue. */
  function Chain(s: State): seq<nat> {
    s.delivered + InHand(s.consumer) + Tail(s)
  }

  /** The chain is an order-preserving subsequence of the arrivals 0, 1, 2, ... */
  ghost predicate Ordered(s: State) {
    && Ascending(Chain(s))
    && (forall i :: 0 <= i < |Chain(s)| ==> Chain(s)[i] < s.next)
  }

  /** Every overflow drop is older than everything queued or still to be queued. */
  ghost predicate DropsAreOldest(s: State) {
    forall d, k :: d in s.dropped && k in Tail(s) ==> d < k
  }

  // --- conservation --------------------------------------------------------------

  function Arrivals(n: nat): multiset<nat> {
    if n == 0 then multiset{} else Arrivals(n - 1) + multiset{n - 1}
  }

  /** What will never be delivered. */
  function Aside(s: State): multiset<nat> {
    s.dropped + s.abandoned + s.refused
  }

  /** Every arrival is in exactly one place. */
  ghost predicate Conserved(s: State) {
    multiset(Chain(s)) + Aside(s) == Arrivals(s.next)
  }

  // --- bound ------------------------------------------------------------------------

  predicate InFlight(p: Producer) {
    p.Looking? || p.Putting? || p.Making? || p.Replacing?
  }

  ghost predicate Bounded(s: State) {
    && |s.queue| <= CAPACITY
    && (s.producer.Replacing? ==> |s.queue| < CAPACITY)
    && s.newestLost == 0
    && (s.dispatcher == 0 ==> s.queue == [] && s.consumer.Gone?)
    && (InFlight(s.producer) && !s.producer.Looking? ==> s.dispatcher > 0)
    // A stop that is about to put its sentinel has seen the queue empty, and lets nobody in after
    // the payload that was already on its way.
    && (s.stopper == Stopping(Marking(s.dispatcher)) && InFlight(s.producer) ==> s.queue == [])
    && (s.stopper.Stopping? ==> s.stopping)
    && (s.stopper.Stopping? && !s.stopper.release.Snapshot? ==> 0 < s.stopper.release.d <= s.dispatcher)
    && (s.producer.Ending? && !s.producer.release.Snapshot? ==> s.producer.release.d == s.dispatcher > 0)
  }

  // --- waking -----------------------------------------------------------------------------

  predicate Releasing(r: Release, dispatcher: nat) {
    r == Draining(dispatcher) || r == Marking(dispatcher)
  }

  /** Some thread is certain to put something into the queue before it does anything else. */
  predicate PutIsComing(s: State) {
    || s.producer.Putting? || s.producer.Making? || s.producer.Replacing?
    || (s.producer.Ending? && Releasing(s.producer.release, s.dispatcher))
    || (s.stopper.Stopping? && Releasing(s.stopper.release, s.dispatcher))
  }

  /** The dispatch thread leaves on its next step. */
  predicate Exits(s: State) {
    s.consumer.Holding? && (s.consumer.item == StopMark || s.stopping)
  }

  /** A wakeable dispatcher that still runs leaves on its next step, or has something to wake on,
      or is certain to get it. Without a stop, what it has to wake on is the sentinel. */
  ghost predicate Awake(s: State) {
    && (s.wakeable && !s.consumer.Gone? && !Exits(s) ==> s.queue != [] || PutIsComing(s))
    && (s.wakeable && !s.stopping ==>
          s.producer.Ended? && s.stopper.Away? && forall i :: 0 <= i < |s.queue| ==> s.queue[i] == StopMark)
    && (s.stopping && s.dispatcher > 0 ==>
          s.wakeable || s.stopper == Stopping(Snapshot)
          || (s.stopper.Stopping? && Releasing(s.stopper.release, s.dispatcher)))
    && (s.producer.Ended? && s.dispatcher > 0 ==> s.wakeable)
    && (!s.stopping && s.producer.Ending? && s.producer.release.Marking? ==> s.queue == [])
  }

  ghost predicate Inv(s: State) {
    Bounded(s) && Ordered(s) && DropsAreOldest(s) && Conserved(s) && Awake(s)
  }

  // --- payloads of queues ----------------------------------------------------------------------

  lemma {:induction false} PayloadsSnoc(q: seq<Item>, item: Item)
    ensures Payloads(q + [item]) == Payloads(q) + Ids(item)
  {
    if q == [] {
      assert q + [item] == [item];
      assert [item][1..] == [];
    } else {
      assert (q + [item])[1..] == q[1..] + [item];
      PayloadsSnoc(q[1..], item);
    }
  }

  // --- the effect of a step on the chain -------------------------------------------------------

  /** How a step changes the chain: not at all, by one new arrival at the end, or by taking out a
      stretch of it. */
  ghost predicate Took(s: State, s': State, a: seq<nat>, x: seq<nat>, b: seq<nat>) {
    Chain(s) == a + x + b && Chain(s') == a + b
  }

  lemma AscendingWithout(a: seq<nat>, x: seq<nat>, b: seq<nat>)
    requires Ascending(a + x + b)
    ensures Ascending(a + b)
    ensures forall i :: 0 <= i < |a + b| ==> (a + b)[i] in a + x + b
  {
    var c, d := a + x + b, a + b;
    forall i | 0 <= i < |d| ensures d[i] == c[if i < |a| then i else i + |x|] {
    }
    forall i, j | 0 <= i < j < |d| ensures d[i] < d[j] {
      assert c[if i < |a| then i else i + |x|] < c[if j < |a| then j else j + |x|];
    }
  }

  lemma MultisetWithout(a: seq<nat>, x: seq<nat>, b: seq<nat>)
    ensures multiset(a + x + b) == multiset(a + b) + multiset(x)
  {
  }

  /** Taking a stretch out of the chain and putting it aside keeps order and conservation. */
  lemma TakenAside(s: State, s': State, a: seq<nat>, x: seq<nat>, b: seq<nat>)
    requires Ordered(s) && Conserved(s) && Took(s, s', a, x, b) && s'.next == s.next
    requires Aside(s') == Aside(s) + multiset(x)
    ensures Ordered(s') && Conserved(s')
  {
    hide Chain, Ascending, Aside;
    AscendingWithout(a, x, b);
    MultisetWithout(a, x, b);
    forall i | 0 <= i < |a + b| ensures (a + b)[i] < s.next {
      assert (a + b)[i] in a + x + b;
    }
    assert multiset(a + b) + (Aside(s) + multiset(x)) == (multiset(a + b) + multiset(x)) + Aside(s);
  }

  /** Moving along the chain changes nothing. */
  lemma MovedAlong(s: State, s': State)
    requires Ordered(s) && Conserved(s) && Chain(s') == Chain(s) && s'.next == s.next && Aside(s') == Aside(s)
    ensures Ordered(s') && Conserved(s')
  {
  }

  /** Whatever was dropped has arrived. */
  lemma DroppedArrived(s: State)
    requires Conserved(s)
    ensures forall d :: d in s.dropped ==> d < s.next
  {
    hide Chain;
    forall d | d in s.dropped ensures d < s.next {
      assert d in Aside(s);
      assert d in multiset(Chain(s)) + Aside(s);
      InArrivals(s.next, d);
    }
  }

  lemma {:induction false} InArrivals(n: nat, d: nat)
    requires d in Arrivals(n)
    ensures d < n
  {
    if n > 0 && d != n - 1 {
      InArrivals(n - 1, d);
    }
  }

  // --- order and conservation, step by step -----------------------------------------------------

  ghost predicate Accounted(s: State) {
    Ordered(s) && DropsAreOldest(s) && Conserved(s)
  }

  /** With nothing more dropped and nothing new in the tail, the drops stay the oldest. */
  lemma TailShrinks(s: State, s': State)
    requires DropsAreOldest(s) && s'.dropped == s.dropped
    requires forall k :: k in Tail(s') ==> k in Tail(s)
    ensures DropsAreOldest(s')
  {
  }

  lemma ArriveKeepsOrder(c: seq<nat>, n: nat)
    requires Ascending(c) && forall i :: 0 <= i < |c| ==> c[i] < n
    ensures Ascending(c + [n]) && forall i :: 0 <= i < |c + [n]| ==> (c + [n])[i] < n + 1
    ensures multiset(c + [n]) == multiset(c) + multiset{n}
  {
  }

  lemma ArriveChain(s: State)
    requires s.producer.Listening?
    ensures var s' := Apply(s, Arrive).value;
            && Tail(s') == Tail(s) + [s.next] && Chain(s') == Chain(s) + [s.next]
            && Aside(s') == Aside(s) && s'.dropped == s.dropped && s'.next == s.next + 1
  {
    hide Payloads, Ids;
  }

  lemma ArriveConserves(c: multiset<nat>, aside: multiset<nat>, n: nat)
    requires c + aside == Arrivals(n)
    ensures (c + multiset{n}) + aside == Arrivals(n + 1)
  {
  }

  lemma ArriveAccounts(s: State)
    requires Accounted(s) && s.producer.Listening?
    ensures Accounted(Apply(s, Arrive).value)
  {
    hide Chain, Tail, Aside, Ascending, Arrivals, Apply;
    ArriveChain(s);
    DroppedArrived(s);
    ArriveKeepsOrder(Chain(s), s.next);
    ArriveConserves(multiset(Chain(s)), Aside(s), s.next);
  }

  lemma QueueHead(q: seq<Item>)
    requires q != []
    ensures Payloads(q) == Ids(q[0]) + Payloads(q[1..])
  {
  }

  /** A release step. */
  lemma ReleaseAccounts(s: State, r: Release)
    requires Accounted(s)
    ensures Accounted(ReleaseStep(s, r).0)
    ensures var s' := ReleaseStep(s, r).0; s'.producer == s.producer && s'.next == s.next
  {
    hide Payloads, Ids, Ascending, Conserved, Ordered;
    var s' := ReleaseStep(s, r).0;
    if r.Draining? && r.d == s.dispatcher && s.queue != [] {
      QueueHead(s.queue);
      var x := Ids(s.queue[0]);
      assert Tail(s) == x + Tail(s');
      assert Aside(s') == Aside(s) + multiset(x);
      TailShrinks(s, s');
      TakenAside(s, s', s.delivered + InHand(s.consumer), x, Tail(s'));
    } else if r.Marking? && r.d == s.dispatcher {
      PayloadsSnoc(s.queue, StopMark);
      MarkIsNoPayload();
      assert Payloads(s'.queue) == Payloads(s.queue);
      MovedAlong(s, s');
    }
  }

  lemma MarkIsNoPayload()
    ensures Ids(StopMark) == [] && forall x: nat :: Ids(Payload(x)) == [x]
  {
  }

  /** The chain does not look at where a release stands. */
  lemma OnlyThreadsDiffer(s: State, s': State)
    requires Accounted(s) && AboutToQueue(s'.producer) == AboutToQueue(s.producer)
    requires s'.queue == s.queue && InHand(s'.consumer) == InHand(s.consumer) && s'.delivered == s.delivered
    requires s'.next == s.next && Aside(s') == Aside(s) && s'.dropped == s.dropped
    ensures Accounted(s')
  {
    assert Chain(s') == Chain(s);
  }

  lemma TakeAccounts(s: State)
    requires Accounted(s) && ConsumerStep(s).Some? && s.consumer.Waiting?
    ensures Accounted(ConsumerStep(s).value)
  {
    hide Payloads, Ids, Ascending, Conserved, Ordered;
    var s' := ConsumerStep(s).value;
    QueueHead(s.queue);
    assert Tail(s) == Ids(s.queue[0]) + Tail(s');
    TailShrinks(s, s');
    assert Chain(s') == Chain(s);
    MovedAlong(s, s');
  }

  lemma ExitAccounts(s: State)
    requires Accounted(s) && ConsumerStep(s).Some?
    requires s.consumer.Holding? && (s.consumer.item == StopMark || s.stopping)
    ensures Accounted(ConsumerStep(s).value)
  {
    hide Payloads, Ids, Ascending, Conserved, Ordered;
    var s' := ConsumerStep(s).value;
    assert Tail(s') == Tail(s);
    TailShrinks(s, s');
    assert Aside(s') == Aside(s) + multiset(Ids(s.consumer.item));
    TakenAside(s, s', s.delivered, Ids(s.consumer.item), Tail(s));
  }

  lemma ConsumerAccounts(s: State)
    requires Accounted(s) && ConsumerStep(s).Some?
    ensures Accounted(ConsumerStep(s).value)
  {
    hide Payloads, Ids, Ascending, Conserved, Ordered;
    var s' := ConsumerStep(s).value;
    match s.consumer
    case Waiting => TakeAccounts(s);
    case Holding(item) =>
      if item == StopMark || s.stopping {
        ExitAccounts(s);
      } else {
        assert Tail(s') == Tail(s);
        TailShrinks(s, s');
        assert Chain(s') == Chain(s);
        MovedAlong(s, s');
      }
    case Delivering =>
      OnlyThreadsDiffer(s, s');
  }

  /** Replacing a dispatcher abandons its queue. */
  lemma ReplaceAccounts(s: State)
    requires Accounted(s) && s.producer.Looking? && (s.dispatcher == 0 || s.consumer.Gone?)
    requires s.dispatcher == 0 ==> s.consumer.Gone?
    ensures Accounted(ProducerStep(s).value)
  {
    hide Ids, Ascending, Conserved, Ordered, DropsAreOldest, Took, Chain, Tail, Aside, Payloads;
    var s' := ProducerStep(s).value;
    ReplaceChain(s);
    TailShrinks(s, s');
    TakenAside(s, s', s.delivered, Payloads(s.queue), AboutToQueue(s.producer));
  }

  lemma ReplaceChain(s: State)
    requires s.producer.Looking? && s.consumer.Gone?
    ensures var s' := ProducerStep(s).value;
      && Took(s, s', s.delivered, Payloads(s.queue), AboutToQueue(s.producer))
      && (forall k :: k in Tail(s') ==> k in Tail(s))
      && Aside(s') == Aside(s) + multiset(Payloads(s.queue))
      && s'.next == s.next && s'.dropped == s.dropped
  {
    hide Ids;
    assert Payloads([]) == [];
  }

  /** Dropping the oldest to make room. */
  lemma MakeAccounts(s: State)
    requires Accounted(s) && s.producer.Making?
    ensures Accounted(ProducerStep(s).value)
  {
    hide Payloads, Ids, Conserved;
    var s' := ProducerStep(s).value;
    if s.queue != [] {
      QueueHead(s.queue);
      var x := Ids(s.queue[0]);
      var earlier := s.delivered + InHand(s.consumer);
      assert Tail(s) == x + Tail(s');
      assert Chain(s) == earlier + x + Tail(s') && Chain(s') == earlier + Tail(s');
      HeadIsOldest(earlier, x, Tail(s'));
      assert Aside(s') == Aside(s) + multiset(x);
      assert s'.dropped == s.dropped + multiset(x);
      hide Chain, Tail, Ascending, Aside;
      TakenAside(s, s', earlier, x, Tail(s'));
      assert DropsAreOldest(s') by {
        forall d, k | d in s'.dropped && k in Tail(s') ensures d < k {
          assert d in s.dropped || d in x;
          assert k in Tail(s);
        }
      }
    } else {
      OnlyThreadsDiffer(s, s');
    }
  }

  lemma HeadIsOldest(a: seq<nat>, x: seq<nat>, b: seq<nat>)
    requires Ascending(a + x + b)
    ensures forall d, k :: d in x && k in b ==> d < k
  {
    forall d, k | d in x && k in b ensures d < k {
      var i :| 0 <= i < |x| && x[i] == d;
      var j :| 0 <= j < |b| && b[j] == k;
      var c := a + x + b;
      assert c[|a| + i] == d && c[|a| + |x| + j] == k;
    }
  }

  /** A payload getting into the queue. */
  lemma PutAccounts(s: State, s': State, x: nat)
    requires Accounted(s) && (s.producer == Putting(x) || s.producer == Replacing(x))
    requires s' == s.(producer := Listening, queue := s.queue + [Payload(x)])
    ensures Accounted(s')
  {
    hide Payloads, Ids;
    PayloadsSnoc(s.queue, Payload(x));
    MarkIsNoPayload();
    assert Payloads(s'.queue) == Payloads(s.queue) + [x];
    assert Chain(s') == Chain(s);
    MovedAlong(s, s');
  }

  lemma ProducerAccounts(s: State)
    requires Accounted(s) && Bounded(s) && ProducerStep(s).Some?
    ensures Accounted(ProducerStep(s).value)
  {
    hide Accounted, Chain, Payloads, Ids, ReleaseStep;
    var s' := ProducerStep(s).value;
    match s.producer
    case Arrived(x) =>
      if s.stopping {
        RefuseAccounts(s);
      } else {
        OnlyThreadsDiffer(s, s');
      }
    case Looking(x) =>
      if s.dispatcher > 0 && !s.consumer.Gone? {
        OnlyThreadsDiffer(s, s');
      } else {
        ReplaceAccounts(s);
      }
    case Putting(x) =>
      if |s.queue| < CAPACITY {
        PutAccounts(s, s', x);
      } else {
        OnlyThreadsDiffer(s, s');
      }
    case Making(x) => MakeAccounts(s);
    case Replacing(x) => PutAccounts(s, s', x);
    case Ending(r) =>
      ReleaseAccounts(s, r);
      OnlyThreadsDiffer(ReleaseStep(s, r).0, s');
    case Quit => OnlyThreadsDiffer(s, s');
  }

  lemma RefuseAccounts(s: State)
    requires Accounted(s) && s.producer.Arrived? && s.stopping
    ensures Accounted(ProducerStep(s).value)
  {
    hide Payloads, Ids, Ascending, Conserved, Ordered;
    var s' := ProducerStep(s).value;
    var x := [s.producer.x];
    assert Tail(s) == Payloads(s.queue) + x && Tail(s') == Payloads(s.queue);
    TailShrinks(s, s');
    assert Aside(s') == Aside(s) + multiset(x);
    TakenAside(s, s', s.delivered + InHand(s.consumer) + Payloads(s.queue), x, []);
  }

  lemma StepAccounts(s: State, a: Action)
    requires Accounted(s) && Bounded(s) && Apply(s, a).Some?
    ensures Accounted(Apply(s, a).value)
  {
    hide Accounted, Chain, ProducerStep, ConsumerStep, ReleaseStep;
    match a
    case Arrive => ArriveAccounts(s);
    case Produce => ProducerAccounts(s);
    case Stop =>
      ReleaseAccounts(s, s.stopper.release);
      OnlyThreadsDiffer(ReleaseStep(s, s.stopper.release).0, Apply(s, a).value);
    case Consume => ConsumerAccounts(s);
    case _ => OnlyThreadsDiffer(s, Apply(s, a).value);
  }

  // --- bounds and waking, step by step ---------------------------------------------------------------

  ghost predicate Control(s: State) {
    Bounded(s) && Awake(s)
  }

  lemma EndingControls(s: State)
    requires Control(s) && s.producer.Ending?
    ensures Control(ProducerStep(s).value)
  {
    hide Payloads, Ids;
  }

  lemma PutControls(s: State)
    requires Control(s) && (s.producer.Putting? || s.producer.Making? || s.producer.Replacing?)
    ensures Control(ProducerStep(s).value)
  {
    hide Payloads, Ids, ReleaseStep;
  }

  lemma ProducerControls(s: State)
    requires Control(s) && ProducerStep(s).Some?
    ensures Control(ProducerStep(s).value)
  {
    hide Payloads, Ids, ReleaseStep;
    match s.producer
    case Ending(_) => EndingControls(s);
    case Putting(_) | Making(_) | Replacing(_) => PutControls(s);
    case Arrived(_) =>
    case Looking(_) =>
    case Quit =>
  }

  lemma StopControls(s: State)
    requires Control(s) && StopStep(s).Some?
    ensures Control(StopStep(s).value)
  {
    hide Payloads, Ids;
  }

  lemma ConsumerControls(s: State)
    requires Control(s) && ConsumerStep(s).Some?
    ensures Control(ConsumerStep(s).value)
  {
    hide Payloads, Ids;
  }

  lemma StepControls(s: State, a: Action)
    requires Control(s) && Apply(s, a).Some?
    ensures Control(Apply(s, a).value)
  {
    hide ProducerStep, StopStep, ConsumerStep;
    match a
    case Produce => ProducerControls(s);
    case Stop => StopControls(s);
    case Consume => ConsumerControls(s);
    case _ =>
  }

  lemma InitialInv()
    ensures Inv(Initial())
  {
  }

  lemma {:induction false} RunInv(schedule: seq<Action>)
    requires Run(schedule).Some?
    ensures Inv(Run(schedule).value)
  {
    hide Bounded, Ordered, DropsAreOldest, Conserved, Awake, Apply;
    if schedule == [] {
      InitialInv();
    } else {
      var before := schedule[..|schedule| - 1];
      RunInv(before);
      StepAccounts(Run(before).value, schedule[|schedule| - 1]);
      StepControls(Run(before).value, schedule[|schedule| - 1]);
    }
  }

  // --- what the inbox promises -------------------------------------------------------------------------

  /** Delivered payloads followed by the one in hand and the queued ones are an order-preserving
      subsequence of the arrivals, in every interleaving; nothing is delivered twice. */
  lemma DeliveriesInOrder(schedule: seq<Action>)
    requires Run(schedule).Some?
    ensures var s := Run(schedule).value;
            var line := s.delivered + InHand(s.consumer) + Payloads(s.queue);
            Ascending(line) && forall i :: 0 <= i < |line| ==> line[i] < s.next
  {
    hide Run, Bounded, DropsAreOldest, Conserved, Awake, Payloads, InHand, AboutToQueue;
    RunInv(schedule);
    var s := Run(schedule).value;
    var line := s.delivered + InHand(s.consumer) + Payloads(s.queue);
    assert Chain(s) == line + AboutToQueue(s.producer);
    hide Chain;
    forall i | 0 <= i < |line| ensures line[i] == Chain(s)[i] {
    }
  }

  /** Every arrival is delivered, in hand, queued, on its way in, dropped, abandoned or refused,
      and only one of these; the queue never exceeds its bound. */
  lemma EveryArrivalIsAccountedFor(schedule: seq<Action>)
    requires Run(schedule).Some?
    ensures var s := Run(schedule).value;
      && multiset(s.delivered) + multiset(InHand(s.consumer)) + multiset(Payloads(s.queue))
           + multiset(AboutToQueue(s.producer)) + s.dropped + s.abandoned + s.refused == Arrivals(s.next)
      && |s.queue| <= CAPACITY
  {
    hide Run, Ordered, DropsAreOldest, Awake, Payloads, Arrivals;
    RunInv(schedule);
  }

  lemma {:induction false} ArrivalsOnce(n: nat, d: nat)
    ensures Arrivals(n)[d] == if d < n then 1 else 0
  {
    if n > 0 {
      ArrivalsOnce(n - 1, d);
    }
  }

  /** Overflow costs the oldest: every drop is older than everything queued or still on its way
      in, and the newest payload always gets in. */
  lemma OverflowDropsOldest(schedule: seq<Action>)
    requires Run(schedule).Some?
    ensures var s := Run(schedule).value;
      && (forall d, k :: d in s.dropped && k in Tail(s) ==> d < k)
      && s.newestLost == 0
  {
    hide Run, Ordered, Conserved, Awake, Tail;
    RunInv(schedule);
  }

  /** Shutdown loses no wake-up. Once a release has covered the current dispatcher, by `stop()` or
      by the end of `start()`, and also for one created after the stop, in every interleaving and
      whatever `_drop_oldest` removes: its thread leaves on its next step, or has something to
      wake on, or some thread is certain to put something before it does anything else. */
  lemma ShutdownLosesNoWakeUp(schedule: seq<Action>)
    requires Run(schedule).Some? && Run(schedule).value.wakeable
    ensures var s := Run(schedule).value;
            s.consumer.Gone? || Exits(s) || s.queue != [] || PutIsComing(s)
  {
    hide Run, Bounded, Ordered, DropsAreOldest, Conserved;
    RunInv(schedule);
  }

  // The put that is coming comes.

  /** Whose put is coming: the network thread's, or that of the thread in `stop()`. */
  predicate PutBy(s: State, a: Action) {
    || (a == Produce && (s.producer.Putting? || s.producer.Making? || s.producer.Replacing?
                         || (s.producer.Ending? && Releasing(s.producer.release, s.dispatcher))))
    || (a == Stop && s.stopper.Stopping? && Releasing(s.stopper.release, s.dispatcher))
  }

  /** How many own steps the thread is from its put into an empty queue. */
  function StepsToPut(s: State, a: Action): nat
    requires PutBy(s, a)
  {
    if a == Stop then if s.stopper.release.Marking? then 1 else 2
    else match s.producer
      case Making(_) => 2
      case Ending(r) => if r.Marking? then 1 else 2
      case _ => 1
  }

  function OwnSteps(schedule: seq<Action>, a: Action): nat {
    if schedule == [] then 0
    else OwnSteps(schedule[..|schedule| - 1], a) + if schedule[|schedule| - 1] == a then 1 else 0
  }

  /** The dispatch thread is gone, or has something to wake on. */
  predicate Woken(s: State) {
    s.consumer.Gone? || s.queue != []
  }

  ghost predicate WokenIn(schedule: seq<Action>, from: nat) {
    exists j :: from <= j <= |schedule| && Run(schedule[..j]).Some? && Woken(Run(schedule[..j]).value)
  }

  lemma PutIsBySomebody(s: State)
    requires PutIsComing(s)
    ensures exists a :: PutBy(s, a) && Apply(s, a).Some?
  {
    assert PutBy(s, Produce) || PutBy(s, Stop);
  }

  lemma PutComesNearer(s: State, a: Action, b: Action)
    requires PutBy(s, a) && !Woken(s) && s.dispatcher > 0 && Apply(s, b).Some? && !Woken(Apply(s, b).value)
    ensures var s' := Apply(s, b).value;
      s'.dispatcher > 0 && PutBy(s', a) && StepsToPut(s', a) + (if b == a then 1 else 0) <= StepsToPut(s, a)
  {
  }

  ghost predicate PutIsNearer(schedule: seq<Action>, from: nat, a: Action)
    requires from <= |schedule| && Run(schedule[..from]).Some? && Run(schedule).Some?
  {
    var s, s' := Run(schedule[..from]).value, Run(schedule).value;
    && !Woken(s') && s'.dispatcher > 0 && PutBy(s, a) && PutBy(s', a)
    && StepsToPut(s', a) + OwnSteps(schedule[from..], a) <= StepsToPut(s, a)
  }

  lemma {:induction false} PutRunsDown(schedule: seq<Action>, from: nat, a: Action)
    requires from <= |schedule| && Run(schedule[..from]).Some? && Run(schedule).Some?
    requires PutBy(Run(schedule[..from]).value, a)
    ensures WokenIn(schedule, from) || PutIsNearer(schedule, from, a)
    decreases |schedule|
  {
    hide Apply, PutBy, Woken, StepsToPut;
    if |schedule| == from {
      assert schedule[..from] == schedule;
      if !Woken(Run(schedule).value) { HasDispatcher(schedule); }
    } else {
      var m := |schedule| - 1;
      var before := schedule[..m];
      assert before[..from] == schedule[..from] && schedule[from..][..m - from] == before[from..];
      PutRunsDown(before, from, a);
      if WokenIn(before, from) {
        var j :| from <= j <= m && Run(before[..j]).Some? && Woken(Run(before[..j]).value);
        assert before[..j] == schedule[..j];
      } else if !Woken(Run(schedule).value) {
        PutComesNearer(Run(before).value, a, schedule[m]);
      } else {
        assert schedule[..m + 1] == schedule;
      }
    }
  }

  lemma HasDispatcher(schedule: seq<Action>)
    requires Run(schedule).Some? && !Woken(Run(schedule).value)
    ensures Run(schedule).value.dispatcher > 0
  {
    hide Run, Ordered, DropsAreOldest, Conserved, Awake;
    RunInv(schedule);
  }

  /** However the other threads are interleaved: by the time the thread whose put is coming has made
      two steps, the dispatcher has had something to wake on, or is gone. */
  lemma PutComes(schedule: seq<Action>, from: nat, a: Action)
    requires from <= |schedule| && Run(schedule[..from]).Some? && Run(schedule).Some?
    requires PutBy(Run(schedule[..from]).value, a) && OwnSteps(schedule[from..], a) >= 2
    ensures WokenIn(schedule, from)
  {
    hide Run, Woken;
    PutRunsDown(schedule, from, a);
  }

  /** When `stop()` has come and gone, or `start()` has come to its end, every dispatcher is
      wakeable: none can block for ever. */
  lemma ReleaseCoversEverybody(schedule: seq<Action>)
    requires Run(schedule).Some?
    requires var s := Run(schedule).value;
             s.dispatcher > 0 && ((s.stopping && s.stopper.Away?) || s.producer.Ended?)
    ensures Run(schedule).value.wakeable
  {
    hide Run, Bounded, Ordered, DropsAreOldest, Conserved;
    RunInv(schedule);
  }

  /** And a wakeable dispatcher that has nothing on its way in is at most three of its own steps
      from leaving: finish the delivery in hand, wake, leave. */
  lemma WakeableLeaves(schedule: seq<Action>)
    requires Run(schedule).Some?
    requires var s := Run(schedule).value; s.wakeable && !s.consumer.Gone? && !PutIsComing(s)
    ensures LeavesWithin(Run(schedule).value, if Run(schedule).value.stopping then 3 else 4)
  {
    hide Run, Bounded, Ordered, DropsAreOldest, Conserved;
    RunInv(schedule);
    var s := Run(schedule).value;
    match s.consumer
    case Holding(item) =>
      if !Exits(s) {
        StepsToLeave(s.(consumer := Delivering, delivered := s.delivered + Ids(item)));
      }
    case _ => StepsToLeave(s);
  }

  /** The dispatch thread, left alone, is gone within `k` of its own steps. */
  predicate LeavesWithin(s: State, k: nat)
    decreases k
  {
    s.consumer.Gone? || (k > 0 && ConsumerStep(s).Some? && LeavesWithin(ConsumerStep(s).value, k - 1))
  }

  lemma StepsToLeave(s: State)
    requires (s.consumer.Waiting? || s.consumer.Delivering?) && s.queue != []
    requires s.stopping || forall i :: 0 <= i < |s.queue| ==> s.queue[i] == StopMark
    ensures LeavesWithin(s, 3)
  {
    if s.consumer.Delivering? {
      var s1 := ConsumerStep(s).value;
      var s2 := ConsumerStep(s1).value;
      assert LeavesWithin(s2, 1);
      assert LeavesWithin(s1, 2);
    } else {
      var s1 := ConsumerStep(s).value;
      assert LeavesWithin(s1, 1);
      assert LeavesWithin(s1, 2);
    }
  }
}
