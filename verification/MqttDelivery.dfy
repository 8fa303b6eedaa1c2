/** What the MQTT connector's inbox delivers. The three ways in which a payload is lost, each with
    what must have happened before it; that nothing else is lost; and how soon an arrival is queued
    and delivered. */
module MqttDelivery {
  import opened Options
  import opened Sequences
  import opened MqttDispatch
  import opened MqttInvariant

  // --- undisturbed schedules ------------------------------------------------------------------

  /** What winds a dispatcher down or kills it. */
  predicate Disturbs(a: Action) {
    a == CallStop || a == NetworkLoopReturns || a == DispatcherDies
  }

  predicate Undisturbed(schedule: seq<Action>) {
    forall i :: 0 <= i < |schedule| ==> !Disturbs(schedule[i])
  }

  ghost predicate Calm(s: State) {
    && !s.stopping && s.stopper.Away? && !s.producer.Ending? && !s.producer.Ended?
    && (forall i :: 0 <= i < |s.queue| ==> s.queue[i].Payload?)
    && (s.consumer.Gone? <==> s.dispatcher == 0) && (s.consumer.Holding? ==> s.consumer.item.Payload?)
    && s.refused == multiset{} && s.abandoned == multiset{} && (s.dispatcher == 0 ==> s.queue == [])
  }

  lemma CalmStep(s: State, a: Action)
    requires Calm(s) && Bounded(s) && !Disturbs(a) && Apply(s, a).Some?
    ensures Calm(Apply(s, a).value)
  {
    hide Ids, ReleaseStep, Payloads;
    assert multiset(Payloads([])) == multiset{} by { NothingQueued(); }
  }

  lemma NothingQueued()
    ensures Payloads([]) == []
  {
  }

  lemma {:induction false} StaysCalm(schedule: seq<Action>)
    requires Undisturbed(schedule) && Run(schedule).Some?
    ensures Calm(Run(schedule).value)
  {
    hide Calm, Apply, Disturbs, Bounded;
    if schedule == [] {
      assert Calm(Initial()) by { StartsCalm(); }
    } else {
      var m := |schedule| - 1;
      StaysCalm(schedule[..m]);
      RunBounded(schedule[..m]);
      assert !Disturbs(schedule[m]);
      CalmStep(Run(schedule[..m]).value, schedule[m]);
    }
  }

  lemma StartsCalm()
    ensures Calm(Initial())
  {
  }

  /** A payload is refused only after a `stop()`, and one is abandoned only after a `stop()`, after the
      network loop has returned, or after a dispatcher has died. */
  lemma LossNeedsACause(schedule: seq<Action>)
    requires Run(schedule).Some?
    ensures Run(schedule).value.refused != multiset{} ==> CallStop in schedule
    ensures Run(schedule).value.abandoned != multiset{} ==>
              CallStop in schedule || NetworkLoopReturns in schedule || DispatcherDies in schedule
  {
    hide Run, Calm;
    RefusedOnlyStopping(schedule);
    if Undisturbed(schedule) {
      StaysCalm(schedule);
      CalmKeeps(Run(schedule).value);
    }
  }

  lemma CalmKeeps(s: State)
    requires Calm(s)
    ensures s.refused == multiset{} && s.abandoned == multiset{}
  {
  }

  lemma {:induction false} StoppingMeansCalled(schedule: seq<Action>)
    requires Run(schedule).Some?
    ensures Run(schedule).value.stopping <==> CallStop in schedule
  {
    hide Apply;
    if schedule != [] {
      var m := |schedule| - 1;
      StoppingMeansCalled(schedule[..m]);
      assert schedule == schedule[..m] + [schedule[m]];
      StoppingStep(Run(schedule[..m]).value, schedule[m]);
    }
  }

  lemma StoppingStep(s: State, a: Action)
    requires Apply(s, a).Some?
    ensures Apply(s, a).value.stopping == (s.stopping || a == CallStop)
  {
    hide Ids, Payloads;
  }

  lemma {:induction false} RefusedOnlyStopping(schedule: seq<Action>)
    requires Run(schedule).Some?
    ensures Run(schedule).value.refused != multiset{} ==> CallStop in schedule
  {
    hide Apply;
    if schedule != [] {
      var m := |schedule| - 1;
      RefusedOnlyStopping(schedule[..m]);
      assert schedule == schedule[..m] + [schedule[m]];
      StoppingMeansCalled(schedule[..m]);
      RefusedGrows(Run(schedule[..m]).value, schedule[m]);
    }
  }

  lemma RefusedGrows(s: State, a: Action)
    requires Apply(s, a).Some?
    ensures s.refused <= Apply(s, a).value.refused
    ensures Apply(s, a).value.refused != s.refused ==> s.stopping && a == Produce && s.producer.Arrived?
  {
    hide Ids, Payloads;
  }

  /** The look of `_enqueue` at the stop flag: the payload is refused if and only if `stop()` has been
      called before the look. */
  lemma RefusedExactlyWhen(before: seq<Action>, x: nat)
    requires Run(before).Some? && Run(before).value.producer == Arrived(x)
    ensures Run(before + [Produce]).Some?
    ensures var s, s' := Run(before).value, Run(before + [Produce]).value;
      if CallStop in before then s' == s.(producer := Listening, refused := s.refused + multiset{x})
      else s' == s.(producer := Looking(x))
  {
    StoppingMeansCalled(before);
    assert (before + [Produce])[..|before|] == before;
  }

  // --- nothing else is lost ----------------------------------------------------------------------

  /** In an undisturbed run every arrival is delivered, in the dispatcher's hand, queued, on its way
      into the queue or dropped by the overflow, and only one of these. */
  lemma NothingElseIsLost(schedule: seq<Action>)
    requires Undisturbed(schedule) && Run(schedule).Some?
    ensures var s := Run(schedule).value;
      multiset(s.delivered) + multiset(InHand(s.consumer)) + multiset(Payloads(s.queue))
        + multiset(AboutToQueue(s.producer)) + s.dropped == Arrivals(s.next)
  {
    hide Run, Payloads, Arrivals, Calm;
    EveryArrivalIsAccountedFor(schedule);
    StaysCalm(schedule);
    CalmKeeps(Run(schedule).value);
  }

  lemma {:induction false} AllPayloads(q: seq<Item>)
    requires forall i :: 0 <= i < |q| ==> q[i].Payload?
    ensures |Payloads(q)| == |q| && forall i :: 0 <= i < |q| ==> Payloads(q)[i] == q[i].id
  {
    if q != [] {
      AllPayloads(q[1..]);
    }
  }

  /** Whatever is dropped, a full queue and one more arrival were there. */
  ghost predicate DroppedFromFull(s: State) {
    && (s.producer.Making? ==> |Chain(s)| > CAPACITY)
    && (s.dropped != multiset{} ==> |Chain(s)| >= CAPACITY)
  }

  lemma ChainLength(s: State)
    requires Calm(s)
    ensures |Chain(s)| == |s.delivered| + |InHand(s.consumer)| + |s.queue| + |AboutToQueue(s.producer)|
  {
    hide Payloads;
    AllPayloads(s.queue);
  }

  lemma DroppedStep(s: State, a: Action)
    requires Calm(s) && DroppedFromFull(s) && !Disturbs(a) && Apply(s, a).Some? && Bounded(s)
    ensures DroppedFromFull(Apply(s, a).value)
  {
    hide Chain, Calm, Payloads;
    var s' := Apply(s, a).value;
    CalmStep(s, a);
    ChainLength(s);
    ChainLength(s');
    LengthStep(s, a);
  }

  lemma LengthStep(s: State, a: Action)
    requires Calm(s) && !Disturbs(a) && Apply(s, a).Some? && Bounded(s)
    ensures var s' := Apply(s, a).value;
      var n := |s.delivered| + |InHand(s.consumer)| + |s.queue| + |AboutToQueue(s.producer)|;
      var n' := |s'.delivered| + |InHand(s'.consumer)| + |s'.queue| + |AboutToQueue(s'.producer)|;
      && (s'.dropped == s.dropped ==> n' >= n)
      && (s'.dropped != s.dropped ==> s.producer.Making? && n' == n - 1 && !s'.producer.Making?)
      && (s'.producer.Making? && !s.producer.Making? ==> |s.queue| == CAPACITY && n' > CAPACITY)
  {
    match a
    case Produce => LengthProduce(s);
    case Consume => LengthConsume(s);
    case _ => hide ProducerStep, ConsumerStep, Payloads, Ids;
  }

  lemma LengthProduce(s: State)
    requires Calm(s) && ProducerStep(s).Some? && Bounded(s)
    ensures var s' := ProducerStep(s).value;
      && s'.delivered == s.delivered && s'.consumer.Holding? == s.consumer.Holding?
      && (s.consumer.Holding? ==> s'.consumer == s.consumer)
      && (var n, n' := |s.queue| + |AboutToQueue(s.producer)|, |s'.queue| + |AboutToQueue(s'.producer)|;
          && (s'.dropped == s.dropped ==> n' >= n)
          && (s'.dropped != s.dropped ==> s.producer.Making? && n' == n - 1 && !s'.producer.Making?)
          && (s'.producer.Making? ==> |s.queue| == CAPACITY && n' > CAPACITY))
  {
    hide Payloads, ReleaseStep;
    match s.producer {
    case Making(x) => hide Calm, Bounded;
    case Replacing(x) => hide Calm;
    case Looking(x) => hide Ids;
    case _ => hide Calm, Ids;
    }
  }

  lemma LengthConsume(s: State)
    requires Calm(s) && ConsumerStep(s).Some?
    ensures var s' := ConsumerStep(s).value;
      && s'.producer == s.producer && s'.dropped == s.dropped
      && |s'.delivered| + |InHand(s'.consumer)| + |s'.queue| == |s.delivered| + |InHand(s.consumer)| + |s.queue|
  {
  }

  lemma {:induction false} DropsNeedAFullQueue(schedule: seq<Action>)
    requires Undisturbed(schedule) && Run(schedule).Some?
    ensures DroppedFromFull(Run(schedule).value)
  {
    hide Apply, DroppedFromFull, Disturbs, Inv, Calm, Bounded;
    if schedule == [] {
      assert DroppedFromFull(Initial()) by { NothingDropped(); }
    } else {
      var m := |schedule| - 1;
      DropsNeedAFullQueue(schedule[..m]);
      StaysCalm(schedule[..m]);
      RunBounded(schedule[..m]);
      assert !Disturbs(schedule[m]);
      DroppedStep(Run(schedule[..m]).value, schedule[m]);
    }
  }

  lemma NothingDropped()
    ensures DroppedFromFull(Initial())
  {
  }

  lemma RunBounded(schedule: seq<Action>)
    requires Run(schedule).Some?
    ensures Bounded(Run(schedule).value)
  {
    hide Run, Bounded, Ordered, DropsAreOldest, Conserved, Awake;
    RunInv(schedule);
  }

  /** Numbers below `n`, each above the ones before it, are no more than `n`. */
  lemma {:induction false} AtMost(s: seq<nat>, n: nat)
    requires Ascending(s) && forall i :: 0 <= i < |s| ==> s[i] < n
    ensures |s| <= n
  {
    if s != [] {
      AtMost(s[..|s| - 1], s[|s| - 1]);
    }
  }

  /** In an undisturbed run the overflow drops nothing unless `CAPACITY` other arrivals are delivered or
      kept; so of at most `CAPACITY` arrivals it drops none. */
  lemma FewAreNotDropped(schedule: seq<Action>)
    requires Undisturbed(schedule) && Run(schedule).Some?
    ensures var s := Run(schedule).value;
      && (s.dropped != multiset{} ==> |Chain(s)| >= CAPACITY)
      && (s.next <= CAPACITY ==> s.dropped == multiset{})
  {
    hide Run, Chain, Bounded, DropsAreOldest, Conserved, Awake;
    DropsNeedAFullQueue(schedule);
    RunInv(schedule);
    var s := Run(schedule).value;
    if s.next <= CAPACITY && s.dropped != multiset{} {
      NothingElseIsLost(schedule);
      AtMost(Chain(s), s.next);
      ChainAndDrops(schedule);
    }
  }

  lemma ChainAndDrops(schedule: seq<Action>)
    requires Undisturbed(schedule) && Run(schedule).Some?
    ensures var s := Run(schedule).value; |Chain(s)| + |s.dropped| == s.next
  {
    hide Run, Payloads, Arrivals, Ordered, DropsAreOldest, Bounded, Awake, Calm;
    RunInv(schedule);
    StaysCalm(schedule);
    var s := Run(schedule).value;
    CalmKeeps(s);
    hide Chain;
    assert multiset(Chain(s)) + s.dropped == Arrivals(s.next);
    ArrivalsCount(s.next);
  }

  lemma {:induction false} ArrivalsCount(n: nat)
    ensures |Arrivals(n)| == n
  {
    if n > 0 {
      ArrivalsCount(n - 1);
    }
  }

  // --- how soon ------------------------------------------------------------------------------------

  function Count(more: seq<Action>, a: Action): nat {
    if more == [] then 0 else Count(more[..|more| - 1], a) + if more[|more| - 1] == a then 1 else 0
  }

  /** How many of its own steps the dispatch thread is from delivering what is at place `p` of the
      queue: finish what it has, then for each payload take it, deliver it, finish. */
  function StepsToDeliver(consumer: Consumer, p: nat): nat {
    3 * p + 2 + if consumer.Holding? then 2 else if consumer.Delivering? then 1 else 0
  }

  /** Delivered, dropped, or to be delivered within `k` steps of the dispatch thread. */
  ghost predicate Due(s: State, id: nat, k: nat) {
    || id in s.delivered || id in s.dropped
    || (s.consumer == Holding(Payload(id)) && k > 0)
    || exists p :: 0 <= p < |s.queue| && s.queue[p] == Payload(id) && StepsToDeliver(s.consumer, p) <= k
  }

  function Less(k: nat, n: nat): nat {
    if k > n then k - n else 0
  }

  lemma DueConsume(s: State, id: nat, k: nat)
    requires Calm(s) && Due(s, id, k) && ConsumerStep(s).Some?
    ensures Due(ConsumerStep(s).value, id, Less(k, 1))
  {
    var s' := ConsumerStep(s).value;
    if id in s.delivered {
    } else if id in s.dropped {
    } else if s.consumer == Holding(Payload(id)) {
      assert s'.delivered[|s.delivered|] == id;
    } else {
      var p :| 0 <= p < |s.queue| && s.queue[p] == Payload(id) && StepsToDeliver(s.consumer, p) <= k;
      if s.consumer.Waiting? {
        if p > 0 {
          assert s'.queue[p - 1] == Payload(id);
        }
      } else {
        assert s'.queue[p] == Payload(id);
      }
    }
  }

  lemma DueProduce(s: State, id: nat, k: nat)
    requires Calm(s) && Bounded(s) && Due(s, id, k) && ProducerStep(s).Some?
    ensures Due(ProducerStep(s).value, id, k)
  {
    hide Payloads, ReleaseStep, Ids;
    if s.producer.Making? {
      DueMake(s, id, k);
    } else {
      QueueGrows(s);
    }
  }

  lemma QueueGrows(s: State)
    requires Calm(s) && Bounded(s) && ProducerStep(s).Some? && !s.producer.Making?
    ensures var s' := ProducerStep(s).value;
      && s.queue <= s'.queue && s'.delivered == s.delivered && s.dropped <= s'.dropped
      && (s.queue != [] || !s.consumer.Gone? ==> s'.consumer == s.consumer)
  {
    hide Payloads, ReleaseStep, Ids;
  }

  lemma DueMake(s: State, id: nat, k: nat)
    requires s.producer.Making? && Due(s, id, k)
    ensures Due(ProducerStep(s).value, id, k)
  {
    hide Payloads;
    var s' := ProducerStep(s).value;
    if id !in s.delivered && id !in s.dropped && !(s.consumer == Holding(Payload(id)) && k > 0) {
      var p :| 0 <= p < |s.queue| && s.queue[p] == Payload(id) && StepsToDeliver(s.consumer, p) <= k;
      if p > 0 {
        assert s'.queue[p - 1] == Payload(id);
      }
    }
  }

  lemma DueStep(s: State, a: Action, id: nat, k: nat)
    requires Calm(s) && Bounded(s) && Due(s, id, k) && !Disturbs(a) && Apply(s, a).Some?
    ensures Due(Apply(s, a).value, id, Less(k, if a == Consume then 1 else 0))
  {
    match a
    case Consume => DueConsume(s, id, k);
    case Produce => DueProduce(s, id, k);
    case _ => hide ProducerStep, ConsumerStep;
  }

  lemma {:induction false} DueRunsDown(schedule: seq<Action>, more: seq<Action>, id: nat, k: nat)
    requires Undisturbed(schedule + more) && Run(schedule).Some? && Run(schedule + more).Some?
    requires Due(Run(schedule).value, id, k)
    ensures Due(Run(schedule + more).value, id, Less(k, Count(more, Consume)))
  {
    hide Apply, Due, Calm, Bounded, Disturbs;
    if more == [] {
      assert schedule + more == schedule;
    } else {
      var m := |more| - 1;
      var all := schedule + more;
      assert all[..|schedule| + m] == schedule + more[..m] && all[|schedule| + m] == more[m];
      DueRunsDown(schedule, more[..m], id, k);
      StaysCalm(schedule + more[..m]);
      RunBounded(schedule + more[..m]);
      DueStep(Run(schedule + more[..m]).value, more[m], id, Less(k, Count(more[..m], Consume)));
    }
  }

  /** In the queue, or in the dispatcher's hand. */
  predicate Kept(s: State, id: nat) {
    Payload(id) in s.queue || s.consumer == Holding(Payload(id))
  }

  const STEPS_TO_DELIVER: nat := 3 * CAPACITY + 1

  lemma KeptIsDue(s: State, id: nat)
    requires |s.queue| <= CAPACITY && (Kept(s, id) || id in s.delivered || id in s.dropped)
    ensures Due(s, id, STEPS_TO_DELIVER)
  {
    if Payload(id) in s.queue {
      var p :| 0 <= p < |s.queue| && s.queue[p] == Payload(id);
      assert StepsToDeliver(s.consumer, p) <= STEPS_TO_DELIVER;
    }
  }

  /** However the threads are interleaved, a payload in an undisturbed inbox is delivered within
      `3 * CAPACITY + 1` steps of the dispatch thread, unless the overflow drops it before. */
  lemma DeliveredWithin(schedule: seq<Action>, more: seq<Action>, id: nat)
    requires Undisturbed(schedule + more) && Run(schedule).Some? && Run(schedule + more).Some?
    requires Kept(Run(schedule).value, id) && Count(more, Consume) >= STEPS_TO_DELIVER
    ensures var s := Run(schedule + more).value; id in s.delivered || id in s.dropped
  {
    hide Run, Kept, Calm;
    RunBounded(schedule);
    KeptIsDue(Run(schedule).value, id);
    DueRunsDown(schedule, more, id, STEPS_TO_DELIVER);
  }

  /** And as long as there is something to deliver, the dispatch thread has a step. */
  lemma DispatcherMoves(schedule: seq<Action>, id: nat)
    requires Undisturbed(schedule) && Run(schedule).Some? && Kept(Run(schedule).value, id)
    ensures Apply(Run(schedule).value, Consume).Some?
  {
    hide Run;
    StaysCalm(schedule);
  }

  function StepsToQueue(p: Producer): nat {
    match p
    case Arrived(_) => 5
    case Looking(_) => 4
    case Putting(_) => 3
    case Making(_) => 2
    case Replacing(_) => 1
    case _ => 0
  }

  /** In the inbox by now, or to be queued within `k` steps of the network thread. */
  ghost predicate Comes(s: State, x: nat, k: nat) {
    Due(s, x, STEPS_TO_DELIVER) || (AboutToQueue(s.producer) == [x] && StepsToQueue(s.producer) <= k)
  }

  lemma ComesStep(s: State, a: Action, x: nat, k: nat)
    requires Calm(s) && Bounded(s) && Comes(s, x, k) && !Disturbs(a) && Apply(s, a).Some?
    ensures Comes(Apply(s, a).value, x, Less(k, if a == Produce then 1 else 0))
  {
    hide Due, Calm;
    var s' := Apply(s, a).value;
    if Due(s, x, STEPS_TO_DELIVER) {
      DueStep(s, a, x, STEPS_TO_DELIVER);
      DueIsMonotone(s', x, Less(STEPS_TO_DELIVER, 1));
    } else if a == Produce {
      PutIsDue(s, x);
    }
  }

  lemma DueIsMonotone(s: State, x: nat, k: nat)
    requires k <= STEPS_TO_DELIVER
    ensures Due(s, x, k) ==> Due(s, x, STEPS_TO_DELIVER)
  {
  }

  lemma PutIsDue(s: State, x: nat)
    requires Calm(s) && Bounded(s) && AboutToQueue(s.producer) == [x] && ProducerStep(s).Some?
    ensures var s' := ProducerStep(s).value;
      || Due(s', x, STEPS_TO_DELIVER)
      || (AboutToQueue(s'.producer) == [x] && StepsToQueue(s'.producer) < StepsToQueue(s.producer))
  {
    hide Due, Payloads, Ids;
    var s' := ProducerStep(s).value;
    if s'.producer.Listening? {
      assert s'.queue[|s.queue|] == Payload(x);
      KeptIsDue(s', x);
    }
  }

  lemma {:induction false} ComesRunsDown(schedule: seq<Action>, more: seq<Action>, x: nat, k: nat)
    requires Undisturbed(schedule + more) && Run(schedule).Some? && Run(schedule + more).Some?
    requires Comes(Run(schedule).value, x, k)
    ensures Comes(Run(schedule + more).value, x, Less(k, Count(more, Produce)))
  {
    hide Apply, Comes, Calm, Bounded, Disturbs;
    if more == [] {
      assert schedule + more == schedule;
    } else {
      var m := |more| - 1;
      var all := schedule + more;
      assert all[..|schedule| + m] == schedule + more[..m] && all[|schedule| + m] == more[m];
      ComesRunsDown(schedule, more[..m], x, k);
      StaysCalm(schedule + more[..m]);
      RunBounded(schedule + more[..m]);
      ComesStep(Run(schedule + more[..m]).value, more[m], x, Less(k, Count(more[..m], Produce)));
    }
  }

  lemma {:induction false} InPayloads(q: seq<Item>, x: nat)
    requires x in Payloads(q)
    ensures Payload(x) in q
  {
    if x !in Ids(q[0]) {
      InPayloads(q[1..], x);
    }
  }

  lemma ArrivedComes(schedule: seq<Action>, x: nat)
    requires Undisturbed(schedule) && Run(schedule).Some? && x < Run(schedule).value.next
    ensures Comes(Run(schedule).value, x, 5)
  {
    hide Run, Payloads, Arrivals, Due, Bounded;
    NothingElseIsLost(schedule);
    var s := Run(schedule).value;
    ArrivalsOnce(s.next, x);
    assert x in s.delivered || x in InHand(s.consumer) || x in Payloads(s.queue) || x in AboutToQueue(s.producer)
        || x in s.dropped;
    RunBounded(schedule);
    BoundedQueueLength(s);
    if x in AboutToQueue(s.producer) {
    } else {
      if x in Payloads(s.queue) {
        InPayloads(s.queue, x);
      }
      KeptIsDue(s, x);
    }
  }

  lemma BoundedQueueLength(s: State)
    requires Bounded(s)
    ensures |s.queue| <= CAPACITY
  {
  }

  /** In an undisturbed run every arrival is delivered, unless the overflow drops it: five steps of the
      network thread and then `3 * CAPACITY + 1` of the dispatch thread are enough, in any
      interleaving. Of at most `CAPACITY` arrivals every one is delivered. */
  lemma EveryArrivalIsDelivered(schedule: seq<Action>, more: seq<Action>, yet: seq<Action>, x: nat)
    requires Undisturbed(schedule + more + yet)
    requires Run(schedule).Some? && Run(schedule + more).Some? && Run(schedule + more + yet).Some?
    requires x < Run(schedule).value.next
    requires Count(more, Produce) >= 5 && Count(yet, Consume) >= STEPS_TO_DELIVER
    ensures var s := Run(schedule + more + yet).value;
      (x in s.delivered || x in s.dropped) && (s.next <= CAPACITY ==> x in s.delivered)
  {
    hide Run, Disturbs, Count, Chain;
    assert forall i :: 0 <= i < |schedule + more| ==> (schedule + more)[i] == (schedule + more + yet)[i];
    assert forall i :: 0 <= i < |schedule| ==> schedule[i] == (schedule + more)[i];
    ArrivedComes(schedule, x);
    ComesRunsDown(schedule, more, x, 5);
    ComesLast(Run(schedule + more).value, x);
    DueRunsDown(schedule + more, yet, x, STEPS_TO_DELIVER);
    FewAreNotDropped(schedule + more + yet);
  }

  lemma ComesLast(s: State, x: nat)
    requires Comes(s, x, 0)
    ensures Due(s, x, STEPS_TO_DELIVER)
  {
  }

  /** How many of its own steps the network thread is from listening. */
  function StepsToListen(p: Producer): nat {
    if p.Quit? then 1 else StepsToQueue(p)
  }

  /** Without a stop the network thread always listens or comes nearer to it with each step, also after
      the network loop has raised: it never waits for the dispatch thread. */
  lemma NetworkThreadMoves(schedule: seq<Action>)
    requires Undisturbed(schedule) && Run(schedule).Some?
    ensures var s := Run(schedule).value;
      if s.producer.Listening?
      then Apply(s, Arrive).Some? && Apply(s, NetworkLoopRaises).Some? && Apply(s, NetworkLoopReturns).Some?
      else Apply(s, Produce).Some?
           && StepsToListen(Apply(s, Produce).value.producer) < StepsToListen(s.producer) <= 5
  {
    hide Run, Payloads, Ids;
    StaysCalm(schedule);
  }

  // --- with nobody in between ----------------------------------------------------------------------

  /** The network thread makes `k` steps. */
  function Produced(s: State, k: nat): Option<State>
    decreases k
  {
    if k == 0 then Some(s)
    else match ProducerStep(s)
      case None => None
      case Some(t) => Produced(t, k - 1)
  }

  /** An arrival that nobody interrupts does to the queue what `BoundedQueue.Enqueue` does: the newest
      gets in, and only a full queue pays, with its oldest. A dead dispatcher is replaced first. */
  lemma UninterruptedArrival(s: State)
    requires Bounded(s) && s.producer.Listening? && !s.stopping
    ensures Apply(s, Arrive).Some?
    ensures var t, x, alive := Apply(s, Arrive).value, Payload(s.next), s.dispatcher > 0 && !s.consumer.Gone?;
      && (alive && |s.queue| < CAPACITY ==> Produced(t, 3) == Some(s.(next := s.next + 1, queue := s.queue + [x])))
      && (alive && |s.queue| == CAPACITY ==>
            Produced(t, 5) == Some(s.(next := s.next + 1, queue := s.queue[1..] + [x],
                                      dropped := s.dropped + multiset(Ids(s.queue[0])))))
      && (!alive ==>
            Produced(t, 3) == Some(s.(next := s.next + 1, dispatcher := s.dispatcher + 1, queue := [x],
                                      consumer := Waiting, wakeable := false,
                                      abandoned := s.abandoned + multiset(Payloads(s.queue)))))
  {
    hide Payloads, Ids, Produced, ReleaseStep;
    var t1 := Apply(s, Arrive).value;
    var t2 := ProducerStep(t1).value;
    var t3 := ProducerStep(t2).value;
    var t4 := ProducerStep(t3).value;
    ThreeSteps(t1, t2, t3, t4);
    if s.dispatcher == 0 || s.consumer.Gone? {
      assert [] + [Payload(s.next)] == [Payload(s.next)];
    } else if |s.queue| == CAPACITY {
      var t5 := ProducerStep(t4).value;
      var t6 := ProducerStep(t5).value;
      OneStep(t5, t6, 0);
      OneStep(t4, t5, 1);
      OneStep(t3, t4, 2);
      OneStep(t2, t3, 3);
      OneStep(t1, t2, 4);
    }
  }

  lemma OneStep(s: State, t: State, k: nat)
    requires ProducerStep(s) == Some(t)
    ensures Produced(s, k + 1) == Produced(t, k) && Produced(t, 0) == Some(t)
  {
  }

  lemma ThreeSteps(t1: State, t2: State, t3: State, t4: State)
    requires ProducerStep(t1) == Some(t2) && ProducerStep(t2) == Some(t3) && ProducerStep(t3) == Some(t4)
    ensures Produced(t1, 3) == Some(t4)
  {
    hide ProducerStep;
    OneStep(t3, t4, 0);
    OneStep(t2, t3, 1);
    OneStep(t1, t2, 2);
  }

  /** The thread in `stop()` makes `k` steps. */
  function Stopped(s: State, k: nat): Option<State>
    decreases k
  {
    if k == 0 then Some(s)
    else match StopStep(s)
      case None => None
      case Some(t) => Stopped(t, k - 1)
  }

  lemma OneStop(s: State, t: State, k: nat)
    requires StopStep(s) == Some(t)
    ensures Stopped(s, k + 1) == Stopped(t, k)
  {
  }

  lemma {:induction false} UninterruptedDrain(s: State)
    requires |s.queue| <= CAPACITY && s.stopper == Stopping(Draining(s.dispatcher))
    ensures Stopped(s, |s.queue| + 2) ==
            Some(s.(stopper := Away, queue := [StopMark], abandoned := s.abandoned + multiset(Payloads(s.queue)),
                    wakeable := true))
    decreases |s.queue|
  {
    hide Stopped, Payloads, Ids;
    if s.queue == [] {
      DrainedStops(s);
    } else {
      var t := s.(queue := s.queue[1..], abandoned := s.abandoned + multiset(Ids(s.queue[0])));
      OneStop(s, t, |t.queue| + 2);
      UninterruptedDrain(t);
      QueueHead(s.queue);
      assert multiset(Payloads(s.queue)) == multiset(Ids(s.queue[0])) + multiset(Payloads(t.queue));
      assert t.abandoned + multiset(Payloads(t.queue)) == s.abandoned + multiset(Payloads(s.queue));
      assert |s.queue| + 2 == |t.queue| + 2 + 1;
    }
  }

  lemma DrainedStops(s: State)
    requires s.queue == [] && s.stopper == Stopping(Draining(s.dispatcher))
    ensures Stopped(s, 2) ==
            Some(s.(stopper := Away, queue := [StopMark], abandoned := s.abandoned + multiset(Payloads(s.queue)),
                    wakeable := true))
  {
    var t := s.(stopper := Stopping(Marking(s.dispatcher)));
    OneStop(s, t, 1);
    OneStop(t, StopStep(t).value, 0);
    assert t.queue + [StopMark] == [StopMark];
    assert s.abandoned + multiset(Payloads([])) == s.abandoned;
  }

  /** A release that nobody interrupts does to the queue what `BoundedQueue.Release` does: everything
      queued is abandoned, and the sentinel is alone in it. */
  lemma UninterruptedRelease(s: State)
    requires |s.queue| <= CAPACITY && s.stopper.Away? && s.dispatcher > 0
    ensures Apply(s, CallStop).Some?
    ensures Stopped(Apply(s, CallStop).value, |s.queue| + 3) ==
            Some(s.(stopping := true, queue := [StopMark], wakeable := true,
                    abandoned := s.abandoned + multiset(Payloads(s.queue))))
  {
    hide Payloads;
    var t := s.(stopping := true, stopper := Stopping(Snapshot));
    var u := t.(stopper := Stopping(Draining(s.dispatcher)));
    assert StopStep(t) == Some(u);
    UninterruptedDrain(u);
  }

  // --- what an overflow drops -----------------------------------------------------------------------

  /** How many items the dispatch thread takes out of the queue from place `from` of a schedule on. */
  function Takes(schedule: seq<Action>, from: nat): nat {
    if |schedule| <= from then 0
    else
      var m := |schedule| - 1;
      Takes(schedule[..m], from)
        + if schedule[m] == Consume && Run(schedule[..m]).Some? && Run(schedule[..m]).value.consumer.Waiting? then 1
          else 0
  }

  /** Between the failed put of `_enqueue` and the get of `_drop_oldest`. */
  lemma {:induction false} MeanwhileTaken(before: seq<Action>, between: seq<Action>, x: nat)
    requires Undisturbed(before + between) && Produce !in between
    requires Run(before).Some? && Run(before + between).Some? && Run(before).value.producer == Making(x)
    ensures var s, s' := Run(before).value, Run(before + between).value;
      var taken := Takes(before + between, |before|);
      s'.producer == Making(x) && s'.dropped == s.dropped && taken <= |s.queue| && s'.queue == s.queue[taken..]
  {
    hide Apply, Disturbs, Calm;
    if between == [] {
      assert before + between == before;
    } else {
      var m := |between| - 1;
      var all := before + between;
      assert all[..|before| + m] == before + between[..m] && all[|before| + m] == between[m];
      MeanwhileTaken(before, between[..m], x);
      StaysCalm(before + between[..m]);
      OneTaken(Run(before + between[..m]).value, between[m], x);
    }
  }

  lemma OneTaken(s: State, a: Action, x: nat)
    requires Calm(s) && s.producer == Making(x) && !Disturbs(a) && a != Produce && Apply(s, a).Some?
    ensures var s' := Apply(s, a).value;
      && s'.producer == Making(x) && s'.dropped == s.dropped
      && (if a == Consume && s.consumer.Waiting? then s.queue != [] && s'.queue == s.queue[1..]
          else s'.queue == s.queue)
  {
  }

  /** What one overflow costs. The put of `x` failed on a full queue, after which the dispatcher took
      `taken` items before `_drop_oldest` got to its get. Then the payload at the head is dropped, if
      there still is one, and the later payloads that are kept, `x` included, are `CAPACITY - taken`.
      So the dropped payload is superseded by a whole queue of later ones if and only if the dispatcher
      took nothing in between; the get does not ask whether there is room by now. */
  lemma OverflowCost(before: seq<Action>, between: seq<Action>, x: nat)
    requires Undisturbed(before + [Produce] + between) && Produce !in between
    requires Run(before).Some? && Run(before + [Produce] + between).Some? && Run(before + [Produce]).Some?
    requires Run(before).value.producer == Putting(x) && Run(before + [Produce]).value.producer == Making(x)
    ensures var taken := Takes(before + [Produce] + between, |before| + 1);
      var s := Run(before + [Produce] + between).value;
      && taken <= CAPACITY && |Payloads(s.queue)| == |s.queue| == CAPACITY - taken
      && ProducerStep(s).Some?
      && (var s' := ProducerStep(s).value;
          && Tail(s') == Payloads(s.queue)[if taken < CAPACITY then 1 else 0..] + [x]
          && (taken < CAPACITY ==>
                && s'.dropped == s.dropped + multiset{Payloads(s.queue)[0]}
                && (forall k :: k in Tail(s') ==> Payloads(s.queue)[0] < k) && |Tail(s')| == CAPACITY - taken)
          && (taken == CAPACITY ==> s'.dropped == s.dropped))
  {
    hide Run, Calm, Bounded, Conserved, Awake, Ordered, Payloads, Takes;
    var full := before + [Produce];
    FullAtThePut(before, x);
    MeanwhileTaken(full, between, x);
    var s := Run(full + between).value;
    StaysCalm(full + between);
    CalmQueue(s);
    DropStep(s, x);
    var s' := ProducerStep(s).value;
    assert Run(full + between + [Produce]) == Some(s') by { RunSnoc(full + between, Produce); }
    OverflowDropsOldest(full + between + [Produce]);
    if |s.queue| > 0 {
      assert Payloads(s.queue)[0] in s'.dropped;
    }
  }

  lemma RunSnoc(schedule: seq<Action>, a: Action)
    requires Run(schedule).Some?
    ensures Run(schedule + [a]) == Apply(Run(schedule).value, a)
  {
    assert (schedule + [a])[..|schedule|] == schedule;
  }

  lemma FullAtThePut(before: seq<Action>, x: nat)
    requires Run(before).Some? && Run(before).value.producer == Putting(x)
    requires Run(before + [Produce]).Some? && Run(before + [Produce]).value.producer == Making(x)
    ensures |Run(before + [Produce]).value.queue| == CAPACITY
  {
    hide Run, Bounded;
    RunSnoc(before, Produce);
    RunBounded(before);
    BoundedQueueLength(Run(before).value);
  }

  lemma CalmQueue(s: State)
    requires Calm(s)
    ensures |Payloads(s.queue)| == |s.queue|
    ensures forall i :: 0 <= i < |s.queue| ==> s.queue[i] == Payload(Payloads(s.queue)[i])
  {
    AllPayloads(s.queue);
  }

  lemma DropStep(s: State, x: nat)
    requires s.producer == Making(x) && |Payloads(s.queue)| == |s.queue|
    requires forall i :: 0 <= i < |s.queue| ==> s.queue[i] == Payload(Payloads(s.queue)[i])
    ensures var s' := ProducerStep(s).value;
      && Tail(s') == Payloads(s.queue)[if s.queue == [] then 0 else 1..] + [x]
      && (s.queue != [] ==> s'.dropped == s.dropped + multiset{Payloads(s.queue)[0]})
      && (s.queue == [] ==> s'.dropped == s.dropped)
  {
    if s.queue != [] {
      QueueHead(s.queue);
      assert Ids(s.queue[0]) == [Payloads(s.queue)[0]];
    }
  }

  // --- a payload dropped though there is room -------------------------------------------------------

  /** The payloads from `a` up to `b`. */
  function Stretch(a: nat, b: nat): seq<Item>
    requires a <= b
  {
    seq(b - a, i requires 0 <= i => Payload(a + i))
  }

  function Numbers(n: nat): seq<nat> {
    seq(n, i requires 0 <= i => i)
  }

  /** One dispatcher, `next` arrivals, of which the first `taken` are delivered. */
  function Inbox(taken: nat, queued: nat, next: nat, producer: Producer): State
    requires taken <= queued
  {
    State(1, Stretch(taken, queued), Waiting, producer, Away, false, false, next, Numbers(taken), multiset{},
          multiset{}, multiset{}, 0)
  }

  lemma Then(p: seq<Action>, s: State, a: Action, t: State)
    requires Run(p) == Some(s) && Apply(s, a) == Some(t)
    ensures Run(p + [a]) == Some(t)
  {
    RunSnoc(p, a);
  }

  lemma Extends(p: seq<Action>, a: Action)
    requires Undisturbed(p) && !Disturbs(a)
    ensures Undisturbed(p + [a])
  {
  }

  /** Payload `n` arrives and is queued. */
  lemma Arrives(p0: seq<Action>, n: nat) returns (p: seq<Action>)
    requires 0 < n < CAPACITY && Undisturbed(p0) && Run(p0) == Some(Inbox(0, n, n, Listening))
    ensures Undisturbed(p) && Run(p) == Some(Inbox(0, n + 1, n + 1, Listening))
  {
    hide Run;
    assert Stretch(0, n) + [Payload(n)] == Stretch(0, n + 1);
    Then(p0, Inbox(0, n, n, Listening), Arrive, Inbox(0, n, n + 1, Arrived(n)));
    p := p0 + [Arrive];
    Then(p, Inbox(0, n, n + 1, Arrived(n)), Produce, Inbox(0, n, n + 1, Looking(n)));
    p := p + [Produce];
    Then(p, Inbox(0, n, n + 1, Looking(n)), Produce, Inbox(0, n, n + 1, Putting(n)));
    p := p + [Produce];
    Then(p, Inbox(0, n, n + 1, Putting(n)), Produce, Inbox(0, n + 1, n + 1, Listening));
    p := p + [Produce];
  }

  lemma FirstArrives() returns (p: seq<Action>)
    ensures Undisturbed(p) && Run(p) == Some(Inbox(0, 1, 1, Listening))
  {
    hide Run;
    var s := Initial().(next := 1, producer := Arrived(0));
    assert Run([]) == Some(Initial()) by { RunsFromInitial(); }
    Then([], Initial(), Arrive, s);
    p := [] + [Arrive];
    Then(p, s, Produce, s.(producer := Looking(0)));
    p := p + [Produce];
    assert multiset{} + multiset(Payloads([])) == multiset{} && Stretch(0, 0) == [] && Numbers(0) == [];
    Then(p, s.(producer := Looking(0)), Produce, Inbox(0, 0, 1, Putting(0)));
    p := p + [Produce];
    assert [] + [Payload(0)] == Stretch(0, 1);
    Then(p, Inbox(0, 0, 1, Putting(0)), Produce, Inbox(0, 1, 1, Listening));
    p := p + [Produce];
  }

  lemma RunsFromInitial()
    ensures Run([]) == Some(Initial())
  {
  }

  /** The dispatcher takes and delivers payload `t`, while the network thread is in `_drop_oldest`. */
  lemma DeliversOne(p0: seq<Action>, t: nat) returns (p: seq<Action>)
    requires t < CAPACITY && Undisturbed(p0)
    requires Run(p0) == Some(Inbox(t, CAPACITY, CAPACITY + 1, Making(CAPACITY)))
    ensures Undisturbed(p) && Run(p) == Some(Inbox(t + 1, CAPACITY, CAPACITY + 1, Making(CAPACITY)))
  {
    hide Run;
    var s := Inbox(t, CAPACITY, CAPACITY + 1, Making(CAPACITY));
    var s1 := s.(consumer := Holding(Payload(t)), queue := Stretch(t + 1, CAPACITY));
    var s2 := s1.(consumer := Delivering, delivered := Numbers(t + 1));
    assert s.queue[0] == Payload(t) && s.queue[1..] == Stretch(t + 1, CAPACITY);
    assert Numbers(t) + [t] == Numbers(t + 1);
    Then(p0, s, Consume, s1);
    p := p0 + [Consume];
    Then(p, s1, Consume, s2);
    p := p + [Consume];
    Then(p, s2, Consume, Inbox(t + 1, CAPACITY, CAPACITY + 1, Making(CAPACITY)));
    p := p + [Consume];
  }

  lemma FillsUp() returns (p: seq<Action>)
    ensures Undisturbed(p) && Run(p) == Some(Inbox(0, CAPACITY, CAPACITY + 1, Making(CAPACITY)))
  {
    hide Run, Inbox, Undisturbed;
    p := FirstArrives();
    for n := 1 to CAPACITY
      invariant Undisturbed(p) && Run(p) == Some(Inbox(0, n, n, Listening))
    {
      p := Arrives(p, n);
    }
    p := Overflows(p);
  }

  lemma Overflows(p0: seq<Action>) returns (p: seq<Action>)
    requires Undisturbed(p0) && Run(p0) == Some(Inbox(0, CAPACITY, CAPACITY, Listening))
    ensures Undisturbed(p) && Run(p) == Some(Inbox(0, CAPACITY, CAPACITY + 1, Making(CAPACITY)))
  {
    hide Run;
    var x := CAPACITY;
    Then(p0, Inbox(0, x, x, Listening), Arrive, Inbox(0, x, x + 1, Arrived(x)));
    p := p0 + [Arrive];
    Then(p, Inbox(0, x, x + 1, Arrived(x)), Produce, Inbox(0, x, x + 1, Looking(x)));
    p := p + [Produce];
    Then(p, Inbox(0, x, x + 1, Looking(x)), Produce, Inbox(0, x, x + 1, Putting(x)));
    p := p + [Produce];
    Then(p, Inbox(0, x, x + 1, Putting(x)), Produce, Inbox(0, x, x + 1, Making(x)));
    p := p + [Produce];
  }

  /** An undisturbed run in which the dispatcher empties all but one place of a full queue just before
      `_drop_oldest` gets. The last of the `CAPACITY` queued payloads is dropped, with only one later
      arrival and `CAPACITY - 1` free places. */
  lemma DroppedThoughThereIsRoom()
    ensures exists p ::
      && Undisturbed(p) && Run(p).Some?
      && var s := Run(p).value;
         && s.next == CAPACITY + 1 && s.delivered == Numbers(CAPACITY - 1)
         && s.queue == [] && s.dropped == multiset{CAPACITY - 1}
  {
    hide Run, Inbox, Undisturbed;
    var p := FillsUp();
    for t := 0 to CAPACITY - 1
      invariant Undisturbed(p) && Run(p) == Some(Inbox(t, CAPACITY, CAPACITY + 1, Making(CAPACITY)))
    {
      p := DeliversOne(p, t);
    }
    p := DropsTheLast(p);
  }

  lemma DropsTheLast(p0: seq<Action>) returns (p: seq<Action>)
    requires Undisturbed(p0) && Run(p0) == Some(Inbox(CAPACITY - 1, CAPACITY, CAPACITY + 1, Making(CAPACITY)))
    ensures Undisturbed(p) && Run(p).Some?
    ensures var s := Run(p).value;
      && s.next == CAPACITY + 1 && s.delivered == Numbers(CAPACITY - 1)
      && s.queue == [] && s.dropped == multiset{CAPACITY - 1}
  {
    hide Run;
    var s := Inbox(CAPACITY - 1, CAPACITY, CAPACITY + 1, Making(CAPACITY));
    var t := s.(producer := Replacing(CAPACITY), queue := [], dropped := multiset{CAPACITY - 1});
    assert s.queue[0] == Payload(CAPACITY - 1) && s.queue[1..] == [];
    assert multiset{} + multiset([CAPACITY - 1]) == multiset{CAPACITY - 1};
    Then(p0, s, Produce, t);
    p := p0 + [Produce];
  }
}
