/** What an algorithm sees and how its decisions are stamped, in every run with no late step, one
    that is stopped included. */
module LockstepStamps {
  import opened Options
  import opened Clock
  import opened Backtest
  import opened Lockstep
  import opened LockstepInvariant
  import opened Sequences

  // --- two more things every step keeps ---------------------------------------------------------

  /** A worker's log and the steps it took go together, in every run. */
  ghost predicate Paired(w: Worker) {
    && Mains(w.log) + (if w.pc.Running? then 1 else 0) == |w.processed|
    && InMain(w.log) == w.pc.Running?
  }

  ghost predicate AllPaired(s: State) {
    forall n :: n in s.workers ==> Paired(s.workers[n]) && (!s.main.Started? ==> s.workers[n].log == [])
  }

  /** While somebody is pending, the devices are those of the published step, and so is the step
      time until the clock is reset. */
  ghost predicate Frozen(c: Config, s: State)
    requires c.Valid()
  {
    NonePending(s.clock) || Held(c, s.devices, s.clock)
  }

  ghost predicate Held(c: Config, devices: seq<Entry>, clock: ClockState)
    requires c.Valid()
  {
    && devices == Delivered(c, clock.generation)
    && TimeOf(c, clock.generation).Some?
    && clock.stepTime == if clock.simulated then TimeOf(c, clock.generation) else None
  }

  ghost predicate Steady(c: Config, s: State)
    requires c.Valid()
  {
    AllPaired(s) && (s.late == 0 ==> Frozen(c, s))
  }

  lemma PairedGrows(w: Worker, e: Event)
    ensures Mains(w.log + [e]) == Mains(w.log) + if e.Ended? then 1 else 0
    ensures InMain(w.log + [e]) == !e.Ended?
  {
    LogGrows(w.log, e);
  }

  lemma WorkKeepsPaired(c: Config, s: State, n: Name)
    requires WorkStep(c, s, n).Some? && Paired(s.workers[n])
    ensures Paired(WorkStep(c, s, n).value.workers[n])
  {
    hide Mains, InMain;
    var w := s.workers[n];
    match w.pc
    case Polling => PairedGrows(w, Began);
    case Running(_) =>
      forall e: Event {
        PairedGrows(w, e);
      }
    case _ =>
  }

  lemma WorkSteady(c: Config, s: State, n: Name)
    requires c.Valid() && Inv(c, s) && Steady(c, s) && WorkStep(c, s, n).Some?
    ensures Steady(c, WorkStep(c, s, n).value)
  {
    hide Inv, Held, Paired, WorkStep;
    var s' := WorkStep(c, s, n).value;
    WorkStepFacts(c, s, n);
    WorkKeepsPaired(c, s, n);
    assert forall m :: m in s'.workers && m != n ==> SameFor(s, s', m);
    if NonePending(s.clock) {
      WorkKeepsNone(c, s, n);
    } else {
      SameHeld(c, s.devices, s.clock, s'.clock);
    }
  }

  lemma SameHeld(c: Config, devices: seq<Entry>, clock: ClockState, clock': ClockState)
    requires c.Valid() && clock'.(acked := map[]) == clock.(acked := map[])
    ensures Held(c, devices, clock) == Held(c, devices, clock')
  {
    assert clock'.generation == clock.generation && clock'.simulated == clock.simulated
        && clock'.stepTime == clock.stepTime;
  }

  lemma WorkStepFacts(c: Config, s: State, n: Name)
    requires c.Valid() && Inv(c, s) && WorkStep(c, s, n).Some?
    ensures n in s.workers && s.main.Started?
    ensures var s' := WorkStep(c, s, n).value;
      && s'.workers.Keys == s.workers.Keys
      && s'.(workers := s.workers, clock := s.clock) == s
      && s'.clock.(acked := map[]) == s.clock.(acked := map[])
      && (forall m :: m in s.workers && m != n ==> SameFor(s, s', m))
  {
    hide ReplayInv, StoredInv, WaitInv, WorkerExact, WorkerFollows, WorkStep;
    WorkStepWho(c, s, n);
    SafeParticipates(s.workers[n], s.clock, n);
    WorkShares(c, s, n);
    IdleWaits(c, s, n);
  }

  lemma IdleWaits(c: Config, s: State, n: Name)
    requires n in s.workers && WorkStep(c, s, n).Some?
    ensures s.workers[n].pc.Idle? ==> s.main.Started?
  {
  }

  lemma WorkKeepsNone(c: Config, s: State, n: Name)
    requires c.Valid() && Inv(c, s) && WorkStep(c, s, n).Some? && NonePending(s.clock)
    ensures NonePending(WorkStep(c, s, n).value.clock)
  {
    hide ReplayInv, StoredInv, WaitInv, WorkerExact, WorkerFollows, MainInv;
    WorkStepWho(c, s, n);
    assert WorkerSafe(s.workers[n], s.clock.Mark(n), s.clock.generation, s.clock.simulated);
    NoneStaysNone(c, s, n);
  }

  lemma NoneStaysNone(c: Config, s: State, n: Name)
    requires WorkStep(c, s, n).Some? && NonePending(s.clock)
    requires WorkerSafe(s.workers[n], s.clock.Mark(n), s.clock.generation, s.clock.simulated)
    ensures NonePending(WorkStep(c, s, n).value.clock)
  {
    hide WorkerNext;
  }

  lemma ReplaySteady(c: Config, s: State)
    requires c.Valid() && Inv(c, s) && Steady(c, s) && s.main.Started? && ReplayStep(c, s).Some?
    ensures Steady(c, ReplayStep(c, s).value)
  {
    hide Paired, Inv, ReplayStep, Held;
    ReplayStepShares(c, s);
    var s' := ReplayStep(c, s).value;
    SameMain(c, s);
    if s.late == 0 {
      ReplayFrozen(c, s);
    }
  }

  lemma SameMain(c: Config, s: State)
    requires ReplayStep(c, s).Some?
    ensures ReplayStep(c, s).value.main == s.main
  {
  }

  lemma ReplayFrozen(c: Config, s: State)
    requires c.Valid() && Inv(c, s) && Frozen(c, s) && s.late == 0 && ReplayStep(c, s).Some?
    ensures Frozen(c, ReplayStep(c, s).value)
  {
    hide MainInv, StoredInv, AllSafe, AllExact, AllFollow, TimeOf, Delivered, NextStart, GroupEnd, InGroup;
    ReplayStepOwn(c, s);
    var s' := ReplayStep(c, s).value;
    if s'.replay.Await? {
      TimeOfIsSome(c, s'.clock.generation);
      assert Held(c, s'.devices, s'.clock);
    } else {
      assert s'.clock.acked == s.clock.acked && s'.clock.generation == s.clock.generation;
    }
  }

  lemma TimeOfIsSome(c: Config, g: nat)
    requires c.Valid() && g > 0 && NextStart(c, g - 1).Some?
    ensures TimeOf(c, g).Some?
  {
  }

  lemma MainSteady(c: Config, s: State, a: Action)
    requires c.Valid() && Inv(c, s) && Steady(c, s) && MainStep(c, s, a).Some?
    ensures Steady(c, MainStep(c, s, a).value)
  {
    hide ReplayInv, StoredInv, AllSafe, AllExact, AllFollow, Held, MainStep, Mains, InMain;
    var s' := MainStep(c, s, a).value;
    MainStepWait(c, s, a);
    BeforeStart(c, s, a);
    assert NonePending(s'.clock);
    forall n | n in s'.workers ensures Paired(s'.workers[n]) && s'.workers[n].log == [] {
      MainStepWorkers(c, s, a, n);
      assert Mains([]) == 0 && !InMain([]) by { NothingLogged(); }
    }
  }

  lemma NothingLogged()
    ensures Mains([]) == 0 && !InMain([])
  {
  }

  lemma BeforeStart(c: Config, s: State, a: Action)
    requires MainStep(c, s, a).Some?
    ensures !s.main.Started?
  {
  }

  lemma WallSteady(c: Config, s: State, n: Name, how: Ending)
    requires c.Valid() && Steady(c, s) && WallStep(s, n, how).Some?
    ensures Steady(c, WallStep(s, n, how).value)
  {
    hide Held, Mains, InMain;
  }

  /** Every action keeps it. */
  lemma ApplySteady(c: Config, s: State, a: Action)
    requires c.Valid() && Inv(c, s) && Steady(c, s) && Apply(c, s, a).Some?
    ensures Steady(c, Apply(c, s, a).value)
  {
    hide Inv, Held, Paired, ReplayStep, WorkStep, WallStep, MainStep;
    match a
    case Replay => ReplaySteady(c, s);
    case Work(n) => WorkSteady(c, s, n);
    case WallEnds(n, how) => WallSteady(c, s, n, how);
    case ReplayTimesOut =>
    case StopReplay =>
    case StopSupervisor(_) =>
    case StopAlgorithm(_) =>
    case _ => MainSteady(c, s, a);
  }

  lemma {:induction false} RunSteady(c: Config, schedule: seq<Action>)
    requires c.Valid() && Run(c, schedule).Some?
    ensures Inv(c, Run(c, schedule).value) && Steady(c, Run(c, schedule).value)
  {
    hide Inv, Steady, Apply;
    RunInv(c, schedule);
    if schedule == [] {
      InitialSteady(c);
    } else {
      var before := schedule[..|schedule| - 1];
      RunSteady(c, before);
      ApplySteady(c, Run(c, before).value, schedule[|schedule| - 1]);
    }
  }

  lemma InitialSteady(c: Config)
    requires c.Valid()
    ensures Steady(c, Initial())
  {
  }

  // --- where an event comes from ------------------------------------------------------------------

  /** The time an event carries, if it is a decision or a look at the clock. */
  function Stamp(e: Event): Option<Option<Moment>> {
    match e
    case Decided(_, stamp) => Some(stamp)
    case ReadClock(time) => Some(time)
    case _ => None
  }

  /** An event of a `main()` that looks shows what is shared at that moment. */
  ghost predicate Looked(s: State, w: Worker, e: Event) {
    (e.Saw? || Stamp(e).Some?) ==>
      && w.pc.Running?
      && (e.Saw? ==> e.devices == s.devices)
      && (Stamp(e).Some? ==> Stamp(e) == Some(s.clock.stepTime))
  }

  /** One action adds at most one event to a log, and only an own step of the thread adds any. */
  ghost predicate Adds(s: State, n: Name, s': State)
    requires n in s.workers
  {
    && n in s'.workers && s.workers[n].log <= s'.workers[n].log
    && |s'.workers[n].log| <= |s.workers[n].log| + 1
    && (|s'.workers[n].log| == |s.workers[n].log| + 1 ==>
          Looked(s, s.workers[n], s'.workers[n].log[|s.workers[n].log|]))
  }

  lemma WorkAdds(c: Config, s: State, m: Name, n: Name)
    requires WorkStep(c, s, m).Some? && n in s.workers
    ensures Adds(s, n, WorkStep(c, s, m).value)
  {
  }

  lemma ApplyAdds(c: Config, s: State, a: Action, n: Name)
    requires c.Valid() && Inv(c, s) && s.main.Started? && n in s.workers && Apply(c, s, a).Some?
    ensures Adds(s, n, Apply(c, s, a).value)
  {
    hide Inv, WorkStep;
    match a
    case Work(m) => WorkAdds(c, s, m, n);
    case _ =>
  }

  lemma OnceStarted(c: Config, s: State, a: Action)
    requires Apply(c, s, a).Some?
    ensures s.late <= Apply(c, s, a).value.late
    ensures s.replayStop ==> Apply(c, s, a).value.replayStop
    ensures s.main.Started? ==>
              Apply(c, s, a).value.main.Started? && Apply(c, s, a).value.workers.Keys == s.workers.Keys
  {
    hide WorkerNext, WorkerClock;
  }

  /** A clock that has been reset stays so. */
  lemma ResetIsKept(c: Config, s: State, a: Action)
    requires c.Valid() && Inv(c, s) && Apply(c, s, a).Some? && !s.clock.simulated
    ensures !Apply(c, s, a).value.clock.simulated
  {
    hide StoredInv, AllSafe, AllExact, AllFollow, WaitInv, MainInv, WorkerNext;
  }

  // --- what a running main() can see ------------------------------------------------------------

  /** A running `main()` sees its own step's devices, and its own step's time unless the clock has
      been reset, which with nothing late only a stop does under it. */
  lemma RunsOnItsStep(c: Config, s: State, n: Name)
    requires c.Valid() && Inv(c, s) && Steady(c, s) && s.late == 0 && n in s.workers && s.workers[n].pc.Running?
    ensures var g := Mains(s.workers[n].log) + 1;
      && s.devices == Delivered(c, g) && TimeOf(c, g).Some?
      && s.clock.stepTime == (if s.clock.simulated then TimeOf(c, g) else None)
    ensures !s.clock.simulated ==> s.replayStop
  {
    hide MainInv, StoredInv, AllFollow, ReplayInv, WaitInv, Mains, InMain, Ascending, Delivered, TimeOf;
    assert WorkerSafe(s.workers[n], s.clock.Mark(n), s.clock.generation, s.clock.simulated);
    assert WorkerExact(s.workers[n], s.clock.Mark(n), s.clock.generation);
    assert Paired(s.workers[n]);
    assert n in s.clock.acked && s.clock.acked[n] < s.clock.generation;
    assert s.clock.generation == Mains(s.workers[n].log) + 1;
    assert Held(c, s.devices, s.clock);
    if !s.clock.simulated {
      ResetWhilePending(c, s);
    }
  }

  lemma ResetWhilePending(c: Config, s: State)
    requires c.Valid() && ReplayInv(c, s) && WaitInv(s) && !s.clock.simulated && !NonePending(s.clock)
    ensures s.replayStop
  {
  }

  // --- the whole log -------------------------------------------------------------------------------

  /** After `before` the clock had been reset and event `k` of `n`'s log was still to come. */
  ghost predicate ResetAt(c: Config, before: seq<Action>, n: Name, k: nat) {
    Run(c, before).Some? &&
    var s := Run(c, before).value;
    n in s.workers && |s.workers[n].log| <= k && !s.clock.simulated
  }

  /** The clock had been reset before event `k` of `n`'s log. */
  ghost predicate ResetBefore(c: Config, schedule: seq<Action>, n: Name, k: nat) {
    exists j :: 0 <= j < |schedule| && ResetAt(c, schedule[..j], n, k)
  }

  /** Event `k` of a log, its timestep, and whether the clock had been reset before it. */
  ghost predicate Right(c: Config, log: seq<Event>, k: nat, reset: bool, stopped: bool)
    requires c.Valid() && k < |log|
  {
    var g := Mains(log[..k]) + 1;
    && (log[k].Saw? ==> log[k].devices == Delivered(c, g))
    && (Stamp(log[k]).Some? ==>
          && TimeOf(c, g).Some?
          && Stamp(log[k]) == Some(if reset then None else TimeOf(c, g))
          && (reset ==> stopped))
  }

  lemma ResetEarlier(c: Config, schedule: seq<Action>, n: Name, k: nat)
    requires schedule != [] && Run(c, schedule).Some?
    ensures var before := schedule[..|schedule| - 1];
      ResetBefore(c, schedule, n, k) <==> ResetBefore(c, before, n, k) || ResetAt(c, before, n, k)
  {
    hide ResetAt;
    var m := |schedule| - 1;
    var before := schedule[..m];
    assert forall j :: 0 <= j < m ==> schedule[..j] == before[..j];
    if ResetAt(c, before, n, k) {
      assert ResetAt(c, schedule[..m], n, k);
    }
    if ResetBefore(c, schedule, n, k) {
      var j :| 0 <= j < |schedule| && ResetAt(c, schedule[..j], n, k);
      assert j < m ==> ResetAt(c, before[..j], n, k);
    }
    if ResetBefore(c, before, n, k) {
      var j :| 0 <= j < |before| && ResetAt(c, before[..j], n, k);
      assert ResetAt(c, schedule[..j], n, k);
    }
  }

  /** A reset is for ever. */
  lemma {:induction false} ResetLasts(c: Config, schedule: seq<Action>, j: nat, n: Name, k: nat)
    requires c.Valid() && Run(c, schedule).Some? && j <= |schedule| && ResetAt(c, schedule[..j], n, k)
    ensures !Run(c, schedule).value.clock.simulated
  {
    hide Inv, Apply;
    if j < |schedule| {
      var before := schedule[..|schedule| - 1];
      assert before[..j] == schedule[..j];
      RunInv(c, before);
      ResetLasts(c, before, j, n, k);
      ResetIsKept(c, Run(c, before).value, schedule[|schedule| - 1]);
    } else {
      assert schedule[..j] == schedule;
    }
  }

  /** The event a step adds. */
  lemma NewIsRight(c: Config, s: State, n: Name, log: seq<Event>, stopped: bool)
    requires c.Valid() && Inv(c, s) && Steady(c, s) && s.late == 0 && n in s.workers
    requires |log| == |s.workers[n].log| + 1 && s.workers[n].log <= log
    requires Looked(s, s.workers[n], log[|log| - 1]) && (s.replayStop ==> stopped)
    ensures Right(c, log, |log| - 1, !s.clock.simulated, stopped)
  {
    hide Inv, Steady, Mains, Delivered, TimeOf;
    assert log[..|log| - 1] == s.workers[n].log;
    if s.workers[n].pc.Running? {
      RunsOnItsStep(c, s, n);
    }
  }

  lemma OldStaysRight(c: Config, log: seq<Event>, log': seq<Event>, k: nat, reset: bool, stopped: bool, stopped': bool)
    requires c.Valid() && k < |log| && log <= log' && Right(c, log, k, reset, stopped) && (stopped ==> stopped')
    ensures Right(c, log', k, reset, stopped')
  {
    hide Mains, Delivered, TimeOf;
    assert log'[..k] == log[..k];
  }

  lemma {:induction false} LogIsRight(c: Config, schedule: seq<Action>, n: Name, k: nat)
    requires c.Valid() && Run(c, schedule).Some?
    requires var s := Run(c, schedule).value; s.late == 0 && n in s.workers && k < |s.workers[n].log|
    ensures var s := Run(c, schedule).value;
            Right(c, s.workers[n].log, k, ResetBefore(c, schedule, n, k), s.replayStop)
  {
    hide Inv, Steady, Apply, Right, Looked, ResetBefore;
    if schedule != [] {
      var before, a := schedule[..|schedule| - 1], schedule[|schedule| - 1];
      var s, s' := Run(c, before).value, Run(c, schedule).value;
      RunSteady(c, before);
      RunSteady(c, schedule);
      HasStarted(c, s, a, n);
      OnceStarted(c, s, a);
      ApplyAdds(c, s, a, n);
      ResetEarlier(c, schedule, n, k);
      if k < |s.workers[n].log| {
        LogIsRight(c, before, n, k);
        OldStaysRight(c, s.workers[n].log, s'.workers[n].log, k, ResetBefore(c, before, n, k), s.replayStop,
                      s'.replayStop);
      } else {
        NewIsRight(c, s, n, s'.workers[n].log, s'.replayStop);
        ResetNow(c, before, n, k);
      }
    }
  }

  lemma HasStarted(c: Config, s: State, a: Action, n: Name)
    requires c.Valid() && Inv(c, s) && Steady(c, s) && Apply(c, s, a).Some? && Steady(c, Apply(c, s, a).value)
    requires n in Apply(c, s, a).value.workers && Apply(c, s, a).value.workers[n].log != []
    ensures s.main.Started? && n in s.workers
  {
    hide Inv, Paired, Frozen, WorkStep, ReplayStep;
    OnceStarted(c, s, a);
    match a
    case Work(m) => WorkStepFacts(c, s, m);
    case _ =>
  }

  /** For the event that comes next, the clock has been reset if it is reset now. */
  lemma ResetNow(c: Config, before: seq<Action>, n: Name, k: nat)
    requires c.Valid() && Run(c, before).Some? && n in Run(c, before).value.workers
    requires |Run(c, before).value.workers[n].log| == k
    ensures (ResetBefore(c, before, n, k) || ResetAt(c, before, n, k)) <==> !Run(c, before).value.clock.simulated
  {
    if ResetBefore(c, before, n, k) {
      var j :| 0 <= j < |before| && ResetAt(c, before[..j], n, k);
      ResetLasts(c, before, j, n, k);
    }
  }

  // --- the promise ------------------------------------------------------------------------------

  /** In every run with no late step, stopped or not: every look at the devices sees its own step,
      whole and nothing beyond it; every decision, and every look at the clock, carries its own
      step's time, or none at all, and none exactly when the clock had been reset before it, which
      takes a stop of the replay. */
  lemma EveryDecisionIsStamped(c: Config, schedule: seq<Action>, n: Name, k: nat)
    requires c.Valid() && Run(c, schedule).Some?
    requires var s := Run(c, schedule).value; s.late == 0 && n in s.workers && k < |s.workers[n].log|
    ensures var s := Run(c, schedule).value;
            var log := s.workers[n].log;
            var g := Mains(log[..k]) + 1;
      && (log[k].Saw? ==> log[k].devices == Delivered(c, g))
      && (Stamp(log[k]).Some? ==>
            && TimeOf(c, g).Some?
            && (Stamp(log[k]).value == TimeOf(c, g) || Stamp(log[k]).value == None)
            && (Stamp(log[k]).value != TimeOf(c, g) <==> ResetBefore(c, schedule, n, k))
            && (Stamp(log[k]).value != TimeOf(c, g) ==> s.replayStop))
  {
    hide Run, ResetBefore, Mains, Delivered, TimeOf;
    LogIsRight(c, schedule, n, k);
  }

  // --- a stopped run ---------------------------------------------------------------------------

  /** One entry, one algorithm that decides all the time. */
  function OneStep(): (c: Config)
    ensures c.Valid()
  {
    Config([Entry(5, "meter", None, "1")], false, false, ["a"], true, 5, (n, log) => Decide("on"),
           (before, e) => Rejected)
  }

  /** The replay has published its only step and waits; the algorithm is in `main()`. */
  function Waiting(): State {
    State(ClockState(true, Some(5), Some(5), 1, map["a" := 0]), Started,
          map["a" := Worker(Running(Step(1, 5)), true, false, 0, [Began], [1], 0)],
          Await(0), OneStep().entries, [], 0, false, {}, {})
  }

  /** The replay has been stopped, has left its wait and has reset the clock. */
  function StoppedUnderIt(): State {
    Waiting().(replayStop := true, replay := Done, clock := Reset(Waiting().clock))
  }

  /** Everything is started; the algorithm is about to poll. */
  function Polled(): State {
    State(ClockState(true, None, None, 0, map["a" := 0]), Started,
          map["a" := Worker(Polling, false, false, 0, [], [], 0)], Head, [], [], 0, false, {}, {})
  }

  lemma Then(schedule: seq<Action>, s: State, a: Action, s': State)
    requires Run(OneStep(), schedule) == Some(s) && Apply(OneStep(), s, a) == Some(s')
    ensures Run(OneStep(), schedule + [a]) == Some(s')
  {
    hide Apply;
    assert (schedule + [a])[..|schedule|] == schedule;
  }

  /** A step of the only algorithm. */
  lemma Works(schedule: seq<Action>, s: State, w: Worker, s': State, w': Worker)
    requires Run(OneStep(), schedule) == Some(s) && s.workers == map["a" := w]
    requires WorkerNext(OneStep(), s, "a", w) == Some(w')
    requires s' == s.(workers := map["a" := w'], clock := WorkerClock(s, "a", w.pc))
    ensures Run(OneStep(), schedule + [Work("a")]) == Some(s')
  {
    hide Run, WorkerNext, WorkerClock;
    assert s.workers["a" := w'] == map["a" := w'];
    Then(schedule, s, Work("a"), s');
  }

  lemma ReachesPolled() returns (p: seq<Action>)
    ensures Run(OneStep(), p) == Some(Polled())
  {
    hide Run;
    var idle := Worker(Idle, false, false, 0, [], [], 0);
    var clock := ClockState(true, None, None, 0, map["a" := 0]);
    var s := State(clock, Started, map["a" := idle], Head, [], [], 0, false, {}, {});
    p := [];
    StartsEmpty();
    assert Initial().clock.acked.Keys == {};
    Then(p, Initial(), BuildNext, Initial().(main := Constructing(0, {})));
    p := p + [BuildNext];
    Then(p, Initial().(main := Constructing(0, {})), ConstructorJoins,
         Initial().(main := Constructed(0, {}), clock := clock));
    p := p + [ConstructorJoins];
    Then(p, Initial().(main := Constructed(0, {}), clock := clock), ConstructorReturns, s.(main := Building(1)));
    p := p + [ConstructorReturns];
    Then(p, s.(main := Building(1)), StartAll, s);
    p := p + [StartAll];
    p := WalksToPolled(p, s, idle);
  }

  lemma StartsEmpty()
    ensures Run(OneStep(), []) == Some(Initial())
  {
  }

  lemma WalksToPolled(p0: seq<Action>, s: State, idle: Worker) returns (p: seq<Action>)
    requires idle == Worker(Idle, false, false, 0, [], [], 0)
    requires s == Polled().(workers := map["a" := idle]) && Run(OneStep(), p0) == Some(s)
    ensures Run(OneStep(), p) == Some(Polled())
  {
    hide Run;
    p := p0;
    var clock := s.clock;
    assert Join(clock, "a") == clock;
    for k := 0 to 4
      invariant Run(OneStep(), p) == Some(s.(workers := map["a" := idle.(pc := Path(k))]))
    {
      var here, next := idle.(pc := Path(k)), idle.(pc := Path(k + 1));
      Works(p, s.(workers := map["a" := here]), here, s.(workers := map["a" := next]), next);
      p := p + [Work("a")];
    }
  }

  function Path(k: nat): Pc {
    match k
    case 0 => Idle
    case 1 => Entering
    case 2 => Gate
    case 3 => LoopHead
    case _ => Polling
  }

  lemma ReachesWaiting(p0: seq<Action>) returns (p: seq<Action>)
    requires Run(OneStep(), p0) == Some(Polled())
    ensures Run(OneStep(), p) == Some(Waiting())
  {
    hide Run;
    p := p0;
    var s, t := Polled(), Polled().(clock := SetEventTime(Polled().clock, Some(5)));
    Then(p, s, Replay, s.(replay := At(0)));
    p := p + [Replay];
    Then(p, s.(replay := At(0)), Replay, s.(replay := EventTimeOf(0)));
    p := p + [Replay];
    Then(p, s.(replay := EventTimeOf(0)), Replay, t.(replay := Deliver(0)));
    p := p + [Replay];
    assert [] + [OneStep().entries[0]] == OneStep().entries;
    Then(p, t.(replay := Deliver(0)), Replay, t.(replay := Commit(0), devices := OneStep().entries));
    p := p + [Replay];
    var u := t.(devices := OneStep().entries, replay := Await(0), clock := PublishStep(t.clock, 5));
    Then(p, t.(replay := Commit(0), devices := OneStep().entries), Replay, u);
    p := p + [Replay];
    assert u.clock == Waiting().clock && u.workers["a"].log + [Began] == [Began];
    assert u.workers["a"].processed + [1] == [1];
    Works(p, u, u.workers["a"], Waiting(), Waiting().workers["a"]);
    p := p + [Work("a")];
  }

  lemma ReachesStopped(p0: seq<Action>) returns (p: seq<Action>)
    requires Run(OneStep(), p0) == Some(Waiting())
    ensures Run(OneStep(), p) == Some(StoppedUnderIt())
  {
    hide Run;
    p := p0;
    var s := Waiting().(replayStop := true);
    Then(p, Waiting(), StopReplay, s);
    p := p + [StopReplay];
    Then(p, s, Replay, s.(replay := At(1)));
    p := p + [Replay];
    Then(p, s.(replay := At(1)), Replay, s.(replay := After));
    p := p + [Replay];
    Then(p, s.(replay := After), Replay, s.(replay := Resetting));
    p := p + [Replay];
    Then(p, s.(replay := Resetting), Replay, StoppedUnderIt());
    p := p + [Replay];
  }

  /** So a stop can leave a decision without its step's time though nothing was late: stopped in its
      wait, the replay resets the clock under a `main()` that is still running. */
  lemma StoppedRunIsUnstamped()
    ensures exists schedule ::
      && Run(OneStep(), schedule).Some?
      && var s := Run(OneStep(), schedule).value;
         s.late == 0 && "a" in s.workers && s.workers["a"].log == [Began, Decided("on", None)]
    ensures TimeOf(OneStep(), Mains([Began]) + 1) == Some(5)
  {
    hide Run;
    var p := ReachesPolled();
    p := ReachesWaiting(p);
    p := ReachesStopped(p);
    var w := Waiting().workers["a"].(log := [Began, Decided("on", None)]);
    assert [Began] + [Decided("on", None)] == w.log;
    Works(p, StoppedUnderIt(), Waiting().workers["a"], StoppedUnderIt().(workers := map["a" := w]), w);
    assert Run(OneStep(), p + [Work("a")]).Some?;
    assert [Began][..0] == [];
    assert NextStart(OneStep(), 0) == Some(0);
  }
}
