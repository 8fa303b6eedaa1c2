/** Algorithms outside a replay, and what a stop stops: how often `main()` is called on the wall
    clock, that nobody leaves without having run, and that whoever is asked to stop winds down. */
module LockstepLive {
  import opened Options
  import opened Clock
  import opened Backtest
  import opened Lockstep
  import opened LockstepInvariant
  import opened LockstepStamps
  import opened LockstepProgress
  import opened Scripts

  function Actor(c: Config): (State, Action) -> Option<State> {
    (s: State, a: Action) => Apply(c, s, a)
  }

  /** The program without a replay connector: nobody declares a simulation. */
  function WithoutReplay(): State {
    Initial().(clock := FRESH, replay := Done)
  }

  lemma {:induction false} RunIsPlay(c: Config, schedule: seq<Action>)
    ensures Run(c, schedule) == Play(Actor(c), Initial(), schedule)
  {
    hide Apply;
    if schedule != [] {
      RunIsPlay(c, schedule[..|schedule| - 1]);
    }
  }

  /** How often `n`'s own thread moves. */
  function OwnMoves(more: seq<Action>, n: Name): nat {
    if more == [] then 0 else OwnMoves(more[..|more| - 1], n) + if IsOwn(more[|more| - 1], n) then 1 else 0
  }

  predicate IsOwn(a: Action, n: Name) {
    a == Work(n) || (a.WallEnds? && a.name == n)
  }

  // --- nobody leaves without having run ------------------------------------------------------------

  predicate OnItsWayOut(pc: Pc) {
    pc.Leaving? || pc.Crashed? || pc.Backoff? || pc.Retiring? || pc.Retired? || pc.Finished?
  }

  predicate HasRun(w: Worker, stop: bool) {
    && (w.stepped || w.before || w.pc.Running? || w.pc.Acking? ==> w.processed != [])
    && (OnItsWayOut(w.pc) ==> w.processed != [] || w.wallRuns > 0 || stop)
  }

  ghost predicate AllHaveRun(s: State) {
    forall n :: n in s.workers ==> HasRun(s.workers[n], n in s.algorithmStop)
  }

  lemma WorkHasRun(c: Config, s: State, n: Name)
    requires WorkStep(c, s, n).Some? && HasRun(s.workers[n], n in s.algorithmStop)
    ensures HasRun(WorkStep(c, s, n).value.workers[n], n in s.algorithmStop)
  {
  }

  lemma WallHasRun(s: State, n: Name, how: Ending)
    requires WallStep(s, n, how).Some? && HasRun(s.workers[n], n in s.algorithmStop)
    ensures HasRun(WallStep(s, n, how).value.workers[n], n in s.algorithmStop)
  {
  }

  lemma ApplyHasRun(c: Config, s: State, a: Action)
    requires AllHaveRun(s) && Apply(c, s, a).Some?
    ensures AllHaveRun(Apply(c, s, a).value)
  {
    hide HasRun, WorkerNext, WorkerClock, AfterMain;
    match a
    case Work(n) => WorkHasRun(c, s, n);
    case WallEnds(n, how) => WallHasRun(s, n, how);
    case StopAlgorithm(n) => if n in s.workers { StopHasRun(s.workers[n], n in s.algorithmStop); }
    case ConstructorReturns =>
      NewHasRun(true);
      NewHasRun(false);
    case _ =>
  }

  lemma StopHasRun(w: Worker, stop: bool)
    requires HasRun(w, stop)
    ensures HasRun(w, true)
  {
  }

  lemma NewHasRun(stop: bool)
    ensures HasRun(Worker(Idle, false, false, 0, [], [], 0), stop)
  {
  }

  /** With a replay or without one, under every schedule: a thread that leaves, crashes, retires or
      is finished has called `main()`, unless its algorithm was asked to stop. */
  lemma {:induction false} NobodyLeavesUnrun(c: Config, start: State, schedule: seq<Action>)
    requires start == Initial() || start == WithoutReplay()
    requires Play(Actor(c), start, schedule).Some?
    ensures AllHaveRun(Play(Actor(c), start, schedule).value)
    ensures var s := Play(Actor(c), start, schedule).value;
            forall n :: n in s.workers && OnItsWayOut(s.workers[n].pc) ==>
              s.workers[n].processed != [] || s.workers[n].wallRuns > 0 || n in s.algorithmStop
  {
    hide Apply;
    if schedule != [] {
      NobodyLeavesUnrun(c, start, schedule[..|schedule| - 1]);
      ApplyHasRun(c, Play(Actor(c), start, schedule[..|schedule| - 1]).value, schedule[|schedule| - 1]);
    }
  }

  // --- the wall clock ----------------------------------------------------------------------------------

  /** Where a thread is in a pass of the live loop, in steps from its head. */
  function Phase(pc: Pc): Option<int> {
    match pc
    case Idle => Some(-3)
    case Entering => Some(-2)
    case Gate | Sleeping => Some(-1)
    case LoopHead => Some(0)
    case Polling => Some(1)
    case GotNone => Some(2)
    case Wall => Some(3)
    case _ => None
  }

  /** `n` runs live: no replay is under way, and it has not been part of one. */
  predicate IsLive(s: State, n: Name) {
    && s.main.Started? && s.replay.Done? && !s.clock.simulated
    && n in s.workers && n !in s.algorithmStop && !s.workers[n].stepped && !s.workers[n].before
    && Phase(s.workers[n].pc).Some?
  }

  /** Nobody asks `n` to stop, and its `main()` returns. */
  predicate Undisturbed(more: seq<Action>, n: Name) {
    forall i :: 0 <= i < |more| ==> more[i] != StopAlgorithm(n) && (more[i].WallEnds? && more[i].name == n ==>
                                                                      more[i].how.Return?)
  }

  lemma LiveMove(c: Config, s: State, a: Action, n: Name)
    requires IsLive(s, n) && Apply(c, s, a).Some? && Undisturbed([a], n)
    ensures var s' := Apply(c, s, a).value;
      && IsLive(s', n) && s'.workers[n].processed == s.workers[n].processed && s'.workers[n].log == s.workers[n].log
      && 5 * s'.workers[n].wallRuns + Phase(s'.workers[n].pc).value
         == 5 * s.workers[n].wallRuns + Phase(s.workers[n].pc).value + if IsOwn(a, n) then 1 else 0
  {
    assert [a][0] == a;
    match a
    case Work(m) => LiveWork(c, s, m, n);
    case _ =>
  }

  lemma LiveWork(c: Config, s: State, m: Name, n: Name)
    requires IsLive(s, n) && WorkStep(c, s, m).Some?
    ensures var s' := WorkStep(c, s, m).value;
      && IsLive(s', n) && s'.workers[n].processed == s.workers[n].processed && s'.workers[n].log == s.workers[n].log
      && 5 * s'.workers[n].wallRuns + Phase(s'.workers[n].pc).value
         == 5 * s.workers[n].wallRuns + Phase(s.workers[n].pc).value + if m == n then 1 else 0
  {
    if m != n {
      hide WorkerNext;
    }
  }

  /** Outside a replay, whatever else happens, each pass of five steps of the thread is one `main()`:
      look at the stop flag, poll, find no replay, run, sleep. */
  lemma {:induction false} LiveRuns(c: Config, s: State, more: seq<Action>, n: Name)
    requires IsLive(s, n) && Play(Actor(c), s, more).Some? && Undisturbed(more, n)
    ensures var s' := Play(Actor(c), s, more).value;
      && IsLive(s', n) && s'.workers[n].processed == s.workers[n].processed && s'.workers[n].log == s.workers[n].log
      && 5 * s'.workers[n].wallRuns + Phase(s'.workers[n].pc).value
         == 5 * s.workers[n].wallRuns + Phase(s.workers[n].pc).value + OwnMoves(more, n)
  {
    hide Apply, IsLive, Phase;
    if more != [] {
      var k := |more| - 1;
      LiveRuns(c, s, more[..k], n);
      assert Undisturbed([more[k]], n);
      LiveMove(c, Play(Actor(c), s, more[..k]).value, more[k], n);
    }
  }

  /** So from the head of its loop, `5 * k` steps of a live thread are exactly `k` calls of `main()`. */
  lemma LivePasses(c: Config, s: State, more: seq<Action>, n: Name, k: nat)
    requires IsLive(s, n) && s.workers[n].pc.LoopHead? && Play(Actor(c), s, more).Some? && Undisturbed(more, n)
    requires OwnMoves(more, n) == 5 * k
    ensures var s' := Play(Actor(c), s, more).value;
      n in s'.workers && s'.workers[n].wallRuns == s.workers[n].wallRuns + k && s'.workers[n].pc.LoopHead?
  {
    hide Play;
    LiveRuns(c, s, more, n);
  }

  /** And a live thread is never stuck: it has a step, or its `main()` is running. */
  lemma LiveThreadMoves(c: Config, s: State, n: Name)
    requires IsLive(s, n)
    ensures Apply(c, s, Work(n)).Some? || (s.workers[n].pc.Wall? && forall how :: Apply(c, s, WallEnds(n, how)).Some?)
  {
  }

  /** Without a replay connector nobody ever takes a step of one. */
  lemma {:induction false} NoReplayNoSteps(c: Config, schedule: seq<Action>)
    requires Play(Actor(c), WithoutReplay(), schedule).Some?
    ensures var s := Play(Actor(c), WithoutReplay(), schedule).value;
      && s.replay.Done? && !s.clock.simulated && s.devices == [] && s.stored == [] && s.late == 0
      && forall n :: n in s.workers ==> Unstepped(s.workers[n])
  {
    hide Apply, Unstepped;
    if schedule != [] {
      NoReplayNoSteps(c, schedule[..|schedule| - 1]);
      UnsteppedMove(c, Play(Actor(c), WithoutReplay(), schedule[..|schedule| - 1]).value, schedule[|schedule| - 1]);
    }
  }

  predicate Unstepped(w: Worker) {
    w.processed == [] && w.log == [] && !w.stepped && !w.before && !w.pc.Running? && !w.pc.Acking?
  }

  lemma UnsteppedMove(c: Config, s: State, a: Action)
    requires s.replay.Done? && !s.clock.simulated && Apply(c, s, a).Some?
    requires forall n :: n in s.workers ==> Unstepped(s.workers[n])
    ensures var s' := Apply(c, s, a).value;
      && s'.replay.Done? && !s'.clock.simulated && s'.devices == s.devices && s'.stored == s.stored && s'.late == s.late
      && forall n :: n in s'.workers ==> Unstepped(s'.workers[n])
  {
    hide WorkerNext, AfterMain, Unstepped;
    match a
    case Work(n) => UnsteppedWork(c, s, n);
    case WallEnds(n, how) => UnsteppedWall(s, n, how);
    case ConstructorReturns => UnsteppedNew();
    case _ =>
  }

  lemma UnsteppedNew()
    ensures Unstepped(Worker(Idle, false, false, 0, [], [], 0))
  {
  }

  lemma UnsteppedWork(c: Config, s: State, n: Name)
    requires !s.clock.simulated && WorkStep(c, s, n).Some? && Unstepped(s.workers[n])
    ensures Unstepped(WorkStep(c, s, n).value.workers[n])
  {
  }

  lemma UnsteppedWall(s: State, n: Name, how: Ending)
    requires WallStep(s, n, how).Some? && Unstepped(s.workers[n])
    ensures Unstepped(WallStep(s, n, how).value.workers[n])
  {
  }

  /** So every algorithm of such a run is live from its construction on, until it is asked to stop or
      its `main()` ends otherwise than by returning; and so is, after a replay, one that had no step of
      it. */
  lemma WhoIsLive(c: Config, start: State, schedule: seq<Action>, n: Name)
    requires c.Valid() && (start == Initial() || start == WithoutReplay())
    requires Play(Actor(c), start, schedule).Some?
    requires var s := Play(Actor(c), start, schedule).value;
      s.main.Started? && !s.clock.simulated && n in s.workers && n !in s.algorithmStop
    ensures var s := Play(Actor(c), start, schedule).value;
      s.workers[n].processed == [] && !OnItsWayOut(s.workers[n].pc) ==> IsLive(s, n)
  {
    hide Apply, Play;
    NobodyLeavesUnrun(c, start, schedule);
    if start == Initial() {
      RunIsPlay(c, schedule);
      RunInv(c, schedule);
      OnlyOnceDone(c, Run(c, schedule).value);
    } else {
      NoReplayNoSteps(c, schedule);
    }
  }

  lemma OnlyOnceDone(c: Config, s: State)
    requires c.Valid() && Inv(c, s)
    ensures s.replay.Done? || s.clock.simulated
  {
    hide MainInv, StoredInv, WaitInv, AllSafe, AllExact, AllFollow;
    SimulatedUntilDone(c, s);
  }

  // --- after the replay ---------------------------------------------------------------------------------

  predicate ResetOnceDone(s: State) {
    s.replay.Done? && !s.replayStop ==> !s.clock.simulated && s.clock.eventTime == None && s.clock.stepTime == None
  }

  lemma StaysReset(c: Config, s: State, a: Action)
    requires ResetOnceDone(s) && Apply(c, s, a).Some?
    ensures ResetOnceDone(Apply(c, s, a).value)
  {
    hide WorkerNext;
  }

  /** A replay that has come to its end by itself has reset the clock: neither the mode nor a time of the
      replay is left. */
  lemma {:induction false} FinishedReplayIsReset(c: Config, schedule: seq<Action>)
    requires Run(c, schedule).Some?
    ensures ResetOnceDone(Run(c, schedule).value)
  {
    hide Apply, ResetOnceDone;
    if schedule == [] {
      assert ResetOnceDone(Initial()) by { StartsUndone(); }
    } else {
      FinishedReplayIsReset(c, schedule[..|schedule| - 1]);
      StaysReset(c, Run(c, schedule[..|schedule| - 1]).value, schedule[|schedule| - 1]);
    }
  }

  lemma StartsUndone()
    ensures ResetOnceDone(Initial())
  {
  }

  /** How many steps of its own a stepped thread is from leaving, once the clock is reset. */
  function StepsToLeave(pc: Pc): nat {
    match pc
    case Entering => 5
    case Gate => 4
    case LoopHead => 3
    case Polling => 2
    case GotNone => 1
    case _ => 0
  }

  /** Then an algorithm that had a step of the replay leaves: from wherever it is in its loop, in at most
      five steps of its own, each of which it can take. */
  lemma SteppedThreadLeaves(c: Config, s: State, n: Name)
    requires n in s.workers && !s.clock.simulated && s.main.Started?
    requires var w := s.workers[n]; (if w.pc.Entering? then w.before else w.stepped) && StepsToLeave(w.pc) > 0
    ensures WorkStep(c, s, n).Some?
    ensures var w := WorkStep(c, s, n).value.workers[n];
      && w.stepped && w.log == s.workers[n].log && (w.pc.Leaving? || StepsToLeave(w.pc) > 0)
      && StepsToLeave(w.pc) < StepsToLeave(s.workers[n].pc)
  {
  }

  // --- what a stop stops -------------------------------------------------------------------------------

  /** How often `main()` has been called. */
  function Mained(w: Worker): nat {
    |w.processed| + w.wallRuns + if w.pc.Wall? then 1 else 0
  }

  /** It has passed its look at the stop flag and not called `main()` yet. */
  predicate PastTheLook(pc: Pc) {
    pc.Polling? || pc.GotNone?
  }

  lemma StoppedMove(c: Config, s: State, a: Action, n: Name)
    requires Apply(c, s, a).Some? && s.main.Started? && n in s.workers
    ensures var s' := Apply(c, s, a).value;
      && s'.main.Started? && n in s'.workers && Mained(s.workers[n]) <= Mained(s'.workers[n])
      && s.algorithmStop <= s'.algorithmStop && s.supervisorStop <= s'.supervisorStop
      && (n in s.algorithmStop ==>
            Mained(s'.workers[n]) + (if PastTheLook(s'.workers[n].pc) then 1 else 0)
            <= Mained(s.workers[n]) + if PastTheLook(s.workers[n].pc) then 1 else 0)
      && (n in s.supervisorStop ==> s'.workers[n].restarts == s.workers[n].restarts)
  {
    match a
    case Work(m) => StoppedWork(c, s, m, n);
    case _ =>
  }

  lemma StoppedWork(c: Config, s: State, m: Name, n: Name)
    requires WorkStep(c, s, m).Some? && n in s.workers
    ensures var s' := WorkStep(c, s, m).value;
      && n in s'.workers && Mained(s.workers[n]) <= Mained(s'.workers[n])
      && (n in s.algorithmStop ==>
            Mained(s'.workers[n]) + (if PastTheLook(s'.workers[n].pc) then 1 else 0)
            <= Mained(s.workers[n]) + if PastTheLook(s.workers[n].pc) then 1 else 0)
      && (n in s.supervisorStop ==> s'.workers[n].restarts == s.workers[n].restarts)
  {
    if m != n {
      hide WorkerNext;
    }
  }

  /** From the moment an algorithm is asked to stop, its `main()` is called at most once more, and not
      at all if its thread was not just past its look at the flag; from the moment its supervisor is,
      it is not restarted. */
  lemma {:induction false} StopIsHonoured(c: Config, s: State, more: seq<Action>, n: Name)
    requires s.main.Started? && n in s.workers && Play(Actor(c), s, more).Some?
    ensures var s' := Play(Actor(c), s, more).value;
      && s'.main.Started? && n in s'.workers
      && s.algorithmStop <= s'.algorithmStop && s.supervisorStop <= s'.supervisorStop
      && (n in s.algorithmStop ==>
            && Mained(s.workers[n]) <= Mained(s'.workers[n])
            && Mained(s'.workers[n]) + (if PastTheLook(s'.workers[n].pc) then 1 else 0)
               <= Mained(s.workers[n]) + if PastTheLook(s.workers[n].pc) then 1 else 0)
      && (n in s.supervisorStop ==> s'.workers[n].restarts == s.workers[n].restarts)
  {
    hide Apply, Mained, PastTheLook;
    if more != [] {
      var k := |more| - 1;
      StopIsHonoured(c, s, more[..k], n);
      StoppedMove(c, Play(Actor(c), s, more[..k]).value, more[k], n);
    }
  }

  /** It is past its look at the stop flag and about to deliver. */
  predicate HasEntryInHand(replay: ReplayPc) {
    replay.EventTimeOf? || replay.Deliver?
  }

  /** How many steps a stopped replay is from being over. */
  function StepsToDone(replay: ReplayPc): nat {
    match replay
    case Done => 0
    case Head | Resetting => 1
    case After => 2
    case At(_) => 3
    case Await(_) => 4
    case Commit(_) => 5
    case Store(_) => 6
    case Deliver(_) => 7
    case EventTimeOf(_) => 8
  }

  function ReplaySteps(more: seq<Action>): nat {
    if more == [] then 0 else ReplaySteps(more[..|more| - 1]) + if more[|more| - 1].Replay? then 1 else 0
  }

  lemma StoppedReplayMove(c: Config, s: State, a: Action)
    requires Apply(c, s, a).Some? && s.replayStop
    ensures var s' := Apply(c, s, a).value;
      && s'.replayStop && s.devices <= s'.devices && s'.late == s.late
      && |s'.devices| + (if HasEntryInHand(s'.replay) then 1 else 0)
         <= |s.devices| + (if HasEntryInHand(s.replay) then 1 else 0)
      && StepsToDone(s'.replay) + (if a.Replay? then 1 else 0) <= StepsToDone(s.replay)
  {
    hide WorkerNext, WorkerClock, AfterMain;
  }

  /** From the moment the replay is asked to stop, at most the entry it has in hand is still delivered,
      nobody is counted late, and it is over within eight of its own steps. */
  lemma {:induction false} StoppedReplayEnds(c: Config, s: State, more: seq<Action>)
    requires s.replayStop && Play(Actor(c), s, more).Some?
    ensures var s' := Play(Actor(c), s, more).value;
      && s'.replayStop && s.devices <= s'.devices && s'.late == s.late
      && |s'.devices| <= |s.devices| + (if HasEntryInHand(s.replay) then 1 else 0)
      && |s'.devices| + (if HasEntryInHand(s'.replay) then 1 else 0)
         <= |s.devices| + (if HasEntryInHand(s.replay) then 1 else 0)
      && StepsToDone(s'.replay) + ReplaySteps(more) <= StepsToDone(s.replay) <= 8
  {
    hide Apply, HasEntryInHand;
    if more != [] {
      var k := |more| - 1;
      StoppedReplayEnds(c, s, more[..k]);
      StoppedReplayMove(c, Play(Actor(c), s, more[..k]).value, more[k]);
    }
  }

  /** How many steps of its own a thread is from being finished, once nobody wants it any more. */
  function StepsToFinish(w: Worker, acts: nat): nat {
    match w.pc
    case Finished => 0
    case Retired => 1
    case Retiring => 2
    case Leaving | Crashed | Backoff => 3
    case LoopHead => 4
    case Gate | Sleeping | Acking(_, _) => 5
    case Wall | Entering => 6
    case GotNone | Idle => 7
    case Running(_) => ActsLeft(w.log, acts) + 5
    case Polling => acts + 8
  }

  /** Asked to stop, with its supervisor. */
  predicate Unwanted(s: State, n: Name) {
    s.main.Started? && n in s.workers && n in s.algorithmStop && n in s.supervisorStop
  }

  lemma UnwantedWork(c: Config, s: State, n: Name, acts: nat)
    requires Unwanted(s, n) && EndsWithin(c, n, acts) && Paired(s.workers[n]) && WorkStep(c, s, n).Some?
    ensures n in WorkStep(c, s, n).value.workers
    ensures StepsToFinish(WorkStep(c, s, n).value.workers[n], acts) < StepsToFinish(s.workers[n], acts)
  {
    hide InMain, Acts, ActsLeft, Mains, ActStep;
    var w := s.workers[n];
    if w.pc.Running? {
      ActComesNearer(c, s, n, w, w.pc.step, acts);
      ActIsWork(c, s, n);
    } else if w.pc.Polling? {
      FreshActs(w.log, acts);
    }
  }

  lemma UnwantedWall(s: State, n: Name, how: Ending, acts: nat)
    requires n in s.workers && WallStep(s, n, how).Some?
    ensures n in WallStep(s, n, how).value.workers
    ensures StepsToFinish(WallStep(s, n, how).value.workers[n], acts) < StepsToFinish(s.workers[n], acts)
  {
  }

  lemma NotOwn(c: Config, s: State, a: Action, n: Name)
    requires Apply(c, s, a).Some? && Unwanted(s, n) && !IsOwn(a, n)
    ensures Unwanted(Apply(c, s, a).value, n) && Apply(c, s, a).value.workers[n] == s.workers[n]
  {
    hide WorkerNext, WorkerClock;
  }

  lemma StaysUnwanted(c: Config, s: State, a: Action, n: Name)
    requires Apply(c, s, a).Some? && Unwanted(s, n)
    ensures Unwanted(Apply(c, s, a).value, n)
  {
    hide WorkerNext, WorkerClock;
  }

  /** Under every schedule, an algorithm that is asked to stop together with its supervisor, and whose
      `main()` always ends within `acts` acts, is finished within `acts + 8` steps of its own thread. */
  lemma {:induction false} UnwantedFinishes(c: Config, schedule: seq<Action>, more: seq<Action>, n: Name, acts: nat)
    requires c.Valid() && Run(c, schedule).Some? && Run(c, schedule + more).Some?
    requires Unwanted(Run(c, schedule).value, n) && EndsWithin(c, n, acts)
    ensures var s, s' := Run(c, schedule).value, Run(c, schedule + more).value;
      && Unwanted(s', n)
      && StepsToFinish(s'.workers[n], acts) + OwnMoves(more, n) <= StepsToFinish(s.workers[n], acts) <= acts + 8
  {
    hide Inv, Steady, Apply, EndsWithin, Unwanted, IsOwn;
    FinishBound(Run(c, schedule).value, n, acts);
    if more == [] {
      assert schedule + more == schedule;
    } else {
      var m := |more| - 1;
      assert (schedule + more)[..|schedule| + m] == schedule + more[..m];
      hide StepsToFinish;
      UnwantedFinishes(c, schedule, more[..m], n, acts);
      OneNearer(c, schedule + more[..m], more[m], n, acts);
    }
  }

  lemma FinishBound(s: State, n: Name, acts: nat)
    requires Unwanted(s, n)
    ensures n in s.workers && (acts > 0 ==> StepsToFinish(s.workers[n], acts) <= acts + 8)
  {
  }

  lemma OneNearer(c: Config, schedule: seq<Action>, a: Action, n: Name, acts: nat)
    requires c.Valid() && Run(c, schedule).Some? && Apply(c, Run(c, schedule).value, a).Some?
    requires Unwanted(Run(c, schedule).value, n) && EndsWithin(c, n, acts)
    ensures var s, s' := Run(c, schedule).value, Apply(c, Run(c, schedule).value, a).value;
      && Unwanted(s', n) && n in s.workers && n in s'.workers
      && StepsToFinish(s'.workers[n], acts) + (if IsOwn(a, n) then 1 else 0) <= StepsToFinish(s.workers[n], acts)
  {
    hide Run, Inv, StepsToFinish, WorkStep, WallStep, EndsWithin, Paired;
    RunSteady(c, schedule);
    var s := Run(c, schedule).value;
    StaysUnwanted(c, s, a, n);
    if !IsOwn(a, n) {
      NotOwn(c, s, a, n);
    } else if a.Work? {
      UnwantedWork(c, s, n, acts);
    } else {
      UnwantedWall(s, n, a.how, acts);
    }
  }

  /** And until it is finished it has such a step, or its `main()` is running on the wall clock. */
  lemma UnwantedMoves(c: Config, s: State, n: Name)
    requires Unwanted(s, n) && !s.workers[n].pc.Finished?
    ensures Apply(c, s, Work(n)).Some? || (s.workers[n].pc.Wall? && forall how :: Apply(c, s, WallEnds(n, how)).Some?)
  {
  }
}
