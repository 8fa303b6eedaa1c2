/** What the lockstep replay promises, proved of every schedule. */
module LockstepTheorems {
  import opened Options
  import opened Clock
  import opened Backtest
  import opened Lockstep
  import opened LockstepInvariant
  import opened Sequences

  // --- determinism ------------------------------------------------------------

  /** In every run with no late step and no stop of the replay, what has happened to each
      algorithm is exactly what the sequential backtest does to it. */
  lemma FollowsBacktest(c: Config, schedule: seq<Action>, n: Name)
    requires c.Valid() && Run(c, schedule).Some?
    requires var s := Run(c, schedule).value; s.late == 0 && !s.replayStop && n in s.workers
    ensures Sequential(c, n, Run(c, schedule).value.workers[n].log)
  {
    hide Sequential, ReplayInv, StoredInv, MainInv, WorkerSafe, WorkerExact, Run;
    RunInv(c, schedule);
    var s := Run(c, schedule).value;
    assert WorkerFollows(c, n, s.workers[n], Stopped(s, n));
  }

  /** Two schedules cannot make one algorithm see or decide different things: the shorter of its
      two histories is a prefix of the longer. */
  lemma ScheduleIndependence(c: Config, one: seq<Action>, other: seq<Action>, n: Name)
    requires c.Valid() && Run(c, one).Some? && Run(c, other).Some?
    requires var s := Run(c, one).value; s.late == 0 && !s.replayStop && n in s.workers
    requires var s := Run(c, other).value; s.late == 0 && !s.replayStop && n in s.workers
    ensures var a := Run(c, one).value.workers[n].log;
            var b := Run(c, other).value.workers[n].log;
            a <= b || b <= a
  {
    hide Sequential, Run;
    var a := Run(c, one).value.workers[n].log;
    var b := Run(c, other).value.workers[n].log;
    FollowsBacktest(c, one, n);
    FollowsBacktest(c, other, n);
    var k := if |a| < |b| then |a| else |b|;
    SequentialAgree(c, n, a, b, k);
    assert a[..|a|] == a && b[..|b|] == b;
  }

  /** When such a replay is over, every algorithm that was not asked to stop has been through the
      whole backtest. */
  lemma FinishedIsComplete(c: Config, schedule: seq<Action>, n: Name)
    requires c.Valid() && Run(c, schedule).Some?
    requires var s := Run(c, schedule).value;
             s.late == 0 && !s.replayStop && s.replay.Done? && n in s.workers && !Stopped(s, n)
    ensures Complete(c, n, Run(c, schedule).value.workers[n].log)
  {
    RunInv(c, schedule);
    DoneIsComplete(c, Run(c, schedule).value, n);
  }

  lemma DoneIsComplete(c: Config, s: State, n: Name)
    requires c.Valid() && Inv(c, s)
    requires s.late == 0 && !s.replayStop && s.replay.Done? && n in s.workers && !Stopped(s, n)
    ensures Complete(c, n, s.workers[n].log)
  {
    hide Sequential, GroupEnd, Delivered, TimeOf, Crashes, StoredInv, MainInv;
    var w := s.workers[n];
    assert WorkerSafe(w, s.clock.Mark(n), s.clock.generation, s.clock.simulated);
    assert WorkerExact(w, s.clock.Mark(n), s.clock.generation);
    assert WorkerFollows(c, n, w, Stopped(s, n));
    assert NextStart(c, s.clock.generation) == None;
    if Participates(w.pc) {
      assert NonePending(s.clock) && s.clock.acked[n] == s.clock.generation;
    }
  }

  /** A backtest is deterministic: two finished runs under any two schedules did exactly the same
      to every algorithm, decisions and their timestamps included. */
  lemma BacktestIsDeterministic(c: Config, one: seq<Action>, other: seq<Action>, n: Name)
    requires c.Valid() && Run(c, one).Some? && Run(c, other).Some?
    requires var s := Run(c, one).value;
             s.late == 0 && !s.replayStop && s.replay.Done? && n in s.workers && !Stopped(s, n)
    requires var s := Run(c, other).value;
             s.late == 0 && !s.replayStop && s.replay.Done? && n in s.workers && !Stopped(s, n)
    ensures Run(c, one).value.workers[n].log == Run(c, other).value.workers[n].log
  {
    hide Complete, Run;
    FinishedIsComplete(c, one, n);
    FinishedIsComplete(c, other, n);
    CompleteAgree(c, n, Run(c, one).value.workers[n].log, Run(c, other).value.workers[n].log);
  }

  lemma CompleteAgree(c: Config, n: Name, a: seq<Event>, b: seq<Event>)
    requires c.Valid() && Complete(c, n, a) && Complete(c, n, b)
    ensures a == b
  {
    CompleteIsLongest(c, n, a, b);
  }

  /** With `step_timeout_seconds: null` no step is ever late. */
  lemma {:induction false} NeverLateWithoutTimeout(c: Config, schedule: seq<Action>)
    requires !c.timeouts && Run(c, schedule).Some?
    ensures Run(c, schedule).value.late == 0
  {
    if schedule != [] {
      var before := schedule[..|schedule| - 1];
      NeverLateWithoutTimeout(c, before);
      LateOnlyByTimeout(c, Run(c, before).value, schedule[|schedule| - 1]);
    }
  }

  lemma LateOnlyByTimeout(c: Config, s: State, a: Action)
    requires Apply(c, s, a).Some? && !c.timeouts
    ensures Apply(c, s, a).value.late == s.late
  {
  }

  // --- exactly once --------------------------------------------------------------

  /** While no step has been late, an algorithm has processed the generations 1, 2, 3, ... each
      once and in order, through any crashes and restarts, and as long as it participates it is
      at most one step behind; when the replay is not waiting (nor stopping) it is not behind. */
  lemma ExactlyOnce(c: Config, schedule: seq<Action>, n: Name)
    requires c.Valid() && Run(c, schedule).Some?
    requires Run(c, schedule).value.late == 0 && n in Run(c, schedule).value.workers
    ensures var s := Run(c, schedule).value;
            var w := s.workers[n];
            && CountsTo(w.processed, |w.processed|)
            && (n in s.clock.acked ==>
                  && s.clock.acked[n] <= s.clock.generation <= s.clock.acked[n] + 1
                  && |w.processed| == s.clock.acked[n] + if Stepping(w.pc) then 1 else 0)
            && (n in s.clock.acked && !s.replay.Await? && !s.replayStop ==>
                  CountsTo(w.processed, s.clock.generation))
  {
    hide Sequential, ReplayInv, StoredInv, MainInv, Run;
    RunInv(c, schedule);
    var s := Run(c, schedule).value;
    assert WorkerSafe(s.workers[n], s.clock.Mark(n), s.clock.generation, s.clock.simulated);
    assert WorkerExact(s.workers[n], s.clock.Mark(n), s.clock.generation);
  }

  /** In every run, late ones included, the generations an algorithm processes strictly
      increase, and none is beyond the current one. */
  lemma NeverTwice(c: Config, schedule: seq<Action>, n: Name)
    requires c.Valid() && Run(c, schedule).Some? && n in Run(c, schedule).value.workers
    ensures var s := Run(c, schedule).value;
            && Ascending(s.workers[n].processed)
            && forall k :: 0 <= k < |s.workers[n].processed| ==>
                             0 < s.workers[n].processed[k] <= s.clock.generation
  {
    hide Sequential, ReplayInv, StoredInv, MainInv, Run;
    RunInv(c, schedule);
    var s := Run(c, schedule).value;
    assert WorkerSafe(s.workers[n], s.clock.Mark(n), s.clock.generation, s.clock.simulated);
  }

  /** One step never walks a mark back, rewinds the generation or forgets a processed one. */
  lemma NothingGoesBack(c: Config, s: State, a: Action, n: Name)
    requires c.Valid() && Inv(c, s) && Apply(c, s, a).Some?
    ensures var s' := Apply(c, s, a).value;
      && s'.clock.generation >= s.clock.generation
      && (n in s.clock.acked && n in s'.clock.acked ==> s'.clock.acked[n] >= s.clock.acked[n])
      && (s.main.Started? && n in s.workers ==>
            n in s'.workers && s.workers[n].processed <= s'.workers[n].processed)
  {
    hide ReplayInv, StoredInv, WorkerExact, WorkerFollows, WaitInv, ReplayStep, MainStep, WorkStep, WallStep;
    match a
    case Work(m) => WorkGoesForward(c, s, m, n);
    case Replay => ReplayGoesForward(c, s, n);
    case WallEnds(m, how) => WallGoesForward(s, m, how, n);
    case ReplayTimesOut =>
    case StopReplay =>
    case StopSupervisor(_) =>
    case StopAlgorithm(_) =>
    case _ => MainGoesForward(c, s, a, n);
  }

  lemma WorkGoesForward(c: Config, s: State, m: Name, n: Name)
    requires WorkStep(c, s, m).Some?
    ensures var s' := WorkStep(c, s, m).value;
      && s'.clock.generation == s.clock.generation
      && (n in s.clock.acked && n in s'.clock.acked ==> s'.clock.acked[n] >= s.clock.acked[n])
      && (n in s.workers ==> n in s'.workers && s.workers[n].processed <= s'.workers[n].processed)
  {
    var w := s.workers[m];
    if w.pc.Running? {
      assert WorkStep(c, s, m).value.workers[m].processed == w.processed;
    }
  }

  lemma ReplayGoesForward(c: Config, s: State, n: Name)
    requires ReplayStep(c, s).Some?
    ensures var s' := ReplayStep(c, s).value;
      && s'.clock.generation >= s.clock.generation
      && s'.clock.acked == s.clock.acked && s'.workers == s.workers
  {
  }

  lemma WallGoesForward(s: State, m: Name, how: Ending, n: Name)
    requires WallStep(s, m, how).Some?
    ensures var s' := WallStep(s, m, how).value;
      && s'.clock == s.clock
      && (n in s.workers ==> n in s'.workers && s.workers[n].processed == s'.workers[n].processed)
  {
  }

  lemma MainGoesForward(c: Config, s: State, a: Action, n: Name)
    requires MainStep(c, s, a).Some?
    ensures !s.main.Started?
    ensures var s' := MainStep(c, s, a).value;
      && s'.clock.generation == s.clock.generation
      && (n in s.clock.acked && n in s'.clock.acked ==> s'.clock.acked[n] == s.clock.acked[n])
  {
  }

  // --- nobody holds the barrier for nothing -------------------------------------------

  /** In every reachable state, whoever the replay can be waiting for is an algorithm that was
      successfully constructed and whose worker has neither retired nor finished (before the
      threads start: or the one being constructed). */
  lemma NoOrphan(c: Config, schedule: seq<Action>, n: Name)
    requires c.Valid() && Run(c, schedule).Some?
    requires n in Run(c, schedule).value.clock.acked
    ensures var s := Run(c, schedule).value;
            if n in s.workers
            then !s.workers[n].pc.Retired? && !s.workers[n].pc.Finished?
            else s.main.Constructed? && s.main.k < |c.algorithms| && n == c.algorithms[s.main.k]
  {
    hide Sequential, ReplayInv, StoredInv, Run;
    RunInv(c, schedule);
    var s := Run(c, schedule).value;
    if n in s.workers {
      assert WorkerSafe(s.workers[n], s.clock.Mark(n), s.clock.generation, s.clock.simulated);
    }
  }

  /** Within one generation the pending set only shrinks. */
  lemma PendingShrinks(c: Config, s: State, a: Action)
    requires c.Valid() && Inv(c, s) && Apply(c, s, a).Some?
    requires Apply(c, s, a).value.clock.generation == s.clock.generation
    ensures Apply(c, s, a).value.clock.Pending() <= s.clock.Pending()
  {
    hide ReplayInv, StoredInv, WorkerExact, WorkerFollows, WaitInv, WorkerSafe, WorkStep, ReplayStep, WallStep;
    match a
    case Work(m) => WorkPending(c, s, m);
    case Replay => ReplayGoesForward(c, s, "");
    case WallEnds(m, how) => WallGoesForward(s, m, how, "");
    case _ =>
  }

  lemma WorkPending(c: Config, s: State, m: Name)
    requires c.Valid() && Inv(c, s) && WorkStep(c, s, m).Some?
    ensures WorkStep(c, s, m).value.clock.Pending() <= s.clock.Pending()
  {
    hide ReplayInv, StoredInv, WorkerExact, WorkerFollows, WaitInv;
    var w := s.workers[m];
    assert WorkerSafe(w, s.clock.Mark(m), s.clock.generation, s.clock.simulated);
    if w.pc.Acking? {
      AckSettles(s.clock, m, w.pc.step.generation);
    } else if w.pc.Entering? {
      JoinKeepsPending(s.clock, m);
    }
  }

  /** How many own steps a thread is from its acknowledgement or its leave, at most. */
  function Distance(pc: Pc): nat {
    match pc
    case Crashed => 10
    case Backoff => 9
    case Idle => 8
    case Entering => 7
    case Gate => 6
    case GotNone => 5
    case LoopHead => 4
    case Polling => 3
    case Running(_) => 2
    case Acking(_, _) | Leaving | Retiring => 1
    case _ => 0
  }

  /** Whoever the replay is waiting for can answer: its own thread always has a step, and each of
      its steps settles the wait, or settles an older step, or comes nearer to doing so, or is an
      act of its `main()`. */
  lemma PendingCanAnswer(c: Config, s: State, n: Name)
    requires c.Valid() && Inv(c, s) && s.replay.Await? && n in s.clock.Pending()
    ensures n in s.workers && WorkStep(c, s, n).Some?
    ensures var s' := WorkStep(c, s, n).value;
            || n !in s'.clock.Pending()
            || s'.clock.acked[n] > s.clock.acked[n]
            || Distance(s'.workers[n].pc) < Distance(s.workers[n].pc)
            || (s.workers[n].pc.Running? && s'.workers[n].pc == s.workers[n].pc
                && |s'.workers[n].log| == |s.workers[n].log| + 1)
  {
    hide StoredInv, WorkerExact, WorkerFollows, WaitInv, ReplayInv, MainInv, WorkerSafe, WorkStep, Distance;
    AwaitFacts(c, s, n);
    PendingStep(c, s, n);
  }

  lemma AwaitFacts(c: Config, s: State, n: Name)
    requires c.Valid() && MainInv(c, s) && ReplayInv(c, s) && s.replay.Await? && n in s.clock.Pending()
    ensures s.main.Started? && n in s.workers && s.clock.simulated && s.clock.stepTime.Some?
  {
    hide Between, NextStart, InGroup, TimeOf, GroupEnd, Delivered;
  }

  lemma PendingStep(c: Config, s: State, n: Name)
    requires n in s.workers && s.main.Started? && n in s.clock.Pending()
    requires s.clock.simulated && s.clock.stepTime.Some?
    requires WorkerSafe(s.workers[n], s.clock.Mark(n), s.clock.generation, s.clock.simulated)
    ensures WorkStep(c, s, n).Some?
    ensures var s' := WorkStep(c, s, n).value;
            || n !in s'.clock.Pending()
            || s'.clock.acked[n] > s.clock.acked[n]
            || Distance(s'.workers[n].pc) < Distance(s.workers[n].pc)
            || (s.workers[n].pc.Running? && s'.workers[n].pc == s.workers[n].pc
                && |s'.workers[n].log| == |s.workers[n].log| + 1)
  {
    hide Ascending;
  }

  /** The protocol never jams: until the replay is done, some thread has a step. */
  lemma NeverJams(c: Config, schedule: seq<Action>)
    requires c.Valid() && Run(c, schedule).Some?
    requires var s := Run(c, schedule).value; s.main.Started? && !s.replay.Done?
    ensures var s := Run(c, schedule).value;
            || Apply(c, s, Replay).Some?
            || exists n :: n in s.clock.Pending() && Apply(c, s, Work(n)).Some?
  {
    hide Inv, Run, WorkStep, Distance;
    RunInv(c, schedule);
    var s := Run(c, schedule).value;
    if s.replay.Await? && !NonePending(s.clock) {
      var n :| n in s.clock.acked && s.clock.acked[n] < s.clock.generation;
      PendingCanAnswer(c, s, n);
      assert Apply(c, s, Work(n)).Some?;
    } else {
      IndexInRange(c, s);
    }
  }

  lemma IndexInRange(c: Config, s: State)
    requires c.Valid() && Inv(c, s) && !s.replay.Done?
    requires s.replay.Await? ==> NonePending(s.clock)
    ensures ReplayStep(c, s).Some?
  {
    hide Between, NextStart, TimeOf, GroupEnd, Delivered, StoredInv, AllSafe, AllExact, AllFollow, MainInv, WaitInv;
  }

  // --- after the replay --------------------------------------------------------------------

  /** An algorithm that has processed a replay step never takes the wall-clock branch, however
      often it crashes and restarts, and also after the clock has been reset; with nothing late
      or stopped no algorithm takes it at all. */
  lemma NoWallClockAfterReplay(c: Config, schedule: seq<Action>, n: Name)
    requires c.Valid() && Run(c, schedule).Some? && n in Run(c, schedule).value.workers
    ensures var s := Run(c, schedule).value;
            var w := s.workers[n];
            && (w.processed != [] ==> w.wallRuns == 0 && !w.pc.Wall?)
            && (s.late == 0 && !s.replayStop ==> w.wallRuns == 0 && !w.pc.Wall?)
  {
    hide Sequential, ReplayInv, StoredInv, MainInv, WaitInv, WorkerExact, Run;
    RunInv(c, schedule);
    var s := Run(c, schedule).value;
    assert WorkerSafe(s.workers[n], s.clock.Mark(n), s.clock.generation, s.clock.simulated);
    if s.late == 0 && !s.replayStop {
      assert WorkerFollows(c, n, s.workers[n], Stopped(s, n));
    }
  }

  // --- readings ----------------------------------------------------------------------------

  /** In every run, late or stopped ones included, the stored readings are exactly the accepted
      entries among those delivered, in replay order, each stamped with its own timestamp (the
      last one possibly still to be written). */
  lemma ReadingsAreStamped(c: Config, schedule: seq<Action>)
    requires c.Valid() && Run(c, schedule).Some?
    ensures var s := Run(c, schedule).value;
            var due := Readings(c, s.devices);
            && s.stored <= due
            && |due| <= |s.stored| + if s.replay.Store? then 1 else 0
  {
    hide Inv, Run, Readings;
    RunInv(c, schedule);
    StoredIsPrefix(c, Run(c, schedule).value);
  }

  lemma StoredIsPrefix(c: Config, s: State)
    requires c.Valid() && Inv(c, s)
    ensures s.stored <= Readings(c, s.devices)
    ensures |Readings(c, s.devices)| <= |s.stored| + if s.replay.Store? then 1 else 0
  {
    hide AllSafe, AllExact, AllFollow, MainInv, WaitInv, ReplayInv, Readings;
  }

  /** How much of the file the first `g` timesteps cover, when it is played once. */
  function Covered(c: Config, g: nat): (k: nat)
    requires c.Valid()
    ensures k <= |c.entries|
  {
    match NextStart(c, g)
    case Some(b) => b
    case None => |c.entries|
  }

  lemma CoveredGrows(c: Config, g: nat)
    requires c.Valid() && !c.looping && g > 0
    ensures Covered(c, g - 1) <= Covered(c, g)
    ensures Delivered(c, g) == Delivered(c, g - 1) + c.entries[Covered(c, g - 1)..Covered(c, g)]
  {
    hide GroupEnd;
  }

  lemma Joined<T>(s: seq<T>, i: nat, j: nat)
    requires i <= j <= |s|
    ensures s[..i] + s[i..j] == s[..j]
  {
  }

  /** Played once, the file's timesteps are the file. */
  lemma {:induction false} TimestepsTileTheFile(c: Config, g: nat)
    requires c.Valid() && !c.looping
    ensures Delivered(c, g) == c.entries[..Covered(c, g)]
  {
    hide GroupEnd, NextStart;
    if g > 0 {
      hide Delivered, Covered;
      TimestepsTileTheFile(c, g - 1);
      CoveredGrows(c, g);
      Joined(c.entries, Covered(c, g - 1), Covered(c, g));
    } else {
      assert Covered(c, 0) == 0 by { StartsAtZero(c); }
    }
  }

  lemma StartsAtZero(c: Config)
    requires c.Valid()
    ensures Covered(c, 0) == 0
  {
  }

  /** A replay played once and not stopped has delivered its whole file in order, and stored
      exactly the accepted entries of it; late algorithms do not change that. */
  lemma WholeFileIsReplayed(c: Config, schedule: seq<Action>)
    requires c.Valid() && !c.looping && Run(c, schedule).Some?
    requires var s := Run(c, schedule).value; s.replay.Done? && !s.replayStop
    ensures var s := Run(c, schedule).value;
            s.devices == c.entries && s.stored == Readings(c, c.entries)
  {
    hide Run, Readings;
    RunInv(c, schedule);
    DoneIsWholeFile(c, Run(c, schedule).value);
  }

  lemma DoneIsWholeFile(c: Config, s: State)
    requires c.Valid() && Inv(c, s) && !c.looping && s.replay.Done? && !s.replayStop
    ensures s.devices == c.entries && s.stored == Readings(c, c.entries)
  {
    hide AllSafe, AllExact, AllFollow, MainInv, WaitInv, Readings, Delivered, Covered, NextStart, Between;
    TimestepsTileTheFile(c, s.clock.generation);
    NothingIsLeft(c, s.devices, s.clock.generation);
  }

  lemma NothingIsLeft(c: Config, devices: seq<Entry>, g: nat)
    requires c.Valid() && Between(c, devices, g, None)
    ensures devices == Delivered(c, g) && Covered(c, g) == |c.entries|
  {
  }
}
