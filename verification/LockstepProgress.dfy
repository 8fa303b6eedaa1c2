/** That every wait of the replay ends: whoever it waits for settles within a bounded number of
    steps of its own thread, provided every `main()` ends. */
module LockstepProgress {
  import opened Options
  import opened Clock
  import opened Backtest
  import opened Lockstep
  import opened LockstepInvariant
  import opened LockstepTheorems
  import opened LockstepStamps
  import opened Sequences

  /** How many acts the latest `main()` of a log has made. */
  function Acts(log: seq<Event>): nat {
    if log == [] || log[|log| - 1].Began? || log[|log| - 1].Ended? then 0 else 1 + Acts(log[..|log| - 1])
  }

  /** Every `main()` of `n` ends within `acts` acts. */
  ghost predicate EndsWithin(c: Config, n: Name, acts: nat) {
    acts > 0 && forall log :: InMain(log) && Acts(log) + 1 >= acts ==> c.program(n, log).Finish?
  }

  /** How many acts are left to the running `main()`. */
  function ActsLeft(log: seq<Event>, acts: nat): (left: nat)
    ensures left > 0
  {
    if Acts(log) + 1 >= acts then 1 else acts - Acts(log)
  }

  /** How many of its own steps a thread that owes generation `g` is from settling it, at most. From
      the head of the loop it polls, runs `main()` and acknowledges. A crash, or an older step
      still in hand, comes before that. */
  function Rank(w: Worker, g: nat, acts: nat): nat {
    match w.pc
    case Idle => acts + 6
    case Entering => acts + 5
    case Gate => acts + 4
    case LoopHead => acts + 3
    case Polling => acts + 2
    case GotNone => acts + 4
    case Running(step) => ActsLeft(w.log, acts) + 1 + if step.generation == g then 0 else acts + 7
    case Acking(step, _) => 1 + if step.generation == g then 0 else acts + 7
    case Crashed => acts + 7
    case Backoff => acts + 6
    case Leaving | Retiring => 1
    case _ => 0
  }

  function Bound(acts: nat): nat {
    2 * acts + 8
  }

  lemma RankIsBounded(w: Worker, g: nat, acts: nat)
    requires acts > 0
    ensures Rank(w, g, acts) <= Bound(acts)
  {
  }

  lemma ActsGrow(log: seq<Event>, e: Event)
    requires !e.Began? && !e.Ended?
    ensures Acts(log + [e]) == Acts(log) + 1
  {
    assert (log + [e])[..|log|] == log;
  }

  /** An act of a running `main()` leaves fewer, or is its last. */
  lemma ActComesNearer(c: Config, s: State, n: Name, w: Worker, step: Step, acts: nat)
    requires EndsWithin(c, n, acts) && w.pc == Running(step) && InMain(w.log)
    ensures var w' := ActStep(c, s, n, w, step);
      || (w'.pc.Acking? && w'.pc.step == step)
      || (w'.pc == w.pc && ActsLeft(w'.log, acts) < ActsLeft(w.log, acts))
  {
    hide InMain, Acts;
    var w' := ActStep(c, s, n, w, step);
    if !c.program(n, w.log).Finish? {
      ActsGrow(w.log, w'.log[|w.log|]);
    }
  }

  /** One own step of a thread the replay waits for settles the wait or comes nearer. */
  lemma StepComesNearer(c: Config, s: State, n: Name, acts: nat)
    requires EndsWithin(c, n, acts) && n in s.workers && s.main.Started? && n in s.clock.Pending()
    requires s.clock.simulated && s.clock.stepTime.Some? && Paired(s.workers[n])
    requires WorkerSafe(s.workers[n], s.clock.Mark(n), s.clock.generation, s.clock.simulated)
    ensures Rank(s.workers[n], s.clock.generation, acts) > 0
    ensures WorkStep(c, s, n).Some?
    ensures var s' := WorkStep(c, s, n).value;
      || n !in s'.clock.Pending()
      || Rank(s'.workers[n], s.clock.generation, acts) < Rank(s.workers[n], s.clock.generation, acts)
  {
    hide Ascending, Mains, InMain, ActStep, ActsLeft, Acts;
    var w := s.workers[n];
    PendingStep(c, s, n);
    if w.pc.Running? {
      ActComesNearer(c, s, n, w, w.pc.step, acts);
      ActIsWork(c, s, n);
    } else if w.pc.Polling? {
      FreshActs(w.log, acts);
    }
  }

  lemma FreshActs(log: seq<Event>, acts: nat)
    requires acts > 0
    ensures ActsLeft(log + [Began], acts) <= acts
  {
  }

  /** Whatever the other threads do while the replay waits is nothing to this one. */
  lemma OthersAreNoMatter(c: Config, s: State, a: Action, n: Name)
    requires c.Valid() && Inv(c, s) && s.replay.Await? && n in s.workers && Apply(c, s, a).Some?
    requires !a.Replay? && !a.ReplayTimesOut?
    ensures var s' := Apply(c, s, a).value;
      && s'.replay == s.replay && s'.clock.generation == s.clock.generation && n in s'.workers
      && (a != Work(n) && n in s'.clock.Pending() ==> n in s.clock.Pending() && s'.workers[n] == s.workers[n])
      && (n in s'.clock.Pending() ==> n in s.clock.Pending())
  {
    hide StoredInv, WaitInv, WorkerExact, WorkerFollows, WorkStep;
    PendingShrinksHere(c, s, a);
    match a
    case Work(m) => WorkLeaves(c, s, m, n);
    case WallEnds(m, how) => NobodyIsLive(c, s, n);
    case _ =>
  }

  lemma WorkLeaves(c: Config, s: State, m: Name, n: Name)
    requires WorkStep(c, s, m).Some? && n in s.workers
    ensures var s' := WorkStep(c, s, m).value;
      && s'.replay == s.replay && s'.clock.generation == s.clock.generation && n in s'.workers
      && (m != n ==> s'.workers[n] == s.workers[n])
  {
    hide WorkerNext;
  }

  /** While the replay waits nobody it waits for is on the wall clock. */
  lemma NobodyIsLive(c: Config, s: State, n: Name)
    requires c.Valid() && Inv(c, s) && s.replay.Await? && n in s.workers
    ensures !s.workers[n].pc.Wall?
  {
    hide MainInv, StoredInv, WaitInv, AllExact, AllFollow, Ascending;
    SimulatedUntilDone(c, s);
    assert WorkerSafe(s.workers[n], s.clock.Mark(n), s.clock.generation, s.clock.simulated);
  }

  lemma PendingShrinksHere(c: Config, s: State, a: Action)
    requires c.Valid() && Inv(c, s) && s.replay.Await? && Apply(c, s, a).Some?
    requires !a.Replay? && !a.ReplayTimesOut?
    ensures Apply(c, s, a).value.clock.generation == s.clock.generation
    ensures Apply(c, s, a).value.clock.Pending() <= s.clock.Pending()
  {
    hide Inv, WorkStep;
    AwaitIsStarted(c, s);
    match a
    case Work(m) => SameGeneration(c, s, m); PendingShrinks(c, s, a);
    case _ => PendingShrinks(c, s, a);
  }

  lemma SameGeneration(c: Config, s: State, m: Name)
    requires WorkStep(c, s, m).Some?
    ensures WorkStep(c, s, m).value.clock.generation == s.clock.generation
  {
  }

  lemma AwaitIsStarted(c: Config, s: State)
    requires c.Valid() && Inv(c, s) && s.replay.Await?
    ensures s.main.Started?
  {
    hide ReplayInv, StoredInv, WaitInv, AllSafe, AllExact, AllFollow;
  }

  // --- the wait ------------------------------------------------------------------------------------

  /** How many steps of `n`'s thread a schedule has. */
  function Steps(schedule: seq<Action>, n: Name): nat {
    if schedule == [] then 0
    else Steps(schedule[..|schedule| - 1], n) + if schedule[|schedule| - 1] == Work(n) then 1 else 0
  }

  /** The replay does not move. */
  predicate Waits(more: seq<Action>) {
    forall i :: 0 <= i < |more| ==> !more[i].Replay? && !more[i].ReplayTimesOut?
  }

  lemma {:induction false} RanksRunDown(c: Config, schedule: seq<Action>, more: seq<Action>, n: Name, acts: nat)
    requires c.Valid() && Run(c, schedule).Some? && Run(c, schedule + more).Some? && Waits(more)
    requires Run(c, schedule).value.replay.Await? && n in Run(c, schedule).value.workers && EndsWithin(c, n, acts)
    ensures var s, s' := Run(c, schedule).value, Run(c, schedule + more).value;
      && s'.replay == s.replay && s'.clock.generation == s.clock.generation && n in s'.workers
      && (n in s'.clock.Pending() ==>
            && n in s.clock.Pending()
            && Rank(s'.workers[n], s.clock.generation, acts) + Steps(more, n)
               <= Rank(s.workers[n], s.clock.generation, acts))
  {
    hide Inv, Steady, Apply, Rank;
    if more == [] {
      assert schedule + more == schedule;
    } else {
      var m := |more| - 1;
      var before, a := more[..m], more[m];
      assert (schedule + more)[..|schedule| + m] == schedule + before;
      assert Waits(before);
      RanksRunDown(c, schedule, before, n, acts);
      RunSteady(c, schedule + before);
      var s := Run(c, schedule + before).value;
      OthersAreNoMatter(c, s, a, n);
      if a == Work(n) && n in s.clock.Pending() {
        OwnStep(c, s, n, acts);
      }
    }
  }

  /** Somebody the replay waits for is still some way off, and its own next step comes nearer. */
  lemma OwnStep(c: Config, s: State, n: Name, acts: nat)
    requires c.Valid() && Inv(c, s) && Steady(c, s) && s.replay.Await? && n in s.clock.Pending()
    requires EndsWithin(c, n, acts)
    ensures n in s.workers && Rank(s.workers[n], s.clock.generation, acts) > 0
    ensures WorkStep(c, s, n).Some? && Apply(c, s, Work(n)) == WorkStep(c, s, n)
    ensures var s' := WorkStep(c, s, n).value;
      n in s'.clock.Pending() ==>
        Rank(s'.workers[n], s.clock.generation, acts) < Rank(s.workers[n], s.clock.generation, acts)
  {
    hide StoredInv, WaitInv, AllExact, AllFollow, Frozen, WorkStep, Rank, WorkerSafe, Paired, ReplayInv, MainInv,
         EndsWithin;
    AwaitFacts(c, s, n);
    StepComesNearer(c, s, n, acts);
  }

  /** However the threads are interleaved while the replay waits, and whoever is stopped meanwhile: a
      name whose `main()` always ends within `acts` acts has settled the wait by the time its thread
      has made `2 * acts + 8` steps, a crash, a restart and an older step in hand included. */
  lemma SettledWithin(c: Config, schedule: seq<Action>, more: seq<Action>, n: Name, acts: nat)
    requires c.Valid() && Run(c, schedule).Some? && Run(c, schedule + more).Some? && Waits(more)
    requires Run(c, schedule).value.replay.Await? && n in Run(c, schedule).value.workers && EndsWithin(c, n, acts)
    requires Steps(more, n) >= Bound(acts)
    ensures n !in Run(c, schedule + more).value.clock.Pending()
  {
    hide Run, Inv, Steady, Rank;
    RanksRunDown(c, schedule, more, n, acts);
    RunSteady(c, schedule + more);
    RankIsBounded(Run(c, schedule).value.workers[n], Run(c, schedule).value.clock.generation, acts);
    if n in Run(c, schedule + more).value.clock.Pending() {
      OwnStep(c, Run(c, schedule + more).value, n, acts);
    }
  }

  /** So every wait ends: when every thread the replay waits for has made that many steps, nobody is
      pending, no step was late, and the replay goes on. */
  lemma EveryWaitEnds(c: Config, schedule: seq<Action>, more: seq<Action>, acts: nat)
    requires c.Valid() && Run(c, schedule).Some? && Run(c, schedule + more).Some? && Waits(more)
    requires Run(c, schedule).value.replay.Await?
    requires forall n :: n in Run(c, schedule).value.clock.Pending() ==>
               EndsWithin(c, n, acts) && Steps(more, n) >= Bound(acts)
    ensures var s, s' := Run(c, schedule).value, Run(c, schedule + more).value;
      && NonePending(s'.clock) && s'.replay == s.replay && s'.late == s.late
      && Apply(c, s', Replay) == Some(s'.(replay := At(s.replay.i + 1)))
  {
    hide Run, Inv, Steady, Rank, EndsWithin, Steps;
    RunSteady(c, schedule);
    RunSteady(c, schedule + more);
    var s, s' := Run(c, schedule).value, Run(c, schedule + more).value;
    WaitGoesOn(c, schedule, more);
    forall n | n in s.clock.Pending() ensures n !in s'.clock.Pending() {
      PendingIsThere(c, s, n);
      SettledWithin(c, schedule, more, n, acts);
    }
    assert forall n :: n in s'.clock.acked && s'.clock.acked[n] < s'.clock.generation ==> n in s'.clock.Pending();
    AwaitIsStarted(c, s');
    AwaitIsOver(c, s');
  }

  lemma AwaitIsOver(c: Config, s: State)
    requires s.main.Started? && s.replay.Await? && NonePending(s.clock)
    ensures Apply(c, s, Replay) == Some(s.(replay := At(s.replay.i + 1)))
  {
  }

  lemma PendingIsThere(c: Config, s: State, n: Name)
    requires c.Valid() && Inv(c, s) && s.replay.Await? && n in s.clock.Pending()
    ensures n in s.workers
  {
    hide StoredInv, WaitInv, AllSafe, AllExact, AllFollow, ReplayInv, MainInv;
    AwaitFacts(c, s, n);
  }

  /** While the replay does not move, the wait is the same wait and nobody joins it. */
  lemma {:induction false} WaitGoesOn(c: Config, schedule: seq<Action>, more: seq<Action>)
    requires c.Valid() && Run(c, schedule).Some? && Run(c, schedule + more).Some? && Waits(more)
    requires Run(c, schedule).value.replay.Await?
    ensures var s, s' := Run(c, schedule).value, Run(c, schedule + more).value;
      s'.replay == s.replay && s'.late == s.late && s'.clock.Pending() <= s.clock.Pending()
  {
    hide Inv, Apply;
    if more == [] {
      assert schedule + more == schedule;
    } else {
      var m := |more| - 1;
      assert (schedule + more)[..|schedule| + m] == schedule + more[..m];
      WaitGoesOn(c, schedule, more[..m]);
      RunInv(c, schedule + more[..m]);
      var s := Run(c, schedule + more[..m]).value;
      NothingMoves(c, s, more[m]);
      PendingShrinksHere(c, s, more[m]);
    }
  }

  lemma NothingMoves(c: Config, s: State, a: Action)
    requires c.Valid() && Inv(c, s) && s.replay.Await? && Apply(c, s, a).Some? && !a.Replay? && !a.ReplayTimesOut?
    ensures Apply(c, s, a).value.replay == s.replay && Apply(c, s, a).value.late == s.late
  {
    hide Inv, WorkerNext, WorkerClock;
    AwaitIsStarted(c, s);
  }
}
