/** An algorithm's thread as the object it is (`loop` and `retire` of api/algorithm.py): its loop
    takes only the steps that thread has in the lockstep model, in that order. */
module Algorithm {
  import opened Options
  import opened Clock
  import opened Backtest
  import opened Lockstep
  import opened Scripts

  /** What the thread meets. It finds its stop flag clear `patience` times; before its `k`-th look at
      anything shared the clock and the devices are `clock(k)` and `devices(k)`; `wall(k)` is how a
      wall-clock `main()` begun then ends. `acts` bounds what is observed of one `main()`. */
  datatype World = World(patience: nat, clock: nat -> ClockState, devices: nat -> seq<Entry>, wall: nat -> Ending,
                         acts: nat)
  {
    /** No replay at any look, and every wall-clock `main()` returns. */
    ghost predicate Live() {
      forall k: nat :: !clock(k).simulated && wall(k) == Return
    }
  }

  lemma LiveNow(w: World, k: nat)
    ensures w.Live() ==> !w.clock(k).simulated && !w.clock(k + 1).simulated && w.wall(k + 2).Return?
  {
  }

  /** A step of the thread, the end of a wall-clock `main()`, or what happens around it. */
  datatype Move = Own | WallClockEnds(how: Ending) | Stop | Others(clock: ClockState, devices: seq<Entry>)

  /** How one observed call of `loop()` ends: by leaving, by raising, or inside a `main()`. */
  datatype LoopEnd = Leaves | Raises | StillInMain(step: Step)

  function Moved(c: Config, n: Name, s: State, m: Move): Option<State> {
    match m
    case Own => WorkStep(c, s, n)
    case WallClockEnds(how) => WallStep(s, n, how)
    case Stop => Some(s.(algorithmStop := s.algorithmStop + {n}))
    case Others(clock, devices) => Some(s.(clock := clock, devices := devices))
  }

  function Mover(c: Config, n: Name): (State, Move) -> Option<State> {
    (s: State, m: Move) => Moved(c, n, s, m)
  }

  /** The moves of the thread are actions of the lockstep model. */
  lemma MovesAreActions(c: Config, n: Name, s: State, m: Move)
    ensures m.Own? ==> Moved(c, n, s, m) == Apply(c, s, Work(n))
    ensures m.WallClockEnds? ==> Moved(c, n, s, m) == Apply(c, s, WallEnds(n, m.how))
    ensures m.Stop? ==> Moved(c, n, s, m) == Apply(c, s, StopAlgorithm(n))
  {
  }

  predicate Alone(script: seq<Move>) {
    forall i :: 0 <= i < |script| ==> !script[i].Others?
  }

  function ActionOf(n: Name, m: Move): Action
    requires !m.Others?
  {
    match m case Own => Work(n) case WallClockEnds(how) => WallEnds(n, how) case Stop => StopAlgorithm(n)
  }

  /** A script in which nobody else moves is a run of the lockstep model, from any of its states. */
  lemma {:induction false} ScriptIsRun(c: Config, n: Name, schedule: seq<Action>, script: seq<Move>)
    requires Run(c, schedule).Some? && Alone(script)
    requires Play(Mover(c, n), Run(c, schedule).value, script).Some?
    ensures var more := seq(|script|, i requires 0 <= i < |script| => ActionOf(n, script[i]));
            Run(c, schedule + more) == Play(Mover(c, n), Run(c, schedule).value, script)
  {
    hide Apply, Moved;
    var more := seq(|script|, i requires 0 <= i < |script| => ActionOf(n, script[i]));
    if script == [] {
      assert schedule + more == schedule;
    } else {
      var k := |script| - 1;
      ScriptIsRun(c, n, schedule, script[..k]);
      var before := seq(k, i requires 0 <= i < k => ActionOf(n, script[..k][i]));
      assert (schedule + more)[..|schedule| + k] == schedule + before;
      MovesAreActions(c, n, Run(c, schedule + before).value, script[k]);
    }
  }

  /** What `n`'s thread can see of a state, besides its own. */
  function ViewOf(s: State, n: Name): State {
    State(s.clock, s.main, if n in s.workers then map[n := s.workers[n]] else map[], Head, s.devices, [], 0, false,
          {}, s.algorithmStop * {n})
  }

  /** And every action of the model, of whatever thread but its supervisor, is to this thread one of
      its moves; no other thread moves its mark. */
  lemma ActionsAreMoves(c: Config, n: Name, s: State, a: Action)
    requires s.main.Started? && n in s.workers && Apply(c, s, a).Some?
    requires a == Work(n) ==> !s.workers[n].pc.Crashed? && !s.workers[n].pc.Backoff?
    ensures exists m :: Moved(c, n, ViewOf(s, n), m) == Some(ViewOf(Apply(c, s, a).value, n))
                        && (m.Others? ==> m.clock.Mark(n) == s.clock.Mark(n))
  {
    var s' := Apply(c, s, a).value;
    var m := match a
             case Work(k) => if k == n then Own else Others(s'.clock, s'.devices)
             case WallEnds(k, how) => if k == n then WallClockEnds(how) else Others(s'.clock, s'.devices)
             case StopAlgorithm(k) => if k == n then Stop else Others(s'.clock, s'.devices)
             case _ => Others(s'.clock, s'.devices);
    match m {
    case Own => OwnShows(c, n, s);
    case WallClockEnds(how) => assert ViewOf(s', n).workers == WallStep(ViewOf(s, n), n, how).value.workers;
    case Stop => assert ViewOf(s', n) == ViewOf(s, n).(algorithmStop := ViewOf(s, n).algorithmStop + {n});
    case Others(_, _) => OthersShow(c, n, s, a);
    }
    assert Moved(c, n, ViewOf(s, n), m) == Some(ViewOf(s', n));
  }

  lemma OwnShows(c: Config, n: Name, s: State)
    requires s.main.Started? && n in s.workers && WorkStep(c, s, n).Some?
    requires !s.workers[n].pc.Crashed? && !s.workers[n].pc.Backoff?
    ensures WorkStep(c, ViewOf(s, n), n) == Some(ViewOf(WorkStep(c, s, n).value, n))
  {
    var w := s.workers[n];
    assert WorkerNext(c, ViewOf(s, n), n, w) == WorkerNext(c, s, n, w);
    assert WorkerClock(ViewOf(s, n), n, w.pc) == WorkerClock(s, n, w.pc);
    hide WorkerNext, WorkerClock;
    var next := WorkerNext(c, s, n, w).value;
    assert ViewOf(s, n).workers[n := next] == map[n := next];
  }

  lemma OthersShow(c: Config, n: Name, s: State, a: Action)
    requires s.main.Started? && n in s.workers && Apply(c, s, a).Some?
    requires a != Work(n) && a != StopAlgorithm(n) && !(a.WallEnds? && a.name == n)
    ensures var s' := Apply(c, s, a).value;
            ViewOf(s', n) == ViewOf(s, n).(clock := s'.clock, devices := s'.devices)
            && s'.clock.Mark(n) == s.clock.Mark(n)
  {
    var s' := Apply(c, s, a).value;
    if a.Work? {
      OtherWorks(c, n, s, a.name);
    }
    assert s'.algorithmStop * {n} == s.algorithmStop * {n};
  }

  lemma OtherWorks(c: Config, n: Name, s: State, k: Name)
    requires n in s.workers && k != n && WorkStep(c, s, k).Some?
    ensures var s' := WorkStep(c, s, k).value;
      && n in s'.workers && s'.workers[n] == s.workers[n] && s'.main == s.main && s'.devices == s.devices
      && s'.algorithmStop == s.algorithmStop && s'.clock.Mark(n) == s.clock.Mark(n)
  {
    hide WorkerNext;
  }

  // ----- the moves, one by one -----

  /** The thread's state apart, and what it shares. */
  function Seen(clock: ClockState, n: Name, w: Worker, devices: seq<Entry>, stopped: bool): State {
    State(clock, Started, map[n := w], Head, devices, [], 0, false, {}, if stopped then {n} else {})
  }

  /** One move of its own: what it does to the thread's state and to the clock. */
  lemma OwnMove(c: Config, n: Name, clock: ClockState, w: Worker, devices: seq<Entry>, stopped: bool)
    ensures var s := Seen(clock, n, w, devices, stopped);
            Moved(c, n, s, Own) ==
              match WorkerNext(c, s, n, w)
              case None => None
              case Some(next) => Some(Seen(WorkerClock(s, n, w.pc), n, next, devices, stopped))
  {
    hide WorkerNext, WorkerClock;
    var s := Seen(clock, n, w, devices, stopped);
    assert forall next :: map[n := w][n := next] == map[n := next];
  }

  lemma OtherMoves(c: Config, n: Name, clock: ClockState, w: Worker, devices: seq<Entry>, stopped: bool,
                   clock': ClockState, devices': seq<Entry>, how: Ending)
    ensures var s := Seen(clock, n, w, devices, stopped);
      && Moved(c, n, s, Others(clock', devices')) == Some(Seen(clock', n, w, devices', stopped))
      && Moved(c, n, s, Stop) == Some(Seen(clock, n, w, devices, true))
      && (w.pc.Wall? ==>
            Moved(c, n, s, WallClockEnds(how)) ==
            Some(Seen(clock, n, AfterMain(w.(wallRuns := w.wallRuns + 1), how, Sleeping), devices, stopped)))
  {
    var s := Seen(clock, n, w, devices, stopped);
    assert (if stopped then {n} else {}) + {n} == {n};
    assert forall next :: map[n := w][n := next] == map[n := next];
  }

  /** The mark a name has once `generation` is acknowledged. */
  function Later(mark: Option<nat>, generation: nat): nat {
    if mark.Some? && mark.value > generation then mark.value else generation
  }

  function WithMark(clock: ClockState, n: Name, mark: Option<nat>): ClockState {
    clock.(acked := if mark.Some? then clock.acked[n := mark.value] else clock.acked - {n})
  }

  class Algorithm {
    const c: Config
    const name: Name
    /** `_stepped_before_crash`. */
    var before: bool
    /** Everything that has happened to the algorithm. */
    var log: seq<Event>
    var processed: seq<nat>
    var wallRuns: nat
    /** The devices as the thread last saw them. */
    var devices: seq<Entry>
    /** How often it has looked at its stop flag, and at anything shared. */
    var stopLooks: nat
    var looks: nat
    ghost var script: seq<Move>
    ghost var stopped: bool

    constructor (c: Config, name: Name)
      ensures this.c == c && this.name == name
      ensures !before && log == [] && processed == [] && wallRuns == 0 && stopLooks == 0 && looks == 0
    {
      this.c, this.name := c, name;
      before, log, processed, wallRuns, devices, stopLooks, looks := false, [], [], 0, [], 0, 0;
      script, stopped := [], false;
    }

    /** The thread at `pc`, in the model's terms. */
    ghost function Thread(pc: Pc, stepped: bool, restarts: nat): Worker
      reads this
    {
      Worker(pc, stepped, before, restarts, log, processed, wallRuns)
    }

    /** The script has led from `start` to the thread at `pc`, and the object and the clock are as
        the model says. */
    ghost predicate At(start: State, pc: Pc, stepped: bool, restarts: nat, clock: SimulationClock)
      reads this, clock
    {
      Play(Mover(c, name), start, script)
        == Some(Seen(clock.State(), name, Thread(pc, stepped, restarts), devices, stopped))
    }

    ghost method Take(start: State, s: State, m: Move)
      requires Play(Mover(c, name), start, script) == Some(s) && Moved(c, name, s, m).Some?
      modifies this`script
      ensures Play(Mover(c, name), start, script) == Moved(c, name, s, m)
    {
      PlaySnoc(Mover(c, name), start, script, m);
      script := script + [m];
    }

    /** The other threads have been at work; none of them moves this algorithm's mark. */
    method Meet(w: World, clock: SimulationClock, ghost start: State, ghost pc: Pc, ghost stepped: bool,
                ghost restarts: nat)
      requires At(start, pc, stepped, restarts, clock)
      modifies this`looks, this`devices, this`script, clock
      ensures At(start, pc, stepped, restarts, clock) && looks == old(looks) + 1
      ensures clock.State() == WithMark(w.clock(old(looks)), name, old(clock.State().Mark(name)))
      ensures clock.simulated == w.clock(old(looks)).simulated && clock.stepTime == w.clock(old(looks)).stepTime
      ensures clock.State().Mark(name) == old(clock.State().Mark(name)) && devices == w.devices(old(looks))
    {
      hide Play, Moved;
      var now := WithMark(w.clock(looks), name, clock.State().Mark(name));
      OtherMoves(c, name, clock.State(), Thread(pc, stepped, restarts), devices, stopped, now, w.devices(looks),
                 Return);
      Take(start, Seen(clock.State(), name, Thread(pc, stepped, restarts), devices, stopped),
           Others(now, w.devices(looks)));
      clock.simulated, clock.eventTime, clock.stepTime, clock.generation, clock.acked :=
        now.simulated, now.eventTime, now.stepTime, now.generation, now.acked;
      devices := w.devices(looks);
      looks := looks + 1;
    }

    /** `is_stopping`. */
    method IsStopping(w: World, clock: SimulationClock, ghost start: State, ghost pc: Pc, ghost stepped: bool,
                      ghost restarts: nat) returns (stopping: bool)
      requires At(start, pc, stepped, restarts, clock) && (stopped ==> stopLooks >= w.patience)
      modifies this`stopLooks, this`script, this`stopped
      ensures At(start, pc, stepped, restarts, clock) && stopped == (stopping || old(stopped))
      ensures if stopping then stopLooks == old(stopLooks) >= w.patience
              else stopLooks == old(stopLooks) + 1 <= w.patience && !stopped
    {
      hide Play, Moved;
      stopping := stopLooks >= w.patience;
      if stopping {
        OtherMoves(c, name, clock.State(), Thread(pc, stepped, restarts), devices, stopped, clock.State(), devices,
                   Return);
        Take(start, Seen(clock.State(), name, Thread(pc, stepped, restarts), devices, stopped), Stop);
        stopped := true;
      } else {
        stopLooks := stopLooks + 1;
      }
    }

    /** What it does at the head of the loop. */
    ghost method GoOn(clock: SimulationClock, start: State, stepped: bool, restarts: nat)
      requires At(start, LoopHead, stepped, restarts, clock)
      modifies this`script
      ensures At(start, if stopped then Leaving else Polling, stepped, restarts, clock)
    {
      hide Play, Moved;
      Go(clock, start, LoopHead, stepped, restarts, if stopped then Leaving else Polling);
    }

    /** A step of the thread that shares nothing. */
    ghost method Go(clock: SimulationClock, start: State, pc: Pc, stepped: bool, restarts: nat, pc': Pc)
      requires At(start, pc, stepped, restarts, clock)
      requires var s := Seen(clock.State(), name, Thread(pc, stepped, restarts), devices, stopped);
               WorkerNext(c, s, name, Thread(pc, stepped, restarts)) == Some(Thread(pc', stepped, restarts))
      requires !pc.Entering? && !pc.Acking? && !pc.Leaving? && !pc.Retiring?
      modifies this`script
      ensures At(start, pc', stepped, restarts, clock)
    {
      hide Play, Moved, WorkerNext;
      OwnMove(c, name, clock.State(), Thread(pc, stepped, restarts), devices, stopped);
      Take(start, Seen(clock.State(), name, Thread(pc, stepped, restarts), devices, stopped), Own);
    }

    /** From event `n` on a log is the acts of `main()`, each on what its own look shows, the looks
        being those from `first` on. */
    ghost predicate Acted(w: World, log: seq<Event>, n: nat, first: nat) {
      forall k :: n <= k < |log| ==> ActedAt(w, log[..k], log[k], first + k - n)
    }

    ghost predicate ActedAt(w: World, log: seq<Event>, e: Event, look: nat) {
      match c.program(name, log)
      case LookAtDevices => e == Saw(w.devices(look))
      case LookAtClock => e == ReadClock(w.clock(look).stepTime)
      case Decide(command) => e == Decided(command, w.clock(look).stepTime)
      case Finish(how) => e == Ended(how)
    }

    lemma ActedGrows(w: World, log: seq<Event>, e: Event, n: nat, first: nat)
      requires n <= |log| && Acted(w, log, n, first) && ActedAt(w, log, e, first + |log| - n)
      ensures Acted(w, log + [e], n, first)
    {
      hide ActedAt;
      forall k | n <= k < |log| + 1 ensures ActedAt(w, (log + [e])[..k], (log + [e])[k], first + k - n) {
        assert (log + [e])[..k] == log[..k];
      }
    }

    lemma NothingActed(w: World, log: seq<Event>, first: nat)
      ensures Acted(w, log, |log|, first)
    {
    }

    /** One act of `main()`, on what it can see at that moment. */
    method Act(w: World, clock: SimulationClock, ghost start: State, step: Step, ghost restarts: nat)
      returns (how: Option<Ending>)
      requires At(start, Running(step), true, restarts, clock)
      modifies this`looks, this`devices, this`script, this`log, clock
      ensures At(start, if how.Some? then Acking(step, how.value) else Running(step), true, restarts, clock)
      ensures clock.State().Mark(name) == old(clock.State().Mark(name))
      ensures old(log) <= log && |log| == |old(log)| + 1 && looks == old(looks) + 1
      ensures ActedAt(w, old(log), log[|old(log)|], old(looks))
      ensures how == if log[|old(log)|].Ended? then Some(log[|old(log)|].how) else None
    {
      hide Play, Moved;
      Meet(w, clock, start, Running(step), true, restarts);
      OwnMove(c, name, clock.State(), Thread(Running(step), true, restarts), devices, stopped);
      Take(start, Seen(clock.State(), name, Thread(Running(step), true, restarts), devices, stopped), Own);
      how := None;
      match c.program(name, log) {
        case LookAtDevices => log := log + [Saw(devices)];
        case LookAtClock => log := log + [ReadClock(clock.stepTime)];
        case Decide(command) => log := log + [Decided(command, clock.stepTime)];
        case Finish(h) =>
          log := log + [Ended(h)];
          how := Some(h);
      }
    }

    /** `main()` on a step, as far as it is observed: its acts one after the other, each on what it
        can see at that moment, until it ends. */
    method RunMain(w: World, clock: SimulationClock, ghost start: State, step: Step, ghost restarts: nat)
      returns (how: Option<Ending>)
      requires At(start, Running(step), true, restarts, clock)
      modifies this`looks, this`devices, this`script, this`log, clock
      ensures how.None? ==> At(start, Running(step), true, restarts, clock)
      ensures how.Some? ==> At(start, Acking(step, how.value), true, restarts, clock)
      ensures clock.State().Mark(name) == old(clock.State().Mark(name))
      ensures old(log) <= log && looks == old(looks) + |log| - |old(log)|
      ensures Acted(w, log, |old(log)|, old(looks))
      ensures if how.Some? then log != old(log) && log[|log| - 1] == Ended(how.value)
              else |log| == |old(log)| + w.acts
    {
      hide Play, Moved, Acted, ActedAt, At, Thread;
      assert Acted(w, log, |log|, looks) by { NothingActed(w, log, looks); }
      for k := 0 to w.acts
        invariant At(start, Running(step), true, restarts, clock)
        invariant clock.State().Mark(name) == old(clock.State().Mark(name))
        invariant old(log) <= log && |log| == |old(log)| + k && looks == old(looks) + k
        invariant Acted(w, log, |old(log)|, old(looks))
      {
        ghost var earlier := log;
        how := Act(w, clock, start, step, restarts);
        assert log == earlier + [log[|earlier|]];
        ActedGrows(w, earlier, log[|earlier|], |old(log)|, old(looks));
        if how.Some? {
          return;
        }
      }
      return None;
    }

    /** The `finally` of a step, however `main()` ended. */
    method Acknowledge(w: World, clock: SimulationClock, ghost start: State, step: Step, how: Ending,
                       ghost restarts: nat)
      requires At(start, Acking(step, how), true, restarts, clock)
      modifies this`looks, this`devices, this`script, this`before, clock
      ensures match how
              case Return => At(start, LoopHead, true, restarts, clock)
              case Raise => At(start, Pc.Crashed, true, restarts, clock)
              case Exit => At(start, Leaving, true, restarts, clock)
      ensures before == (how.Raise? || old(before))
      ensures clock.State().Mark(name) == Some(Later(old(clock.State().Mark(name)), step.generation))
    {
      hide Play, Moved, WithMark;
      Meet(w, clock, start, Acking(step, how), true, restarts);
      OwnMove(c, name, clock.State(), Thread(Acking(step, how), true, restarts), devices, stopped);
      Take(start, Seen(clock.State(), name, Thread(Acking(step, how), true, restarts), devices, stopped), Own);
      clock.DoAck(name, step.generation);
      if how == Raise {
        before := true;
      }
    }

    /** One committed step: `main()`, and in every case the acknowledgement. */
    method ProcessStep(w: World, clock: SimulationClock, ghost start: State, step: Step, ghost restarts: nat)
      returns (how: Option<Ending>)
      requires At(start, Running(step), true, restarts, clock)
      modifies this`looks, this`devices, this`script, this`log, this`before, clock
      ensures match how
              case None => At(start, Running(step), true, restarts, clock)
              case Some(Return) => At(start, LoopHead, true, restarts, clock)
              case Some(Raise) => At(start, Pc.Crashed, true, restarts, clock)
              case Some(Exit) => At(start, Leaving, true, restarts, clock)
      ensures before == (how == Some(Raise) || old(before))
      ensures clock.State().Mark(name) ==
              if how.Some? then Some(Later(old(clock.State().Mark(name)), step.generation))
              else old(clock.State().Mark(name))
      ensures old(log) <= log && Acted(w, log, |old(log)|, old(looks))
      ensures if how.Some? then log != old(log) && log[|log| - 1] == Ended(how.value)
              else |log| == |old(log)| + w.acts
    {
      hide Play, Moved, Acted, Later, At;
      how := RunMain(w, clock, start, step, restarts);
      if how.Some? {
        Acknowledge(w, clock, start, step, how.value, restarts);
      }
    }

    /** The wall-clock branch. */
    method RunLive(w: World, clock: SimulationClock, ghost start: State, ghost restarts: nat) returns (how: Ending)
      requires At(start, Wall, false, restarts, clock)
      modifies this`script, this`before, this`wallRuns
      ensures wallRuns == old(wallRuns) + 1 && how == w.wall(looks)
      ensures before == (if how.Raise? then false else old(before))
      ensures match how
              case Return => At(start, LoopHead, false, restarts, clock)
              case Raise => At(start, Pc.Crashed, false, restarts, clock)
              case Exit => At(start, Leaving, false, restarts, clock)
    {
      hide Play, Moved;
      how := w.wall(looks);
      OtherMoves(c, name, clock.State(), Thread(Wall, false, restarts), devices, stopped, clock.State(), devices, how);
      Take(start, Seen(clock.State(), name, Thread(Wall, false, restarts), devices, stopped), WallClockEnds(how));
      wallRuns := wallRuns + 1;
      if how.Raise? {
        before := false;
      } else if how.Return? {
        Go(clock, start, Sleeping, false, restarts, LoopHead);
      }
    }

    /** The look at the clock that decides what an iteration is. */
    method Poll(w: World, clock: SimulationClock, ghost start: State, ghost stepped: bool, ghost restarts: nat)
      returns (step: Option<Step>)
      requires At(start, Polling, stepped, restarts, clock)
      modifies this`looks, this`devices, this`script, this`log, this`processed, clock
      ensures match step
              case None => At(start, GotNone, stepped, restarts, clock)
              case Some(st) => At(start, Running(st), true, restarts, clock)
      ensures clock.State().Mark(name) == old(clock.State().Mark(name)) && looks == old(looks) + 1
      ensures var met, mark := w.clock(old(looks)), old(clock.State().Mark(name));
        && (step.Some? <==> met.simulated && met.stepTime.Some? && mark.Some? && mark.value < met.generation)
        && (step.Some? ==> step.value == Step(met.generation, met.stepTime.value))
      ensures log == old(log) + (if step.Some? then [Began] else [])
      ensures processed == old(processed) + if step.Some? then [step.value.generation] else []
    {
      hide Play, Moved;
      Meet(w, clock, start, Polling, stepped, restarts);
      step := clock.PollStep(name);
      OwnMove(c, name, clock.State(), Thread(Polling, stepped, restarts), devices, stopped);
      Take(start, Seen(clock.State(), name, Thread(Polling, stepped, restarts), devices, stopped), Own);
      if step.Some? {
        log := log + [Began];
        processed := processed + [step.value.generation];
      }
    }

    /** The `finally` of `loop`, unless it crashed. */
    method LeaveBarrier(w: World, clock: SimulationClock, ghost start: State, ghost stepped: bool, ghost restarts: nat)
      requires At(start, Leaving, stepped, restarts, clock)
      modifies this`looks, this`devices, this`script, clock
      ensures At(start, Retiring, stepped, restarts, clock) && name !in clock.acked
    {
      hide Play, Moved;
      Meet(w, clock, start, Leaving, stepped, restarts);
      OwnMove(c, name, clock.State(), Thread(Leaving, stepped, restarts), devices, stopped);
      Take(start, Seen(clock.State(), name, Thread(Leaving, stepped, restarts), devices, stopped), Own);
      clock.DoLeave(name);
    }

    /** `retire`. */
    method Retire(w: World, clock: SimulationClock, ghost start: State, ghost stepped: bool, ghost restarts: nat)
      requires At(start, Retiring, stepped, restarts, clock)
      modifies this`looks, this`devices, this`script, this`before, clock
      ensures At(start, Retired, stepped, restarts, clock) && name !in clock.acked && !before
    {
      hide Play, Moved;
      Meet(w, clock, start, Retiring, stepped, restarts);
      OwnMove(c, name, clock.State(), Thread(Retiring, stepped, restarts), devices, stopped);
      Take(start, Seen(clock.State(), name, Thread(Retiring, stepped, restarts), devices, stopped), Own);
      before := false;
      clock.DoLeave(name);
    }

    /** Entering `loop`: the join, and what a crash before left. */
    method Enter(w: World, clock: SimulationClock, ghost start: State, ghost was: bool, ghost restarts: nat)
      returns (stepped: bool)
      requires At(start, Entering, was, restarts, clock)
      modifies this`looks, this`devices, this`script, this`before, clock
      ensures At(start, LoopHead, stepped, restarts, clock)
      ensures stepped == old(before) && !before && name in clock.acked
    {
      hide Play, Moved;
      Meet(w, clock, start, Entering, was, restarts);
      OwnMove(c, name, clock.State(), Thread(Entering, was, restarts), devices, stopped);
      Take(start, Seen(clock.State(), name, Thread(Entering, was, restarts), devices, stopped), Own);
      clock.DoJoin(name);
      stepped, before := before, false;
      Go(clock, start, Gate, stepped, restarts, LoopHead);
    }

    /** An iteration that is not a step: between steps, after the replay, or live. */
    method NoStep(w: World, clock: SimulationClock, ghost start: State, stepped: bool, ghost restarts: nat)
      returns (how: Option<Ending>)
      requires At(start, GotNone, stepped, restarts, clock) && name in clock.acked
      modifies this`looks, this`devices, this`script, this`before, this`wallRuns, clock
      ensures name in clock.acked
      ensures var met := w.clock(old(looks));
        && wallRuns == old(wallRuns) + (if !met.simulated && !stepped then 1 else 0)
        && how == if met.simulated then Some(Return) else if stepped then None else Some(w.wall(old(looks) + 1))
      ensures before == if how == Some(Raise) then false else old(before)
      ensures match how
              case None => At(start, Leaving, stepped, restarts, clock)
              case Some(Return) => At(start, LoopHead, stepped, restarts, clock)
              case Some(Raise) => At(start, Pc.Crashed, stepped, restarts, clock)
              case Some(Exit) => At(start, Leaving, stepped, restarts, clock)
    {
      hide Play, Moved, At;
      Meet(w, clock, start, GotNone, stepped, restarts);
      if clock.simulated {
        Go(clock, start, GotNone, stepped, restarts, LoopHead);
        how := Some(Return);
      } else if stepped {
        Go(clock, start, GotNone, stepped, restarts, Leaving);
        how := None;
      } else {
        Go(clock, start, GotNone, stepped, restarts, Wall);
        var h := RunLive(w, clock, start, restarts);
        how := Some(h);
      }
    }

    /** One pass of the loop, once its stop flag was found clear; None when the loop goes on. */
    method Iterate(w: World, clock: SimulationClock, ghost start: State, was: bool, ghost restarts: nat)
      returns (end: Option<LoopEnd>, stepped: bool)
      requires At(start, Polling, was, restarts, clock) && name in clock.acked && !before
      modifies this`looks, this`devices, this`script, this`log, this`processed, this`before, this`wallRuns, clock
      ensures match end
              case None => At(start, LoopHead, stepped, restarts, clock)
              case Some(Leaves) => At(start, Leaving, stepped, restarts, clock)
              case Some(Raises) => At(start, Pc.Crashed, stepped, restarts, clock)
              case Some(StillInMain(step)) => At(start, Running(step), stepped, restarts, clock)
      ensures name in clock.acked && before == (end == Some(Raises) && stepped)
      ensures was ==> stepped && wallRuns == old(wallRuns)
      ensures w.Live() && !was ==> end.None? && !stepped && processed == old(processed) && wallRuns == old(wallRuns) + 1
    {
      hide Play, Moved, At, Later, WithMark, Seen, Thread, WorkerNext, Acted, ActedAt, Mover, World.Live;
      LiveNow(w, looks);
      stepped := was;
      var how;
      var step := Poll(w, clock, start, stepped, restarts);
      if step.Some? {
        stepped := true;
        how := ProcessStep(w, clock, start, step.value, restarts);
        if how.None? {
          end := Some(StillInMain(step.value));
          return;
        }
      } else {
        how := NoStep(w, clock, start, stepped, restarts);
      }
      end := if how == Some(Return) then None else if how == Some(Raise) then Some(Raises) else Some(Leaves);
    }

    /** `loop`, from its entry. Whatever the rest of the system does, and whenever the stop comes, the
        thread has taken exactly a run of the model's steps: to its leave when it returns or exits,
        to its crash, still a participant, when it raises. With no replay it calls `main()` once for
        each time it finds its stop flag clear; a thread that has taken a step never runs live again. */
    method Loop(w: World, clock: SimulationClock, ghost start: State, ghost was: bool, ghost restarts: nat)
      returns (end: LoopEnd, stepped: bool)
      requires At(start, Entering, was, restarts, clock) && (stopped ==> stopLooks >= w.patience)
      modifies this, clock
      ensures match end
              case Leaves => At(start, Retiring, stepped, restarts, clock) && name !in clock.acked
              case Raises => At(start, Pc.Crashed, stepped, restarts, clock) && name in clock.acked
              case StillInMain(step) => At(start, Running(step), stepped, restarts, clock)
      ensures before == (end.Raises? && stepped)
      ensures old(before) ==> stepped && wallRuns == old(wallRuns)
      ensures !old(before) && w.Live() ==>
        && end.Leaves? && !stepped && processed == old(processed)
        && wallRuns == old(wallRuns) + if old(stopLooks) < w.patience then w.patience - old(stopLooks) else 0
    {
      hide Play, Moved, At, Later, WithMark, Seen, Thread, WorkerNext, Acted, ActedAt, Mover, World.Live;
      stepped := Enter(w, clock, start, was, restarts);
      while true
        invariant At(start, LoopHead, stepped, restarts, clock) && (stopped ==> stopLooks >= w.patience)
        invariant name in clock.acked && !before && stopLooks >= old(stopLooks)
        invariant old(before) ==> stepped && wallRuns == old(wallRuns)
        invariant !old(before) && w.Live() ==>
          && !stepped && processed == old(processed)
          && wallRuns - old(wallRuns) == stopLooks - old(stopLooks)
          && (stopLooks <= w.patience || stopLooks == old(stopLooks))
        decreases w.patience - stopLooks
      {
        var stopping := IsStopping(w, clock, start, LoopHead, stepped, restarts);
        GoOn(clock, start, stepped, restarts);
        if stopping {
          break;
        }
        var pass;
        pass, stepped := Iterate(w, clock, start, stepped, restarts);
        if pass.Some? {
          end := pass.value;
          if end.Leaves? {
            break;
          }
          return;
        }
      }
      LeaveBarrier(w, clock, start, stepped, restarts);
      end := Leaves;
    }
  }
}
