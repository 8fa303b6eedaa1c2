/** The replay connector as the object it is (connectors/pseudo.py): its nested loops take only the
    steps that the replay thread of the lockstep model has, in that order, so what is proved of the
    model is about this code. */
module PseudoConnector {
  import opened Options
  import opened Clock
  import opened Backtest
  import opened Lockstep
  import opened Scripts

  /** What the replay thread meets. It finds the stop event clear `patience` times; when it looks at
      its wait for the `k`-th time the participants are `acked(k)` and `expired(k)` says whether the
      deadline has passed. */
  datatype World = World(patience: nat, acked: nat -> map<Name, nat>, expired: nat -> bool)

  /** A step of the replay thread, or what happens around it. */
  datatype Move = Own | Stop | TimesOut | Others(acked: map<Name, nat>)

  function Moved(c: Config, s: State, m: Move): Option<State> {
    match m
    case Own => ReplayStep(c, s)
    case Stop => Some(s.(replayStop := true))
    case TimesOut => TimeOutStep(c, s)
    case Others(acked) => Some(s.(clock := s.clock.(acked := acked)))
  }

  function Mover(c: Config): (State, Move) -> Option<State> {
    (s: State, m: Move) => Moved(c, s, m)
  }

  /** The moves of the replay thread are actions of the lockstep model; the others only change whom
      the replay waits for. */
  lemma MovesAreActions(c: Config, s: State, m: Move)
    requires s.main.Started?
    ensures m.Own? ==> Moved(c, s, m) == Apply(c, s, Replay)
    ensures m.Stop? ==> Moved(c, s, m) == Apply(c, s, StopReplay)
    ensures m.TimesOut? ==> Moved(c, s, m) == Apply(c, s, ReplayTimesOut)
  {
  }

  predicate Alone(script: seq<Move>) {
    forall i :: 0 <= i < |script| ==> !script[i].Others?
  }

  function ActionOf(m: Move): Action
    requires !m.Others?
  {
    match m case Own => Replay case Stop => StopReplay case TimesOut => ReplayTimesOut
  }

  /** A script in which nobody else moves is a run of the lockstep model, from any of its states. */
  lemma {:induction false} ScriptIsRun(c: Config, schedule: seq<Action>, script: seq<Move>)
    requires Run(c, schedule).Some? && Run(c, schedule).value.main.Started? && Alone(script)
    requires Play(Mover(c), Run(c, schedule).value, script).Some?
    ensures var more := seq(|script|, i requires 0 <= i < |script| => ActionOf(script[i]));
      && Run(c, schedule + more) == Play(Mover(c), Run(c, schedule).value, script)
      && Run(c, schedule + more).value.main.Started?
  {
    hide Apply, Moved;
    var more := seq(|script|, i requires 0 <= i < |script| => ActionOf(script[i]));
    if script == [] {
      assert schedule + more == schedule;
    } else {
      var n := |script| - 1;
      ScriptIsRun(c, schedule, script[..n]);
      var before := seq(n, i requires 0 <= i < n => ActionOf(script[..n][i]));
      assert (schedule + more)[..|schedule| + n] == schedule + before;
      var s := Run(c, schedule + before).value;
      MovesAreActions(c, s, script[n]);
      MovesStay(c, s, script[n]);
    }
  }

  lemma MovesStay(c: Config, s: State, m: Move)
    requires Moved(c, s, m).Some?
    ensures Moved(c, s, m).value.main == s.main
  {
  }

  /** What the replay thread can see of a state. */
  function ReplayOf(s: State): State {
    s.(workers := map[], supervisorStop := {}, algorithmStop := {})
  }

  /** And every action of the model, of whatever thread, is to the replay thread one of its moves. */
  lemma ActionsAreMoves(c: Config, s: State, a: Action)
    requires s.main.Started? && Apply(c, s, a).Some?
    ensures exists m :: Moved(c, ReplayOf(s), m) == Some(ReplayOf(Apply(c, s, a).value))
  {
    hide ReplayStep, TimeOutStep, WorkStep, WallStep, MainStep;
    var s' := Apply(c, s, a).value;
    var m := match a case Replay => Own case ReplayTimesOut => TimesOut case StopReplay => Stop
             case _ => Others(s'.clock.acked);
    match m {
      case Own => OwnShows(c, s);
      case TimesOut => ExpiryShows(c, s);
      case Stop =>
      case Others(_) => OthersShow(c, s, a);
    }
    assert Moved(c, ReplayOf(s), m) == Some(ReplayOf(s'));
  }

  lemma OwnShows(c: Config, s: State)
    requires ReplayStep(c, s).Some?
    ensures ReplayStep(c, ReplayOf(s)) == Some(ReplayOf(ReplayStep(c, s).value))
  {
  }

  lemma ExpiryShows(c: Config, s: State)
    requires TimeOutStep(c, s).Some?
    ensures TimeOutStep(c, ReplayOf(s)) == Some(ReplayOf(TimeOutStep(c, s).value))
  {
  }

  lemma OthersShow(c: Config, s: State, a: Action)
    requires s.main.Started? && Apply(c, s, a).Some?
    requires !a.Replay? && !a.ReplayTimesOut? && !a.StopReplay?
    ensures var s' := Apply(c, s, a).value;
            ReplayOf(s') == ReplayOf(s).(clock := s.clock.(acked := s'.clock.acked))
  {
    hide WorkerNext;
  }

  /** The moves out of the wait. */
  lemma AwaitMoves(c: Config, s: State, acked: map<Name, nat>)
    requires s.replay.Await?
    ensures Moved(c, s, Others(acked)) == Some(s.(clock := s.clock.(acked := acked)))
    ensures NonePending(s.clock) || s.replayStop ==>
              Moved(c, s, Own) == Some(s.(replay := At(s.replay.i + 1)))
    ensures c.timeouts && !NonePending(s.clock) && !s.replayStop ==>
              Moved(c, s, TimesOut) == Some(s.(replay := At(s.replay.i + 1), late := s.late + 1))
  {
  }

  /** Everybody has finished step `generation`. */
  predicate Settled(acked: map<Name, nat>, generation: nat) {
    forall n <- acked :: acked[n] >= generation
  }

  /** Entry `i` is the last of its timestep. */
  predicate EndsStep(entries: seq<Entry>, i: nat)
    requires i < |entries|
  {
    i + 1 < |entries| ==> entries[i + 1].timestamp != entries[i].timestamp
  }

  /** How many timesteps end within the first `n` entries. */
  function StepsIn(entries: seq<Entry>, n: nat): nat
    requires n <= |entries|
  {
    if n == 0 then 0 else StepsIn(entries, n - 1) + if EndsStep(entries, n - 1) then 1 else 0
  }

  lemma SettledMeans(clock: ClockState)
    ensures NonePending(clock) <==> Settled(clock.acked, clock.generation)
  {
  }

  class PseudoConnector {
    const c: Config
    const speed: real
    var devices: seq<Entry>
    var stored: seq<Reading>
    var lateSteps: nat
    /** How often the thread has looked at the stop event or at its wait. */
    var looks: nat
    ghost var script: seq<Move>

    constructor (c: Config, speed: real)
      ensures this.c == c && this.speed == speed
      ensures devices == [] && stored == [] && lateSteps == 0 && looks == 0 && script == []
    {
      this.c, this.speed := c, speed;
      devices, stored, lateSteps, looks, script := [], [], 0, 0, [];
    }

    /** The replay thread about to start, in the model's terms. */
    ghost function Ready(clock: SimulationClock): State
      reads this, clock
    {
      State(clock.State(), Started, map[], Head, devices, stored, lateSteps, false, {}, {})
    }

    /** The script has led from `start` to `s`, and the object and the clock are as `s` says. */
    ghost predicate At(start: State, s: State, clock: SimulationClock)
      reads this, clock
    {
      && Play(Mover(c), start, script) == Some(s)
      && s.clock == clock.State() && s.devices == devices && s.stored == stored && s.late == lateSteps
    }

    ghost method Take(start: State, s: State, m: Move) returns (s': State)
      requires Play(Mover(c), start, script) == Some(s) && Moved(c, s, m).Some?
      modifies this`script
      ensures s' == Moved(c, s, m).value && Play(Mover(c), start, script) == Some(s')
    {
      PlaySnoc(Mover(c), start, script, m);
      script := script + [m];
      s' := Moved(c, s, m).value;
    }

    /** A step that changes nothing shared. */
    ghost method Go(start: State, s: State, clock: SimulationClock) returns (s': State)
      requires At(start, s, clock) && Moved(c, s, Own).Some?
      requires Moved(c, s, Own).value == s.(replay := Moved(c, s, Own).value.replay)
      modifies this`script
      ensures At(start, s', clock) && s' == Moved(c, s, Own).value
    {
      hide Play, Moved;
      s' := Take(start, s, Own);
    }

    /** `clock.reset()`, at the end of the replay. */
    method ResetClock(ghost start: State, ghost s: State, clock: SimulationClock) returns (ghost s': State)
      requires At(start, s, clock) && s.replay.Resetting?
      modifies this`script, clock
      ensures At(start, s', clock) && s' == s.(replay := Done, clock := Reset(s.clock))
      ensures !clock.simulated && clock.eventTime == None && clock.stepTime == None
      ensures clock.generation == old(clock.generation)
    {
      hide Play, Moved;
      PassMoves(c, s);
      s' := Take(start, s, Own);
      clock.DoReset();
    }

    /** The other threads have changed the participants. */
    method Meet(acked: map<Name, nat>, ghost start: State, ghost s: State, clock: SimulationClock)
      returns (ghost s': State)
      requires At(start, s, clock) && s.replay.Await?
      modifies this`script, clock
      ensures At(start, s', clock) && s' == s.(clock := s.clock.(acked := acked))
      ensures clock.State() == old(clock.State()).(acked := acked)
    {
      hide Play, Moved;
      AwaitMoves(c, s, acked);
      s' := Take(start, s, Others(acked));
      clock.acked := acked;
    }

    /** The wait has expired: one more late step. */
    method CountLate(ghost start: State, ghost s: State, clock: SimulationClock) returns (ghost s': State)
      requires At(start, s, clock) && s.replay.Await? && c.timeouts && !NonePending(s.clock) && !s.replayStop
      modifies this`script, this`lateSteps
      ensures At(start, s', clock) && lateSteps == old(lateSteps) + 1
      ensures s' == s.(replay := Lockstep.At(s.replay.i + 1), late := s.late + 1)
    {
      hide Play, Moved, NonePending;
      AwaitMoves(c, s, clock.acked);
      s' := Take(start, s, TimesOut);
      lateSteps := lateSteps + 1;
    }

    /** `is_stopping`. */
    method IsStopping(w: World, ghost start: State, ghost s: State, clock: SimulationClock)
      returns (stopping: bool, ghost s': State)
      requires At(start, s, clock) && (s.replayStop ==> looks >= w.patience)
      modifies this`looks, this`script
      ensures At(start, s', clock) && s' == (if stopping then s.(replayStop := true) else s)
      ensures stopping <==> s'.replayStop
      ensures if stopping then looks == old(looks) >= w.patience else looks == old(looks) + 1 <= w.patience
    {
      hide Play, ReplayStep, TimeOutStep;
      s' := s;
      stopping := looks >= w.patience;
      if stopping {
        s' := Take(start, s, Stop);
      } else {
        looks := looks + 1;
      }
    }

    /** Look `k` of a wait for step `generation` finds nothing to end it. */
    ghost predicate StillWaits(w: World, k: nat, generation: nat) {
      k < w.patience && !Settled(w.acked(k), generation) && !(c.timeouts && w.expired(k))
    }

    /** `_await_algorithms`: `wait_for_completion`, and counting a late step. Before each look the
        other threads have changed the participants. The wait ends at the first look that finds
        everybody done, or the stop event set, or the deadline past; only the last is late. */
    method AwaitAlgorithms(w: World, ghost start: State, ghost s: State, clock: SimulationClock)
      returns (ghost s': State)
      requires At(start, s, clock) && s.replay.Await? && (s.replayStop ==> looks >= w.patience)
      modifies this`looks, this`lateSteps, this`script, clock
      ensures At(start, s', clock) && s'.replay == Lockstep.At(s.replay.i + 1)
      ensures s'.replayStop ==> looks >= w.patience
      ensures old(looks) <= looks && s'.devices == s.devices
      ensures clock.State() == old(clock.State()).(acked := clock.acked)
      ensures old(lateSteps) <= lateSteps <= old(lateSteps) + 1 && lateSteps - old(lateSteps) <= looks - old(looks)
      ensures var last := looks - (lateSteps - old(lateSteps));
        && (forall k: nat :: old(looks) <= k < last ==> StillWaits(w, k, clock.generation))
        && clock.acked == w.acked(last)
        && (lateSteps == old(lateSteps) <==> Settled(w.acked(last), clock.generation) || last >= w.patience)
        && (lateSteps > old(lateSteps) ==> c.timeouts && w.expired(last))
    {
      hide Play, Moved, NonePending, At, Settled;
      s' := s;
      while true
        invariant At(start, s', clock) && s'.replay == s.replay && (s'.replayStop ==> looks >= w.patience)
        invariant old(looks) <= looks && s'.devices == s.devices && lateSteps == old(lateSteps)
        invariant clock.State() == old(clock.State()).(acked := clock.acked)
        invariant forall k: nat :: old(looks) <= k < looks ==> StillWaits(w, k, clock.generation)
        decreases w.patience - looks
      {
        s' := Meet(w.acked(looks), start, s', clock);
        AwaitMoves(c, s', s'.clock.acked);
        SettledMeans(s'.clock);
        assert clock.State() == s'.clock by { Holds(start, s', clock); }
        if NonePending(clock.State()) {
          s' := Go(start, s', clock);
          return;
        }
        var expired := w.expired(looks);
        var stopping;
        stopping, s' := IsStopping(w, start, s', clock);
        if stopping {
          AwaitMoves(c, s', s'.clock.acked);
          s' := Go(start, s', clock);
          return;
        }
        if c.timeouts && expired {
          s' := CountLate(start, s', clock);
          return;
        }
      }
    }

    lemma Holds(start: State, s: State, clock: SimulationClock)
      requires At(start, s, clock)
      ensures s.clock == clock.State() && s.devices == devices && s.stored == stored && s.late == lateSteps
    {
    }

    /** `deliver`, and storing what was accepted. */
    method DeliverEntry(i: nat, ghost start: State, ghost s: State, clock: SimulationClock) returns (ghost s': State)
      requires i < |c.entries| && At(start, s, clock) && s.replay == Deliver(i)
      modifies this`devices, this`stored, this`script
      ensures At(start, s', clock) && s'.replay == Commit(i) && s'.replayStop == s.replayStop
      ensures devices == old(devices) + [c.entries[i]]
      ensures stored == old(stored) + if c.verdict(old(devices), c.entries[i]).Accepted?
                                      then [Reading(c.entries[i], EventTime(clock.State()))] else []
    {
      hide Play, Moved;
      var e := c.entries[i];
      DispatchMoves(c, s);
      s' := Take(start, s, Own);
      var verdict := c.verdict(devices, e);
      devices := devices + [e];
      if verdict == Accepted {
        DispatchMoves(c, s');
        s' := Take(start, s', Own);
        stored := stored + [Reading(e, EventTime(clock.State()))];
      }
    }

    /** One entry: its time, its delivery, and the commit and the wait when it ends its timestep. */
    method Dispatch(i: nat, w: World, ghost start: State, ghost s: State, clock: SimulationClock)
      returns (ghost s': State)
      requires i < |c.entries| && At(start, s, clock) && s.replay == Lockstep.At(i) && !s.replayStop
      modifies this`devices, this`stored, this`looks, this`lateSteps, this`script, clock
      ensures At(start, s', clock) && s'.replay == Lockstep.At(i + 1)
      ensures s'.replayStop ==> looks >= w.patience
      ensures old(looks) <= looks && devices == old(devices) + [c.entries[i]]
      ensures stored == old(stored) + if c.verdict(old(devices), c.entries[i]).Accepted?
                                      then [Reading(c.entries[i], Some(c.entries[i].timestamp))] else []
      ensures clock.generation == old(clock.generation) + if EndsStep(c.entries, i) then 1 else 0
    {
      hide Play, Moved;
      var e := c.entries[i];
      DispatchMoves(c, s);
      s' := Take(start, s, Own);
      clock.DoSetEventTime(Some(e.timestamp));
      DispatchMoves(c, s');
      s' := Take(start, s', Own);
      s' := DeliverEntry(i, start, s', clock);
      s' := CommitEntry(i, w, start, s', clock);
    }

    /** The end of an entry: the commit and the wait, when its timestep ends with it. */
    method CommitEntry(i: nat, w: World, ghost start: State, ghost s: State, clock: SimulationClock)
      returns (ghost s': State)
      requires i < |c.entries| && At(start, s, clock) && s.replay == Commit(i) && !s.replayStop
      modifies this`looks, this`lateSteps, this`script, clock
      ensures At(start, s', clock) && s'.replay == Lockstep.At(i + 1)
      ensures s'.replayStop ==> looks >= w.patience
      ensures old(looks) <= looks
      ensures if EndsStep(c.entries, i)
              then clock.State() == PublishStep(old(clock.State()), c.entries[i].timestamp).(acked := clock.acked)
              else clock.State() == old(clock.State()) && looks == old(looks)
    {
      hide Play, Moved;
      DispatchMoves(c, s);
      s' := Take(start, s, Own);
      if i + 1 == |c.entries| || c.entries[i + 1].timestamp != c.entries[i].timestamp {
        clock.DoPublishStep(c.entries[i].timestamp);
        s' := AwaitAlgorithms(w, start, s', clock);
      }
    }

    /** The `for` over the entries. */
    method Pass(w: World, ghost start: State, ghost s: State, clock: SimulationClock) returns (ghost s': State)
      requires |c.entries| > 0 && At(start, s, clock) && s.replay == Lockstep.At(0) && !s.replayStop
      modifies this`devices, this`stored, this`looks, this`lateSteps, this`script, clock
      ensures At(start, s', clock) && s'.replay.After? && (s'.replayStop ==> looks >= w.patience)
      ensures old(looks) <= looks
      ensures exists n :: 0 <= n <= |c.entries| && devices == old(devices) + c.entries[..n]
                          && (n < |c.entries| ==> s'.replayStop)
                          && clock.generation == old(clock.generation) + StepsIn(c.entries, n)
      ensures old(stored) == Readings(c, old(devices)) ==> stored == Readings(c, devices)
    {
      hide Play, Moved, EndsStep, At;
      s' := s;
      assert devices == old(devices) + c.entries[..0];
      var i := 0;
      while i < |c.entries|
        invariant 0 <= i <= |c.entries| && At(start, s', clock) && s'.replay == Lockstep.At(i)
        invariant s'.replayStop ==> looks >= w.patience
        invariant old(looks) <= looks && devices == old(devices) + c.entries[..i]
        invariant clock.generation == old(clock.generation) + StepsIn(c.entries, i)
        invariant old(stored) == Readings(c, old(devices)) ==> stored == Readings(c, devices)
      {
        ghost var before := devices;
        var stopping;
        stopping, s' := IsStopping(w, start, s', clock);
        if !stopping && i > 0 && speed > 0.0 && c.entries[i].timestamp > c.entries[i - 1].timestamp {
          stopping, s' := IsStopping(w, start, s', clock);  // `wait_stop`
        }
        if stopping {
          PassMoves(c, s');
          s' := Go(start, s', clock);
          return;
        }
        s' := Dispatch(i, w, start, s', clock);
        assert devices[..|before|] == before;
        assert c.entries[..i + 1] == c.entries[..i] + [c.entries[i]];
        i := i + 1;
      }
      PassMoves(c, s');
      s' := Go(start, s', clock);
    }

    /** `start`. Without entries it returns at once. Otherwise, whatever the other threads and the
        deadlines do, and whenever the stop comes, the thread has taken exactly a run of the model's
        steps, to the end of it. What it stores are the readings of what it delivers. A replay that was
        not stopped was not looping: it has delivered its whole file, committed each of its timesteps
        once, and reset the clock. */
    method Start(w: World, clock: SimulationClock) returns (ghost last: State)
      modifies this`devices, this`stored, this`looks, this`lateSteps, this`script, clock
      ensures At(old(Ready(clock)), last, clock)
      ensures c.entries == [] ==> last == old(Ready(clock))
      ensures c.entries != [] ==> last.replay.Done? && (last.replayStop ==> looks >= w.patience)
      ensures c.entries != [] && !last.replayStop ==>
                && !c.looping && devices == old(devices) + c.entries
                && clock.generation == old(clock.generation) + StepsIn(c.entries, |c.entries|)
                && !clock.simulated && clock.eventTime == None && clock.stepTime == None
      ensures old(stored) == Readings(c, old(devices)) ==> stored == Readings(c, devices)
    {
      hide Play, Moved, At, Readings, StepsIn;
      ghost var start := Ready(clock);
      last := Begin(clock);
      if c.entries == [] {
        return;
      }
      ghost var passed := false;
      while true
        invariant At(start, last, clock) && last.replay.Head? && (last.replayStop ==> looks >= w.patience)
        invariant !passed ==> devices == old(devices) && clock.generation == old(clock.generation)
        invariant old(stored) == Readings(c, old(devices)) ==> stored == Readings(c, devices)
        invariant passed ==> c.looping
        decreases w.patience - looks
      {
        var stopping;
        stopping, last := IsStopping(w, start, last, clock);
        PassMoves(c, last);
        last := Go(start, last, clock);
        if stopping {
          return;
        }
        last := Pass(w, start, last, clock);
        stopping, last := IsStopping(w, start, last, clock);
        PassMoves(c, last);
        last := Go(start, last, clock);
        if stopping || !c.looping {
          last := ResetClock(start, last, clock);
          return;
        }
        passed := true;
      }
    }

    ghost method Begin(clock: SimulationClock) returns (start: State)
      modifies this`script
      ensures start == old(Ready(clock)) && At(start, start, clock)
    {
      start := Ready(clock);
      script := [];
    }
  }

  /** The moves of the loops themselves. */
  lemma PassMoves(c: Config, s: State)
    requires s.replay.Head? || (s.replay.At? && (s.replayStop || s.replay.i >= |c.entries|)) || s.replay.After?
             || s.replay.Resetting?
    ensures Moved(c, s, Own) == Some(
      match s.replay
      case Head => s.(replay := if s.replayStop then Done else At(0))
      case At(_) => s.(replay := After)
      case After => s.(replay := if s.replayStop || !c.looping then Resetting else Head)
      case _ => s.(replay := Done, clock := Reset(s.clock)))
  {
  }

  /** The moves that dispatch one entry. */
  lemma DispatchMoves(c: Config, s: State)
    requires (s.replay.At? && !s.replayStop) || s.replay.EventTimeOf? || s.replay.Deliver? || s.replay.Store?
             || s.replay.Commit?
    requires s.replay.i < |c.entries|
    ensures var i, e := s.replay.i, c.entries[s.replay.i];
      Moved(c, s, Own) == Some(
        match s.replay
        case EventTimeOf(_) => s.(replay := Deliver(i), clock := SetEventTime(s.clock, Some(e.timestamp)))
        case Deliver(_) =>
          s.(devices := s.devices + [e], replay := if c.verdict(s.devices, e) == Accepted then Store(i) else Commit(i))
        case Store(_) => s.(stored := s.stored + [Reading(e, EventTime(s.clock))], replay := Commit(i))
        case Commit(_) =>
          if i + 1 < |c.entries| && c.entries[i + 1].timestamp == e.timestamp then s.(replay := At(i + 1))
          else s.(replay := Await(i), clock := PublishStep(s.clock, e.timestamp))
        case _ => s.(replay := EventTimeOf(i)))
  {
  }
}
