/** The lockstep replay as a transition system: the main thread constructing plugins, the replay
    thread (`PseudoConnector.start`), and one thread per algorithm running `Algorithm.loop` under
    `SupervisedWorker._run`.

    A state holds every program counter and everything the threads share. `Apply` is one atomic
    step of one thread: a critical section of the clock, a read of a stop flag, a delivery, or one
    act of an algorithm's `main()`. A schedule is any sequence of actions; what is proved of every
    schedule is proved of every interleaving. */
module Lockstep {
  import opened Options
  import opened Clock
  import opened Backtest

  /** Where an algorithm's thread is. */
  datatype Pc =
    | Idle                             // constructed; its thread has not run yet
    | Entering                         // `_run` calls the target
    | Gate                             // joined; in `_wait_for_required_devices`
    | LoopHead
    | Polling                          // in `wait_for_step`
    | GotNone                          // `wait_for_step` returned None
    | Running(step: Step)              // in `main()`, for a timestep
    | Acking(step: Step, how: Ending)  // `main()` ended; the `finally` is about to acknowledge
    | Wall                             // in `main()`, on the wall-clock branch
    | Sleeping
    | Leaving                          // returning or exiting; the `finally` is about to leave
    | Crashed                          // the exception reached `_run`
    | Backoff
    | Retiring                         // `retire()` is about to leave
    | Retired                          // retired, not yet marked finished
    | Finished

  /** `stepped` and `before` are `stepped` and `_stepped_before_crash`; `log`, `processed` and
      `wallRuns` record what happened: all events, the generations taken, the wall-clock runs. */
  datatype Worker = Worker(
    pc: Pc,
    stepped: bool,
    before: bool,
    restarts: nat,
    log: seq<Event>,
    processed: seq<nat>,
    wallRuns: nat)

  /** Where the replay thread is. */
  datatype ReplayPc =
    | Head                    // `while not self.is_stopping()`
    | At(i: nat)              // `for i, entry`: about to look at the stop flag
    | EventTimeOf(i: nat)
    | Deliver(i: nat)
    | Store(i: nat)           // accepted and published; about to write the reading
    | Commit(i: nat)
    | Await(i: nat)           // in `wait_for_completion`
    | After                   // the `for` is over
    | Resetting
    | Done

  /** Where the main thread is while it constructs the algorithms, one `_construct` at a time. */
  datatype MainPc =
    | Building(k: nat)
    | Constructing(k: nat, seen: set<Name>)
    | Constructed(k: nat, seen: set<Name>)  // the constructor has joined
    | Started

  datatype State = State(
    clock: ClockState,
    main: MainPc,
    workers: map<Name, Worker>,
    replay: ReplayPc,
    devices: seq<Entry>,
    stored: seq<Reading>,
    late: nat,
    replayStop: bool,
    supervisorStop: set<Name>,
    algorithmStop: set<Name>)

  datatype Action =
    | BuildNext | ConstructorJoins | ConstructorReturns | ConstructorRaises | StartAll
    | Replay
    | ReplayTimesOut
    | StopReplay
    | StopSupervisor(name: Name)
    | StopAlgorithm(name: Name)
    | Work(name: Name)
    | WallEnds(name: Name, how: Ending)

  /** `PseudoConnector.__init__` has declared the simulation; no algorithm exists yet. */
  function Initial(): State {
    State(StartSimulation(FRESH), Building(0), map[], Head, [], [], 0, false, {}, {})
  }

  // --- the main thread ----------------------------------------------------------

  function MainStep(c: Config, s: State, a: Action): Option<State> {
    match (s.main, a)
    case (Building(k), BuildNext) =>
      if k < |c.algorithms| then Some(s.(main := Constructing(k, s.clock.acked.Keys))) else None
    case (Building(k), StartAll) =>
      if k >= |c.algorithms| then Some(s.(main := Started)) else None
    case (Constructing(k, seen), ConstructorJoins) =>
      if k < |c.algorithms|
      then Some(s.(main := Constructed(k, seen), clock := Join(s.clock, c.algorithms[k])))
      else None
    case (Constructing(k, seen), ConstructorRaises) =>
      Some(s.(main := Building(k + 1), clock := Withdraw(s.clock, seen)))
    case (Constructed(k, seen), ConstructorRaises) =>
      Some(s.(main := Building(k + 1), clock := Withdraw(s.clock, seen)))
    case (Constructed(k, seen), ConstructorReturns) =>
      if k < |c.algorithms|
      then Some(s.(main := Building(k + 1),
                   workers := s.workers[c.algorithms[k] := Worker(Idle, false, false, 0, [], [], 0)]))
      else None
    case _ => None
  }

  // --- the replay thread ----------------------------------------------------------

  /** One step of `PseudoConnector.start`. A wait that is not over has no step. */
  function ReplayStep(c: Config, s: State): Option<State> {
    var n := |c.entries|;
    match s.replay
    case Head => Some(s.(replay := if s.replayStop then Done else At(0)))
    case At(i) => Some(s.(replay := if i >= n || s.replayStop then After else EventTimeOf(i)))
    case EventTimeOf(i) =>
      if i >= n then None
      else Some(s.(replay := Deliver(i), clock := SetEventTime(s.clock, Some(c.entries[i].timestamp))))
    case Deliver(i) =>
      if i >= n then None
      else
        var e := c.entries[i];
        Some(s.(devices := s.devices + [e],
                replay := if c.verdict(s.devices, e) == Accepted then Store(i) else Commit(i)))
    case Store(i) =>
      if i >= n then None
      else Some(s.(stored := s.stored + [Reading(c.entries[i], EventTime(s.clock))],
                   replay := Commit(i)))
    case Commit(i) =>
      if i >= n then None
      else if i + 1 < n && c.entries[i + 1].timestamp == c.entries[i].timestamp
      then Some(s.(replay := At(i + 1)))
      else Some(s.(replay := Await(i), clock := PublishStep(s.clock, c.entries[i].timestamp)))
    case Await(i) =>
      if NonePending(s.clock) || s.replayStop then Some(s.(replay := At(i + 1))) else None
    case After =>
      Some(s.(replay := if s.replayStop || !c.looping then Resetting else Head))
    case Resetting => Some(s.(replay := Done, clock := Reset(s.clock)))
    case Done => None
  }

  /** The wait expires with somebody still pending. */
  function TimeOutStep(c: Config, s: State): Option<State> {
    if s.replay.Await? && c.timeouts && !NonePending(s.clock) && !s.replayStop
    then Some(s.(replay := At(s.replay.i + 1), late := s.late + 1))
    else None
  }

  predicate NonePending(clock: ClockState) {
    forall n <- clock.acked :: clock.acked[n] >= clock.generation
  }

  // --- an algorithm's thread --------------------------------------------------------

  function WithPc(w: Worker, pc: Pc): Worker {
    w.(pc := pc)
  }

  /** Where a `main()` that ended with `how` continues, once what it owes is acknowledged. */
  function AfterMain(w: Worker, how: Ending, back: Pc): Worker {
    match how
    case Return => WithPc(w, back)
    case Raise => w.(pc := Crashed, before := w.stepped)
    case Exit => WithPc(w, Leaving)
  }

  /** One act of `main()`, on what the algorithm can see at this moment. */
  function ActStep(c: Config, s: State, n: Name, w: Worker, step: Step): Worker {
    match c.program(n, w.log)
    case LookAtDevices => w.(log := w.log + [Saw(s.devices)])
    case LookAtClock => w.(log := w.log + [ReadClock(s.clock.stepTime)])
    case Decide(command) => w.(log := w.log + [Decided(command, s.clock.stepTime)])
    case Finish(how) => w.(log := w.log + [Ended(how)], pc := Acking(step, how))
  }

  /** What one step of `n`'s thread does to its own state, given what it shares. */
  function WorkerNext(c: Config, s: State, n: Name, w: Worker): Option<Worker> {
    match w.pc
    case Idle => if s.main.Started? then Some(WithPc(w, Entering)) else None
    case Entering => Some(w.(pc := Gate, stepped := w.before, before := false))
    case Gate => Some(WithPc(w, LoopHead))
    case LoopHead => Some(WithPc(w, if n in s.algorithmStop then Leaving else Polling))
    case Polling =>
      Some(match WaitForStep(s.clock, n)
           case None => WithPc(w, GotNone)
           case Some(step) =>
             w.(pc := Running(step), stepped := true, log := w.log + [Began],
                processed := w.processed + [step.generation]))
    case GotNone =>
      Some(WithPc(w, if s.clock.simulated then LoopHead else if w.stepped then Leaving else Wall))
    case Running(step) => Some(ActStep(c, s, n, w, step))
    case Acking(step, how) => Some(AfterMain(w, how, LoopHead))
    case Wall => None  // ends by its own action
    case Sleeping => Some(WithPc(w, LoopHead))
    case Leaving => Some(WithPc(w, Retiring))
    case Crashed =>
      Some(if n in s.supervisorStop || !c.restartEnabled || w.restarts >= c.maxRestarts
           then WithPc(w, Retiring)
           else w.(pc := Backoff, restarts := w.restarts + 1))
    case Backoff => Some(WithPc(w, if n in s.supervisorStop then Retiring else Entering))
    case Retiring => Some(w.(pc := Retired, before := false))
    case Retired => Some(WithPc(w, Finished))
    case Finished => None
  }

  /** What the same step does to the clock. */
  function WorkerClock(s: State, n: Name, pc: Pc): ClockState {
    match pc
    case Entering => Join(s.clock, n)
    case Acking(step, _) => Ack(s.clock, n, step.generation)
    case Leaving => Leave(s.clock, n)
    case Retiring => Leave(s.clock, n)
    case _ => s.clock
  }

  function WorkStep(c: Config, s: State, n: Name): Option<State> {
    if n !in s.workers then None
    else match WorkerNext(c, s, n, s.workers[n])
      case None => None
      case Some(w) =>
        Some(s.(workers := s.workers[n := w], clock := WorkerClock(s, n, s.workers[n].pc)))
  }

  function WallStep(s: State, n: Name, how: Ending): Option<State> {
    if n in s.workers && s.workers[n].pc.Wall?
    then
      var w := s.workers[n].(wallRuns := s.workers[n].wallRuns + 1);
      Some(s.(workers := s.workers[n := AfterMain(w, how, Sleeping)]))
    else None
  }

  // --- runs ---------------------------------------------------------------------------

  /** One atomic step; None when the action is not possible in `s`. */
  function Apply(c: Config, s: State, a: Action): Option<State> {
    match a
    case Replay => if s.main.Started? then ReplayStep(c, s) else None
    case ReplayTimesOut => TimeOutStep(c, s)
    case StopReplay => Some(s.(replayStop := true))
    case StopSupervisor(n) => Some(s.(supervisorStop := s.supervisorStop + {n}))
    case StopAlgorithm(n) => Some(s.(algorithmStop := s.algorithmStop + {n}))
    case Work(n) => WorkStep(c, s, n)
    case WallEnds(n, how) => WallStep(s, n, how)
    case _ => MainStep(c, s, a)
  }

  /** The state a schedule leads to; None when some action of it is not possible. */
  function Run(c: Config, schedule: seq<Action>): Option<State> {
    if schedule == [] then Some(Initial())
    else match Run(c, schedule[..|schedule| - 1])
      case None => None
      case Some(s) => Apply(c, s, schedule[|schedule| - 1])
  }
}
