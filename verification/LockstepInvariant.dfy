/** What every step of the lockstep protocol keeps. */
module LockstepInvariant {
  import opened Options
  import opened Clock
  import opened Backtest
  import opened Lockstep
  import opened Sequences

  // --- one worker, in every run -----------------------------------------------

  /** This thread has not reached its last `leave` yet. */
  predicate Participates(pc: Pc) {
    !pc.Retiring? && !pc.Retired? && !pc.Finished?
  }

  predicate Stepping(pc: Pc) {
    pc.Running? || pc.Acking?
  }

  /** Between `join` and `leave` in `Algorithm.loop`. */
  predicate InLoop(pc: Pc) {
    match pc
    case Idle | Entering | Crashed | Backoff | Retiring | Retired | Finished => false
    case _ => true
  }

  function Last(processed: seq<nat>): nat {
    if processed == [] then 0 else processed[|processed| - 1]
  }

  /** What holds of a worker whatever the timing: its mark is behind the generation; the
      generations it takes increase and run ahead of its mark only while it works on one; it
      remembers across crashes whether it has stepped; it takes the wall-clock branch only if it
      never stepped. */
  ghost predicate WorkerSafe(w: Worker, mark: Option<nat>, generation: nat, simulated: bool) {
    && (Participates(w.pc) ==> mark.Some?)
    && (mark.Some? ==> !w.pc.Retired? && !w.pc.Finished? && mark.value <= generation)
    && Ascending(w.processed)
    && (forall k :: 0 <= k < |w.processed| ==> 0 < w.processed[k] <= generation)
    && (Stepping(w.pc) ==> w.processed != [] && Last(w.processed) == w.pc.step.generation
                           && mark.value < w.pc.step.generation)
    && (!Stepping(w.pc) && mark.Some? ==> Last(w.processed) <= mark.value)
    && (InLoop(w.pc) ==> w.stepped == (w.processed != []))
    && (Participates(w.pc) && !InLoop(w.pc) ==> w.before == (w.processed != []))
    && (w.pc.Wall? || w.pc.Sleeping? || w.wallRuns > 0 ==> w.processed == [] && !simulated)
  }

  // --- the main thread -----------------------------------------------------------

  /** While algorithms are being constructed, exactly the constructed ones are participants, and
      the one under construction if it has joined. */
  ghost predicate MainInv(c: Config, s: State) {
    var built := s.workers.Keys;
    (match s.main
     case Building(k) =>
       && k <= |c.algorithms| && s.clock.acked.Keys == built && BuiltFrom(c, built, k)
     case Constructing(k, seen) =>
       && k < |c.algorithms| && seen == s.clock.acked.Keys == built && BuiltFrom(c, built, k)
     case Constructed(k, seen) =>
       && k < |c.algorithms| && seen == built && BuiltFrom(c, built, k)
       && s.clock.acked.Keys == built + {c.algorithms[k]}
     case Started =>
       s.clock.acked.Keys <= built && forall n :: n in built ==> n in c.algorithms)
    && (!s.main.Started? ==>
          && s.replay.Head?
          && s.clock.generation == 0
          && (forall n :: n in s.clock.acked ==> s.clock.acked[n] == 0)
          && (forall n :: n in s.workers ==> s.workers[n].pc.Idle?))
  }

  ghost predicate BuiltFrom(c: Config, built: set<Name>, k: nat) {
    k <= |c.algorithms| && forall n :: n in built ==> n in c.algorithms[..k]
  }

  // --- the replay thread -----------------------------------------------------------

  /** The replay is `i` entries into its file, inside the timestep after `g` committed ones, and
      the devices have absorbed that timestep up to entry `upTo`. */
  ghost predicate InGroup(c: Config, devices: seq<Entry>, g: nat, i: nat, upTo: nat)
    requires c.Valid()
  {
    && i < |c.entries| && i <= upTo <= i + 1
    && NextStart(c, g).Some?
    && NextStart(c, g).value <= i
    && GroupEnd(c.entries, NextStart(c, g).value) == GroupEnd(c.entries, i)
    && devices == Delivered(c, g) + c.entries[NextStart(c, g).value..upTo]
  }

  /** The devices have absorbed exactly `g` timesteps, and the next one starts at `next`. */
  ghost predicate Between(c: Config, devices: seq<Entry>, g: nat, next: Option<nat>)
    requires c.Valid()
  {
    devices == Delivered(c, g) && NextStart(c, g) == next
  }

  function NextAfter(c: Config, i: nat): Option<nat> {
    if i < |c.entries| then Some(i) else if c.looping then Some(0) else None
  }

  ghost predicate ReplayInv(c: Config, s: State)
    requires c.Valid()
  {
    var g := s.clock.generation;
    && (!s.replay.Done? ==> s.clock.simulated)
    && (g > 0 ==> NextStart(c, g - 1).Some?)
    && match s.replay
       case Head => Between(c, s.devices, g, Some(0))
       case At(i) =>
         if i < |c.entries| then InGroup(c, s.devices, g, i, i)
         else Between(c, s.devices, g, NextAfter(c, i))
       case EventTimeOf(i) => InGroup(c, s.devices, g, i, i)
       case Deliver(i) =>
         InGroup(c, s.devices, g, i, i) && s.clock.eventTime == Some(c.entries[i].timestamp)
       case Store(i) =>
         InGroup(c, s.devices, g, i, i + 1) && s.clock.eventTime == Some(c.entries[i].timestamp)
       case Commit(i) => InGroup(c, s.devices, g, i, i + 1)
       case Await(i) =>
         && i < |c.entries| && g > 0
         && s.clock.stepTime == TimeOf(c, g) == Some(c.entries[i].timestamp)
         && Between(c, s.devices, g, NextAfter(c, i + 1))
       case After => s.replayStop || Between(c, s.devices, g, if c.looping then Some(0) else None)
       case Resetting => s.replayStop || Between(c, s.devices, g, None)
       case Done => s.replayStop || Between(c, s.devices, g, None)
  }

  /** The stored readings are those the deliveries so far deserve, but for the one in hand. */
  ghost predicate StoredInv(c: Config, s: State) {
    if s.replay.Store? then
      && s.replay.i < |c.entries|
      && s.stored + [Reading(c.entries[s.replay.i], Some(c.entries[s.replay.i].timestamp))]
         == Readings(c, s.devices)
    else s.stored == Readings(c, s.devices)
  }

  // --- while no step is late ---------------------------------------------------------

  /** `processed` is 1, 2, ..., `k`. */
  ghost predicate CountsTo(processed: seq<nat>, k: nat) {
    |processed| == k && forall j :: 0 <= j < k ==> processed[j] == j + 1
  }

  ghost predicate WorkerExact(w: Worker, mark: Option<nat>, generation: nat) {
    && CountsTo(w.processed, |w.processed|)
    && (mark.Some? ==>
          && mark.value <= generation <= mark.value + 1
          && |w.processed| == mark.value + if Stepping(w.pc) then 1 else 0)
  }

  /** The replay is away from its wait only when nobody is pending, or it is being stopped. */
  ghost predicate WaitInv(s: State) {
    match s.replay
    case Await(_) => true
    case EventTimeOf(_) | Deliver(_) | Store(_) | Commit(_) => NonePending(s.clock)
    case Head | At(_) | After | Resetting | Done => NonePending(s.clock) || s.replayStop
  }

  // --- while no step is late and the replay is not stopped ------------------------------

  ghost predicate Stopped(s: State, n: Name) {
    n in s.supervisorStop || n in s.algorithmStop
  }

  predicate LastIs(log: seq<Event>, how: Ending) {
    log != [] && log[|log| - 1] == Ended(how)
  }

  /** The worker's log is the sequential backtest's, and its thread is where that log says. */
  ghost predicate WorkerFollows(c: Config, n: Name, w: Worker, stopped: bool)
    requires c.Valid()
  {
    && Sequential(c, n, w.log)
    && w.wallRuns == 0
    && Mains(w.log) + (if w.pc.Running? then 1 else 0) == |w.processed|
    && InMain(w.log) == w.pc.Running?
    && match w.pc
       case Wall | Sleeping => false
       case Acking(_, how) =>
         LastIs(w.log, how) && Crashes(w.log) == w.restarts + if how == Raise then 1 else 0
       case Crashed => LastIs(w.log, Raise) && Crashes(w.log) == w.restarts + 1
       case Leaving | Retiring | Retired | Finished => stopped || NextEvent(c, n, w.log).None?
       case _ => !GaveUp(c, w.log) && Crashes(w.log) == w.restarts
  }

  // --- all of it ---------------------------------------------------------------------------

  ghost predicate AllSafe(s: State) {
    forall n :: n in s.workers ==>
      WorkerSafe(s.workers[n], s.clock.Mark(n), s.clock.generation, s.clock.simulated)
  }

  ghost predicate AllExact(s: State) {
    forall n :: n in s.workers ==> WorkerExact(s.workers[n], s.clock.Mark(n), s.clock.generation)
  }

  ghost predicate AllFollow(c: Config, s: State)
    requires c.Valid()
  {
    forall n :: n in s.workers ==> WorkerFollows(c, n, s.workers[n], Stopped(s, n))
  }

  ghost predicate Inv(c: Config, s: State)
    requires c.Valid()
  {
    && MainInv(c, s)
    && ReplayInv(c, s)
    && StoredInv(c, s)
    && AllSafe(s)
    && (s.late == 0 ==> AllExact(s) && WaitInv(s))
    && (s.late == 0 && !s.replayStop ==> AllFollow(c, s))
  }

  // --- frames -------------------------------------------------------------------

  /** The replay's invariants do not read the participants' marks. */
  lemma ReplayFrame(c: Config, s: State, s': State)
    requires c.Valid() && ReplayInv(c, s) && StoredInv(c, s)
    requires s'.replay == s.replay && s'.devices == s.devices && s'.stored == s.stored
    requires s.replayStop ==> s'.replayStop
    requires s'.clock.(acked := map[]) == s.clock.(acked := map[])
    ensures ReplayInv(c, s') && StoredInv(c, s')
  {
    hide InGroup, Between, NextStart, TimeOf, GroupEnd, Delivered, Readings, NextAfter;
    assert s'.clock.simulated == s.clock.simulated && s'.clock.generation == s.clock.generation
        && s'.clock.stepTime == s.clock.stepTime && s'.clock.eventTime == s.clock.eventTime;
  }

  /** A worker whose own state, mark and stop flags a step leaves alone. */
  ghost predicate SameFor(s: State, s': State, n: Name) {
    && n in s.workers && n in s'.workers
    && s'.workers[n] == s.workers[n]
    && s'.clock.Mark(n) == s.clock.Mark(n)
  }

  // --- the main thread keeps it ------------------------------------------------------------

  lemma InitialInv(c: Config)
    requires c.Valid()
    ensures Inv(c, Initial())
  {
  }

  lemma BuiltGrows(c: Config, built: set<Name>, k: nat)
    requires k < |c.algorithms| && BuiltFrom(c, built, k)
    ensures BuiltFrom(c, built, k + 1) && BuiltFrom(c, built + {c.algorithms[k]}, k + 1)
  {
    assert c.algorithms[..k + 1] == c.algorithms[..k] + [c.algorithms[k]];
  }

  /** A constructor that raises leaves no participant behind. */
  lemma RaiseOwn(c: Config, s: State)
    requires c.Valid() && MainInv(c, s) && MainStep(c, s, ConstructorRaises).Some?
    ensures MainInv(c, MainStep(c, s, ConstructorRaises).value)
    ensures MainStep(c, s, ConstructorRaises).value.clock.acked.Keys == s.main.seen == s.workers.Keys
  {
    hide BuiltFrom;
    BuiltGrows(c, s.workers.Keys, s.main.k);
    assert MainStep(c, s, ConstructorRaises).value.clock.acked.Keys == s.main.seen;
  }

  lemma ReturnOwn(c: Config, s: State)
    requires c.Valid() && MainInv(c, s) && MainStep(c, s, ConstructorReturns).Some?
    ensures MainInv(c, MainStep(c, s, ConstructorReturns).value)
  {
    hide BuiltFrom;
    var s' := MainStep(c, s, ConstructorReturns).value;
    BuiltGrows(c, s.workers.Keys, s.main.k);
    assert s'.workers.Keys == s.workers.Keys + {c.algorithms[s.main.k]};
  }

  lemma MainStepOwn(c: Config, s: State, a: Action)
    requires c.Valid() && MainInv(c, s) && MainStep(c, s, a).Some?
    ensures MainInv(c, MainStep(c, s, a).value)
  {
    match a
    case ConstructorRaises => RaiseOwn(c, s);
    case ConstructorReturns => ReturnOwn(c, s);
    case _ =>
  }

  /** Constructing one algorithm touches no other; the new one starts up to date. */
  lemma MainStepWorkers(c: Config, s: State, a: Action, n: Name)
    requires c.Valid() && MainInv(c, s) && MainStep(c, s, a).Some?
    requires n in MainStep(c, s, a).value.workers
    ensures var s' := MainStep(c, s, a).value;
            || SameFor(s, s', n)
            || (s'.workers[n] == Worker(Idle, false, false, 0, [], [], 0) && s'.clock.Mark(n) == Some(0))
  {
    var s' := MainStep(c, s, a).value;
    if s.main.Constructed? && a.ConstructorReturns? && n == c.algorithms[s.main.k] {
      assert n in s.clock.acked;
    }
  }

  lemma FreshWorkerIsFine(c: Config, n: Name, stopped: bool, generation: nat, simulated: bool)
    requires c.Valid()
    ensures var w := Worker(Idle, false, false, 0, [], [], 0);
            && WorkerFollows(c, n, w, stopped)
            && WorkerSafe(w, Some(0), generation, simulated)
            && (generation == 0 ==> WorkerExact(w, Some(0), generation))
  {
  }

  lemma MainStepWait(c: Config, s: State, a: Action)
    requires c.Valid() && MainInv(c, s) && MainStep(c, s, a).Some?
    ensures var s' := MainStep(c, s, a).value;
            && (WaitInv(s) ==> WaitInv(s')) && s'.late == s.late && s'.replayStop == s.replayStop
            && s'.clock.generation == s.clock.generation == 0 && s'.clock.simulated == s.clock.simulated
            && s'.supervisorStop == s.supervisorStop && s'.algorithmStop == s.algorithmStop
  {
  }

  lemma MainStepReplay(c: Config, s: State, a: Action)
    requires c.Valid() && ReplayInv(c, s) && StoredInv(c, s) && MainStep(c, s, a).Some?
    ensures ReplayInv(c, MainStep(c, s, a).value) && StoredInv(c, MainStep(c, s, a).value)
  {
    hide ReplayInv, StoredInv;
    ReplayFrame(c, s, MainStep(c, s, a).value);
  }

  lemma MainStepInv(c: Config, s: State, a: Action)
    requires c.Valid() && Inv(c, s) && MainStep(c, s, a).Some?
    ensures Inv(c, MainStep(c, s, a).value)
  {
    hide MainInv, ReplayInv, StoredInv, WaitInv, WorkerSafe, WorkerExact, WorkerFollows, MainStep;
    var s' := MainStep(c, s, a).value;
    MainStepOwn(c, s, a);
    MainStepReplay(c, s, a);
    MainStepWait(c, s, a);
    forall n | n in s'.workers
      ensures WorkerSafe(s'.workers[n], s'.clock.Mark(n), s'.clock.generation, s'.clock.simulated)
      ensures s'.late == 0 ==> WorkerExact(s'.workers[n], s'.clock.Mark(n), s'.clock.generation)
      ensures s'.late == 0 && !s'.replayStop ==> WorkerFollows(c, n, s'.workers[n], Stopped(s', n))
    {
      MainStepWorkers(c, s, a, n);
      FreshWorkerIsFine(c, n, Stopped(s', n), s'.clock.generation, s'.clock.simulated);
    }
  }

  // --- the replay thread keeps it ------------------------------------------------------------

  lemma DeliverExtends(c: Config, devices: seq<Entry>, g: nat, i: nat)
    requires c.Valid() && InGroup(c, devices, g, i, i)
    ensures InGroup(c, devices + [c.entries[i]], g, i, i + 1)
  {
    hide NextStart, GroupEnd, Delivered;
    SliceGrows(Delivered(c, g), c.entries, NextStart(c, g).value, i);
  }

  lemma SliceGrows<T>(before: seq<T>, s: seq<T>, b: nat, i: nat)
    requires b <= i < |s|
    ensures before + s[b..i] + [s[i]] == before + s[b..i + 1]
  {
  }

  lemma CommitEndsGroup(c: Config, devices: seq<Entry>, g: nat, i: nat)
    requires c.Valid() && InGroup(c, devices, g, i, i + 1)
    requires i + 1 < |c.entries| ==> c.entries[i + 1].timestamp != c.entries[i].timestamp
    ensures Between(c, devices, g + 1, NextAfter(c, i + 1))
    ensures TimeOf(c, g + 1) == Some(c.entries[i].timestamp)
    ensures NextStart(c, g).Some?
  {
    var b := NextStart(c, g).value;
    assert GroupEnd(c.entries, b) == GroupEnd(c.entries, i) == i + 1;
    assert c.entries[i].timestamp == c.entries[b].timestamp;
  }

  lemma CommitContinues(c: Config, devices: seq<Entry>, g: nat, i: nat)
    requires c.Valid() && InGroup(c, devices, g, i, i + 1)
    requires i + 1 < |c.entries| && c.entries[i + 1].timestamp == c.entries[i].timestamp
    ensures InGroup(c, devices, g, i + 1, i + 1)
  {
  }

  lemma StartsGroup(c: Config, devices: seq<Entry>, g: nat, i: nat)
    requires c.Valid() && Between(c, devices, g, Some(i))
    ensures i < |c.entries| && InGroup(c, devices, g, i, i)
  {
    assert c.entries[i..i] == [];
  }

  lemma ReadingsExtend(c: Config, history: seq<Entry>, e: Entry)
    ensures Readings(c, history + [e]) == Readings(c, history) +
      if c.verdict(history, e) == Accepted then [Reading(e, Some(e.timestamp))] else []
  {
    assert (history + [e])[..|history|] == history;
  }

  lemma ReplayStepMain(c: Config, s: State)
    requires c.Valid() && MainInv(c, s) && s.main.Started? && ReplayStep(c, s).Some?
    ensures MainInv(c, ReplayStep(c, s).value)
  {
  }

  lemma ReplayStepOwn(c: Config, s: State)
    requires c.Valid() && ReplayInv(c, s) && ReplayStep(c, s).Some?
    ensures ReplayInv(c, ReplayStep(c, s).value)
  {
    hide InGroup, Between, NextStart, TimeOf, GroupEnd, Delivered;
    var g := s.clock.generation;
    match s.replay
    case Head => StartsGroup(c, s.devices, g, 0);
    case At(i) => if s.replayStop || i >= |c.entries| {}
    case EventTimeOf(i) =>
    case Deliver(i) => DeliverExtends(c, s.devices, g, i);
    case Store(i) =>
    case Commit(i) => CommitStep(c, s, i);
    case Await(i) =>
      if i + 1 < |c.entries| {
        StartsGroup(c, s.devices, g, i + 1);
      }
    case After =>
    case Resetting =>
    case Done =>
  }

  lemma CommitStep(c: Config, s: State, i: nat)
    requires c.Valid() && ReplayInv(c, s) && s.replay == Commit(i) && ReplayStep(c, s).Some?
    ensures ReplayInv(c, ReplayStep(c, s).value)
  {
    hide InGroup, Between, NextStart, TimeOf, GroupEnd, Delivered;
    var g := s.clock.generation;
    if i + 1 < |c.entries| && c.entries[i + 1].timestamp == c.entries[i].timestamp {
      CommitContinues(c, s.devices, g, i);
    } else {
      CommitEndsGroup(c, s.devices, g, i);
    }
  }

  lemma ReplayStepStored(c: Config, s: State)
    requires c.Valid() && ReplayInv(c, s) && StoredInv(c, s) && ReplayStep(c, s).Some?
    ensures StoredInv(c, ReplayStep(c, s).value)
  {
    hide InGroup, Between, NextStart, TimeOf, GroupEnd, Delivered, Readings;
    if s.replay.Deliver? {
      ReadingsExtend(c, s.devices, c.entries[s.replay.i]);
    }
  }

  /** A published step makes everybody who was up to date owe one step, and nothing else changes
      for the workers. */
  lemma ReplayStepWorker(c: Config, s: State, n: Name)
    requires c.Valid() && ReplayStep(c, s).Some? && n in s.workers
    requires WorkerSafe(s.workers[n], s.clock.Mark(n), s.clock.generation, s.clock.simulated)
    requires s.replay.Done? || s.clock.simulated
    ensures var s' := ReplayStep(c, s).value;
      && s'.workers == s.workers
      && WorkerSafe(s.workers[n], s'.clock.Mark(n), s'.clock.generation, s'.clock.simulated)
      && (s.late == 0 && WaitInv(s) && WorkerExact(s.workers[n], s.clock.Mark(n), s.clock.generation)
          ==> WorkerExact(s.workers[n], s'.clock.Mark(n), s'.clock.generation))
  {
    assert ReplayStep(c, s).value.clock.Mark(n) == s.clock.Mark(n);
  }

  lemma ReplayStepWait(c: Config, s: State)
    requires c.Valid() && ReplayStep(c, s).Some? && WaitInv(s)
    ensures WaitInv(ReplayStep(c, s).value)
  {
  }

  lemma ReplayStepShares(c: Config, s: State)
    requires c.Valid() && ReplayStep(c, s).Some?
    ensures var s' := ReplayStep(c, s).value;
      && s'.workers == s.workers && s'.late == s.late && s'.replayStop == s.replayStop
      && s'.supervisorStop == s.supervisorStop && s'.algorithmStop == s.algorithmStop
  {
  }

  lemma SimulatedUntilDone(c: Config, s: State)
    requires c.Valid() && ReplayInv(c, s)
    ensures s.replay.Done? || s.clock.simulated
  {
  }

  lemma ReplayStepInv(c: Config, s: State)
    requires c.Valid() && Inv(c, s) && s.main.Started? && ReplayStep(c, s).Some?
    ensures Inv(c, ReplayStep(c, s).value)
  {
    hide MainInv, ReplayInv, StoredInv, WaitInv, WorkerSafe, WorkerExact, WorkerFollows, ReplayStep;
    var s' := ReplayStep(c, s).value;
    ReplayStepMain(c, s);
    ReplayStepOwn(c, s);
    ReplayStepStored(c, s);
    ReplayStepShares(c, s);
    SimulatedUntilDone(c, s);
    if s.late == 0 {
      ReplayStepWait(c, s);
    }
    forall n | n in s'.workers
      ensures WorkerSafe(s'.workers[n], s'.clock.Mark(n), s'.clock.generation, s'.clock.simulated)
      ensures s'.late == 0 ==> WorkerExact(s'.workers[n], s'.clock.Mark(n), s'.clock.generation)
      ensures s'.late == 0 && !s'.replayStop ==> WorkerFollows(c, n, s'.workers[n], Stopped(s', n))
    {
      ReplayStepWorker(c, s, n);
    }
  }

  lemma TimeOutStepOwn(c: Config, s: State)
    requires c.Valid() && ReplayInv(c, s) && StoredInv(c, s) && TimeOutStep(c, s).Some?
    ensures ReplayInv(c, TimeOutStep(c, s).value) && StoredInv(c, TimeOutStep(c, s).value)
  {
    hide InGroup, Between, NextStart, TimeOf, GroupEnd, Delivered, Readings;
    var i := s.replay.i;
    if i + 1 < |c.entries| {
      StartsGroup(c, s.devices, s.clock.generation, i + 1);
    }
  }

  lemma TimeOutStepInv(c: Config, s: State)
    requires c.Valid() && Inv(c, s) && TimeOutStep(c, s).Some?
    ensures Inv(c, TimeOutStep(c, s).value)
  {
    hide ReplayInv, StoredInv, WaitInv, WorkerSafe, WorkerExact, WorkerFollows;
    TimeOutStepOwn(c, s);
  }

  // --- a worker keeps it --------------------------------------------------------------------------

  lemma LogGrows(log: seq<Event>, e: Event)
    ensures Mains(log + [e]) == Mains(log) + if e.Ended? then 1 else 0
    ensures Crashes(log + [e]) == Crashes(log) + if e == Ended(Raise) then 1 else 0
    ensures InMain(log + [e]) == !e.Ended?
  {
    assert (log + [e])[..|log|] == log;
  }

  lemma AppendIncreasing(s: seq<nat>, x: nat)
    requires Ascending(s) && Last(s) < x
    ensures Ascending(s + [x]) && Last(s + [x]) == x
  {
    forall i, j | 0 <= i < j < |s + [x]| ensures (s + [x])[i] < (s + [x])[j] {
      if j == |s| {
        assert s[i] <= Last(s);
      }
    }
  }

  lemma PollKeepsSafe(c: Config, s: State, n: Name)
    requires WorkStep(c, s, n).Some? && s.workers[n].pc.Polling?
    requires WorkerSafe(s.workers[n], s.clock.Mark(n), s.clock.generation, s.clock.simulated)
    ensures WorkerSafe(WorkStep(c, s, n).value.workers[n], s.clock.Mark(n), s.clock.generation, s.clock.simulated)
  {
    hide Ascending;
    var w := s.workers[n];
    if WaitForStep(s.clock, n).Some? {
      AppendIncreasing(w.processed, s.clock.generation);
    }
  }

  lemma AckKeepsSafe(c: Config, s: State, n: Name)
    requires WorkStep(c, s, n).Some? && s.workers[n].pc.Acking?
    requires WorkerSafe(s.workers[n], s.clock.Mark(n), s.clock.generation, s.clock.simulated)
    ensures var s' := WorkStep(c, s, n).value;
            WorkerSafe(s'.workers[n], s'.clock.Mark(n), s'.clock.generation, s'.clock.simulated)
  {
    hide Ascending;
    var s' := WorkStep(c, s, n).value;
    assert s'.clock.Mark(n) == Some(s.workers[n].pc.step.generation);
  }

  lemma ActKeepsSafe(c: Config, s: State, n: Name)
    requires WorkStep(c, s, n).Some? && s.workers[n].pc.Running?
    requires WorkerSafe(s.workers[n], s.clock.Mark(n), s.clock.generation, s.clock.simulated)
    ensures WorkerSafe(WorkStep(c, s, n).value.workers[n], s.clock.Mark(n), s.clock.generation, s.clock.simulated)
  {
    hide Ascending;
    var w := s.workers[n];
    assert WorkStep(c, s, n).value.workers[n] == ActStep(c, s, n, w, w.pc.step);
  }

  /** The stepping thread's own state, in every run. */
  lemma WorkKeepsSafe(c: Config, s: State, n: Name)
    requires WorkStep(c, s, n).Some?
    requires WorkerSafe(s.workers[n], s.clock.Mark(n), s.clock.generation, s.clock.simulated)
    ensures var s' := WorkStep(c, s, n).value;
            WorkerSafe(s'.workers[n], s'.clock.Mark(n), s'.clock.generation, s'.clock.simulated)
  {
    hide Ascending, WorkerNext;
    var s' := WorkStep(c, s, n).value;
    match s.workers[n].pc
    case Polling => PollKeepsSafe(c, s, n);
    case Acking(_, _) => AckKeepsSafe(c, s, n);
    case Running(_) => ActKeepsSafe(c, s, n);
    case Entering | Leaving | Retiring =>
      DoorKeepsSafe(c, s, n, s.workers[n], s.clock.Mark(n), s'.clock.Mark(n));
    case _ => QuietKeepsSafe(c, s, n, s.workers[n], s.clock.Mark(n));
  }

  /** A step that takes no timestep and does not touch the barrier. */
  lemma QuietKeepsSafe(c: Config, s: State, n: Name, w: Worker, mark: Option<nat>)
    requires WorkerNext(c, s, n, w).Some? && !w.pc.Polling? && !Stepping(w.pc)
    requires !w.pc.Entering? && !w.pc.Leaving? && !w.pc.Retiring?
    requires WorkerSafe(w, mark, s.clock.generation, s.clock.simulated)
    ensures WorkerSafe(WorkerNext(c, s, n, w).value, mark, s.clock.generation, s.clock.simulated)
  {
    hide Ascending, Last;
    var w' := WorkerNext(c, s, n, w).value;
    assert w'.processed == w.processed && w'.wallRuns == w.wallRuns;
    assert !Stepping(w'.pc);
    assert Participates(w'.pc) ==> Participates(w.pc);
  }

  /** Joining again, or leaving. */
  lemma DoorKeepsSafe(c: Config, s: State, n: Name, w: Worker, mark: Option<nat>, mark': Option<nat>)
    requires WorkerNext(c, s, n, w).Some? && (w.pc.Entering? || w.pc.Leaving? || w.pc.Retiring?)
    requires WorkerSafe(w, mark, s.clock.generation, s.clock.simulated)
    requires mark' == if w.pc.Entering? then mark else None
    ensures WorkerSafe(WorkerNext(c, s, n, w).value, mark', s.clock.generation, s.clock.simulated)
  {
    hide Ascending;
  }

  lemma PollKeepsExact(c: Config, s: State, n: Name)
    requires WorkStep(c, s, n).Some? && s.workers[n].pc.Polling?
    requires WorkerExact(s.workers[n], s.clock.Mark(n), s.clock.generation)
    ensures WorkerExact(WorkStep(c, s, n).value.workers[n], s.clock.Mark(n), s.clock.generation)
  {
  }

  lemma WorkKeepsExact(c: Config, s: State, n: Name)
    requires WorkStep(c, s, n).Some?
    requires WorkerSafe(s.workers[n], s.clock.Mark(n), s.clock.generation, s.clock.simulated)
    requires WorkerExact(s.workers[n], s.clock.Mark(n), s.clock.generation)
    ensures var s' := WorkStep(c, s, n).value;
            WorkerExact(s'.workers[n], s'.clock.Mark(n), s'.clock.generation)
  {
    hide Ascending, CountsTo, WorkerExact, ActStep;
    var w := s.workers[n];
    if w.pc.Polling? {
      PollKeepsExact(c, s, n);
    } else if w.pc.Running? {
      ActKeepsExact(c, s, n);
    } else {
      QuietKeepsExact(c, s, n);
    }
  }

  lemma ActKeepsExact(c: Config, s: State, n: Name)
    requires WorkStep(c, s, n).Some? && s.workers[n].pc.Running?
    requires WorkerExact(s.workers[n], s.clock.Mark(n), s.clock.generation)
    ensures var s' := WorkStep(c, s, n).value;
            WorkerExact(s'.workers[n], s'.clock.Mark(n), s'.clock.generation)
  {
    hide CountsTo;
    var w := s.workers[n];
    assert WorkStep(c, s, n).value.workers[n] == ActStep(c, s, n, w, w.pc.step);
  }

  lemma QuietKeepsExact(c: Config, s: State, n: Name)
    requires WorkStep(c, s, n).Some? && !s.workers[n].pc.Polling? && !s.workers[n].pc.Running?
    requires WorkerSafe(s.workers[n], s.clock.Mark(n), s.clock.generation, s.clock.simulated)
    requires WorkerExact(s.workers[n], s.clock.Mark(n), s.clock.generation)
    ensures var s' := WorkStep(c, s, n).value;
            WorkerExact(s'.workers[n], s'.clock.Mark(n), s'.clock.generation)
  {
    hide Ascending, CountsTo, ActStep;
    assert WorkStep(c, s, n).value.workers[n].processed == s.workers[n].processed;
  }

  /** Nobody else's mark moves, so if nobody was pending nobody is. */
  lemma WorkKeepsWait(c: Config, s: State, n: Name)
    requires WorkStep(c, s, n).Some? && WaitInv(s)
    requires WorkerSafe(s.workers[n], s.clock.Mark(n), s.clock.generation, s.clock.simulated)
    ensures WaitInv(WorkStep(c, s, n).value)
  {
    var s' := WorkStep(c, s, n).value;
    assert NonePending(s.clock) ==> NonePending(s'.clock);
  }

  lemma WorkShares(c: Config, s: State, n: Name)
    requires WorkStep(c, s, n).Some?
    requires Participates(s.workers[n].pc) ==> n in s.clock.acked
    ensures var s' := WorkStep(c, s, n).value;
      && s'.workers.Keys == s.workers.Keys
      && s'.clock.acked.Keys <= s.clock.acked.Keys
      && s'.(workers := s.workers, clock := s.clock) == s
      && s'.clock.(acked := map[]) == s.clock.(acked := map[])
      && (forall m :: m in s.workers && m != n ==> SameFor(s, s', m))
  {
    var s' := WorkStep(c, s, n).value;
    assert n in s.workers;
  }

  lemma WorkKeepsMain(c: Config, s: State, n: Name)
    requires c.Valid() && MainInv(c, s) && WorkStep(c, s, n).Some?
    requires Participates(s.workers[n].pc) ==> n in s.clock.acked
    ensures MainInv(c, WorkStep(c, s, n).value)
  {
    WorkShares(c, s, n);
  }

  /** While somebody is pending and nothing is late or stopped, the replay is in its wait: the
      devices and the clock stay those of the published step. */
  lemma PendingFreezes(c: Config, s: State, n: Name)
    requires c.Valid() && ReplayInv(c, s) && WaitInv(s) && !s.replayStop
    requires n in s.clock.acked && s.clock.acked[n] < s.clock.generation
    ensures s.replay.Await?
    ensures s.clock.simulated && s.clock.generation > 0
    ensures NextStart(c, s.clock.generation - 1).Some?
    ensures s.devices == Delivered(c, s.clock.generation)
    ensures s.clock.stepTime == TimeOf(c, s.clock.generation)
    ensures s.clock.stepTime.Some?
  {
    hide GroupEnd, NextStart, Delivered, TimeOf;
  }

  lemma PollFollows(c: Config, s: State, n: Name)
    requires c.Valid() && ReplayInv(c, s) && WaitInv(s) && !s.replayStop
    requires n in s.workers && s.workers[n].pc.Polling? && WorkStep(c, s, n).Some?
    requires WorkerExact(s.workers[n], s.clock.Mark(n), s.clock.generation)
    requires WorkerFollows(c, n, s.workers[n], Stopped(s, n))
    ensures WorkerFollows(c, n, WorkStep(c, s, n).value.workers[n], Stopped(s, n))
  {
    hide Sequential, ReplayInv, WaitInv, GroupEnd, Delivered, TimeOf;
    var w := s.workers[n];
    if WaitForStep(s.clock, n).Some? {
      PendingFreezes(c, s, n);
      assert NextEvent(c, n, w.log) == Some(Began);
      SequentialExtends(c, n, w.log, Began);
      LogGrows(w.log, Began);
    }
  }

  /** On the devices and the clock of its own step, an act of `main()` is the sequential one. */
  lemma ActIsSequential(c: Config, s: State, n: Name, w: Worker, step: Step)
    requires c.Valid() && InMain(w.log) && w.pc == Running(step)
    requires s.devices == Delivered(c, Mains(w.log) + 1)
    requires s.clock.stepTime == TimeOf(c, Mains(w.log) + 1)
    ensures NextEvent(c, n, w.log).Some? && !NextEvent(c, n, w.log).value.Began?
    ensures var e := NextEvent(c, n, w.log).value;
            ActStep(c, s, n, w, step)
              == w.(log := w.log + [e], pc := if e.Ended? then Acking(step, e.how) else Running(step))
  {
    hide Delivered, TimeOf, Mains, Crashes;
  }

  /** Extending a followed log by the next event of a running `main()`. */
  lemma ActExtends(c: Config, n: Name, w: Worker, step: Step, stopped: bool, e: Event)
    requires c.Valid() && w.pc == Running(step) && WorkerFollows(c, n, w, stopped)
    requires NextEvent(c, n, w.log) == Some(e) && !e.Began?
    ensures WorkerFollows(c, n,
              w.(log := w.log + [e], pc := if e.Ended? then Acking(step, e.how) else Running(step)), stopped)
  {
    hide Sequential, Mains, Crashes, NextEvent;
    SequentialExtends(c, n, w.log, e);
    LogGrows(w.log, e);
  }

  lemma ActFollows(c: Config, s: State, n: Name)
    requires c.Valid() && ReplayInv(c, s) && WaitInv(s) && !s.replayStop
    requires n in s.workers && s.workers[n].pc.Running? && WorkStep(c, s, n).Some?
    requires WorkerSafe(s.workers[n], s.clock.Mark(n), s.clock.generation, s.clock.simulated)
    requires WorkerExact(s.workers[n], s.clock.Mark(n), s.clock.generation)
    requires WorkerFollows(c, n, s.workers[n], Stopped(s, n))
    ensures WorkerFollows(c, n, WorkStep(c, s, n).value.workers[n], Stopped(s, n))
  {
    hide Sequential, ReplayInv, WaitInv, NextEvent, ActStep, Mains, Crashes, WorkStep, WorkerSafe, WorkerExact,
         WorkerFollows, InMain;
    var w := s.workers[n];
    RunsItsStep(c, s, n);
    PendingFreezes(c, s, n);
    ActIsSequential(c, s, n, w, w.pc.step);
    ActExtends(c, n, w, w.pc.step, Stopped(s, n), NextEvent(c, n, w.log).value);
    ActIsWork(c, s, n);
  }

  /** A running `main()` owes the current generation, and is the one its log is at. */
  lemma RunsItsStep(c: Config, s: State, n: Name)
    requires c.Valid() && n in s.workers && s.workers[n].pc.Running?
    requires WorkerSafe(s.workers[n], s.clock.Mark(n), s.clock.generation, s.clock.simulated)
    requires WorkerExact(s.workers[n], s.clock.Mark(n), s.clock.generation)
    requires WorkerFollows(c, n, s.workers[n], Stopped(s, n))
    ensures n in s.clock.acked && s.clock.acked[n] < s.clock.generation
    ensures s.clock.generation == Mains(s.workers[n].log) + 1 && InMain(s.workers[n].log)
  {
    hide Sequential, NextEvent, Mains, Crashes, Ascending;
  }

  lemma ActIsWork(c: Config, s: State, n: Name)
    requires n in s.workers && s.workers[n].pc.Running?
    ensures WorkStep(c, s, n).Some?
    ensures WorkStep(c, s, n).value.workers[n] == ActStep(c, s, n, s.workers[n], s.workers[n].pc.step)
  {
    hide ActStep;
  }

  lemma NothingLeft(c: Config, s: State, n: Name)
    requires c.Valid() && ReplayInv(c, s) && WaitInv(s) && !s.replayStop && !s.clock.simulated
    requires n in s.workers && s.workers[n].pc.GotNone?
    requires WorkerSafe(s.workers[n], s.clock.Mark(n), s.clock.generation, s.clock.simulated)
    requires WorkerExact(s.workers[n], s.clock.Mark(n), s.clock.generation)
    requires WorkerFollows(c, n, s.workers[n], Stopped(s, n))
    ensures s.workers[n].stepped && NextEvent(c, n, s.workers[n].log).None?
  {
    hide Sequential, GroupEnd, Delivered, TimeOf;
    assert s.replay.Done? && NextStart(c, s.clock.generation) == None;
    assert NextStart(c, 0) == Some(0);
    assert s.clock.acked[n] == s.clock.generation;
  }

  /** Acknowledging a `main()` and what comes of it. */
  lemma EndingFollows(c: Config, s: State, n: Name, w: Worker, stopped: bool)
    requires c.Valid() && WorkerNext(c, s, n, w).Some? && (w.pc.Acking? || w.pc.Crashed? || w.pc.Backoff?)
    requires stopped == Stopped(s, n) && WorkerFollows(c, n, w, stopped)
    ensures WorkerFollows(c, n, WorkerNext(c, s, n, w).value, stopped)
  {
    hide Sequential, Mains, Crashes, NextStart;
  }

  /** The steps around `main()`: acknowledging it, crashing, backing off, leaving. */
  lemma QuietFollows(c: Config, s: State, n: Name, w: Worker, stopped: bool)
    requires c.Valid() && WorkerNext(c, s, n, w).Some?
    requires !w.pc.Polling? && !w.pc.Running? && !w.pc.GotNone?
    requires stopped == Stopped(s, n) && WorkerFollows(c, n, w, stopped)
    ensures WorkerFollows(c, n, WorkerNext(c, s, n, w).value, stopped)
  {
    hide Sequential, Mains, Crashes, NextStart;
    if w.pc.Acking? || w.pc.Crashed? || w.pc.Backoff? {
      EndingFollows(c, s, n, w, stopped);
    }
  }

  lemma WorkKeepsFollow(c: Config, s: State, n: Name)
    requires c.Valid() && ReplayInv(c, s) && WaitInv(s) && !s.replayStop && WorkStep(c, s, n).Some?
    requires WorkerSafe(s.workers[n], s.clock.Mark(n), s.clock.generation, s.clock.simulated)
    requires WorkerExact(s.workers[n], s.clock.Mark(n), s.clock.generation)
    requires WorkerFollows(c, n, s.workers[n], Stopped(s, n))
    ensures WorkerFollows(c, n, WorkStep(c, s, n).value.workers[n], Stopped(s, n))
  {
    hide Sequential, ReplayInv, WaitInv, Mains, Crashes, WorkerSafe, WorkerExact, NextEvent, GaveUp;
    match s.workers[n].pc
    case Polling => PollFollows(c, s, n);
    case Running(_) => ActFollows(c, s, n);
    case GotNone =>
      if !s.clock.simulated {
        NothingLeft(c, s, n);
      }
    case _ => QuietFollows(c, s, n, s.workers[n], Stopped(s, n));
  }

  lemma WorkStepInv(c: Config, s: State, n: Name)
    requires c.Valid() && Inv(c, s) && WorkStep(c, s, n).Some?
    ensures Inv(c, WorkStep(c, s, n).value)
  {
    hide MainInv, ReplayInv, StoredInv, WaitInv, WorkerSafe, WorkerExact, WorkerFollows, WorkStep;
    var s' := WorkStep(c, s, n).value;
    WorkStepWho(c, s, n);
    SafeParticipates(s.workers[n], s.clock, n);
    WorkShares(c, s, n);
    WorkKeepsMain(c, s, n);
    ReplayFrame(c, s, s');
    WorkKeepsSafe(c, s, n);
    if s.late == 0 {
      WorkKeepsExact(c, s, n);
      WorkKeepsWait(c, s, n);
      if !s.replayStop {
        WorkKeepsFollow(c, s, n);
      }
    }
    assert s'.clock.generation == s.clock.generation && s'.clock.simulated == s.clock.simulated;
    assert s'.late == s.late && s'.replayStop == s.replayStop;
    forall m | m in s'.workers
      ensures WorkerSafe(s'.workers[m], s'.clock.Mark(m), s'.clock.generation, s'.clock.simulated)
      ensures s'.late == 0 ==> WorkerExact(s'.workers[m], s'.clock.Mark(m), s'.clock.generation)
      ensures s'.late == 0 && !s'.replayStop ==> WorkerFollows(c, m, s'.workers[m], Stopped(s', m))
    {
      if m != n {
        assert SameFor(s, s', m);
      }
    }
  }

  lemma SafeParticipates(w: Worker, clock: ClockState, n: Name)
    requires WorkerSafe(w, clock.Mark(n), clock.generation, clock.simulated)
    ensures Participates(w.pc) ==> n in clock.acked
  {
  }

  lemma WorkStepWho(c: Config, s: State, n: Name)
    requires WorkStep(c, s, n).Some?
    ensures n in s.workers
  {
  }

  lemma WallKeepsWorker(c: Config, s: State, n: Name, how: Ending)
    requires c.Valid() && WallStep(s, n, how).Some?
    requires WorkerSafe(s.workers[n], s.clock.Mark(n), s.clock.generation, s.clock.simulated)
    ensures var s' := WallStep(s, n, how).value;
      && s'.clock == s.clock && s'.workers.Keys == s.workers.Keys
      && WorkerSafe(s'.workers[n], s.clock.Mark(n), s.clock.generation, s.clock.simulated)
      && (WorkerExact(s.workers[n], s.clock.Mark(n), s.clock.generation)
          ==> WorkerExact(s'.workers[n], s.clock.Mark(n), s.clock.generation))
      && !WorkerFollows(c, n, s.workers[n], Stopped(s, n))
  {
  }

  lemma WallStepInv(c: Config, s: State, n: Name, how: Ending)
    requires c.Valid() && Inv(c, s) && WallStep(s, n, how).Some?
    ensures Inv(c, WallStep(s, n, how).value)
  {
    hide ReplayInv, StoredInv, WaitInv, WorkerSafe, WorkerExact, WorkerFollows;
    var s' := WallStep(s, n, how).value;
    WallKeepsWorker(c, s, n, how);
    ReplayFrame(c, s, s');
    WaitFrame(s, s');
  }

  lemma WaitFrame(s: State, s': State)
    requires s'.replay == s.replay && s'.clock == s.clock && (s.replayStop ==> s'.replayStop)
    ensures WaitInv(s) ==> WaitInv(s')
  {
  }

  // --- every step, every run ---------------------------------------------------------------------------

  /** Asking somebody to stop. */
  lemma StopInv(c: Config, s: State, s': State)
    requires c.Valid() && Inv(c, s)
    requires s'.(replayStop := s.replayStop, supervisorStop := s.supervisorStop,
                 algorithmStop := s.algorithmStop) == s
    requires s.replayStop ==> s'.replayStop
    requires s.supervisorStop <= s'.supervisorStop && s.algorithmStop <= s'.algorithmStop
    ensures Inv(c, s')
  {
    hide ReplayInv, StoredInv, WaitInv, WorkerSafe, WorkerExact, Sequential, NextEvent, Mains, Crashes;
    ReplayFrame(c, s, s');
    WaitFrame(s, s');
    if s'.late == 0 && !s'.replayStop {
      forall n | n in s'.workers
        ensures WorkerFollows(c, n, s'.workers[n], Stopped(s', n))
      {
        assert WorkerFollows(c, n, s.workers[n], Stopped(s, n));
      }
    }
  }

  lemma ApplyInv(c: Config, s: State, a: Action)
    requires c.Valid() && Inv(c, s) && Apply(c, s, a).Some?
    ensures Inv(c, Apply(c, s, a).value)
  {
    hide Inv, ReplayStep, TimeOutStep, WorkStep, WallStep, MainStep;
    match a
    case Replay => ReplayStepInv(c, s);
    case ReplayTimesOut => TimeOutStepInv(c, s);
    case Work(n) => WorkStepInv(c, s, n);
    case WallEnds(n, how) => WallStepInv(c, s, n, how);
    case StopReplay => StopInv(c, s, Apply(c, s, a).value);
    case StopSupervisor(_) => StopInv(c, s, Apply(c, s, a).value);
    case StopAlgorithm(_) => StopInv(c, s, Apply(c, s, a).value);
    case _ => MainStepInv(c, s, a);
  }

  lemma {:induction false} RunInv(c: Config, schedule: seq<Action>)
    requires c.Valid() && Run(c, schedule).Some?
    ensures Inv(c, Run(c, schedule).value)
  {
    hide Inv, Apply;
    if schedule == [] {
      InitialInv(c);
    } else {
      var before := schedule[..|schedule| - 1];
      RunInv(c, before);
      ApplyInv(c, Run(c, before).value, schedule[|schedule| - 1]);
    }
  }
}
