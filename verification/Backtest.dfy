/** The sequential backtest: what a replay promises to compute, with no threads in it.

    A timestep is a maximal run of adjacent entries with equal timestamps. The backtest delivers
    one timestep, runs every algorithm's `main()` once on the devices as they then are, and goes
    on to the next. `NextEvent` says, for one algorithm, what happens to it next in that backtest,
    given everything that happened to it so far. */
module Backtest {
  import opened Options
  import opened Clock

  datatype Entry = Entry(timestamp: Moment, device: string, topic: Option<string>, payload: string)

  /** How `Connector.deliver` fares with one payload. */
  datatype Verdict = Accepted | Rejected | Raised | UnknownDevice

  /** How one `main()` ends: it returns, raises an Exception, or exits with SystemExit. */
  datatype Ending = Return | Raise | Exit

  /** What an algorithm does next inside `main()`. */
  datatype Act = LookAtDevices | LookAtClock | Decide(command: string) | Finish(how: Ending)

  /** What happens to one algorithm. `Saw` carries the whole history of deliveries the devices
      have absorbed: any snapshot the algorithm can take is a function of it. */
  datatype Event =
    | Began
    | Saw(devices: seq<Entry>)
    | ReadClock(time: Option<Moment>)
    | Decided(command: string, stamp: Option<Moment>)
    | Ended(how: Ending)

  /** A run's configuration. `program` is the deterministic algorithms: the next act of a name,
      given all that happened to it (its own memory survives a restart). `verdict` is the
      devices: the fate of an entry after a history of deliveries. */
  datatype Config = Config(
    entries: seq<Entry>,
    looping: bool,
    timeouts: bool,
    algorithms: seq<Name>,
    restartEnabled: bool,
    maxRestarts: int,
    program: (Name, seq<Event>) -> Act,
    verdict: (seq<Entry>, Entry) -> Verdict)
  {
    predicate Valid() {
      && |entries| > 0
      && forall i, j :: 0 <= i < j < |algorithms| ==> algorithms[i] != algorithms[j]
    }
  }

  // --- timesteps -------------------------------------------------------------

  /** One past the last entry of the timestep entry `i` belongs to. */
  function GroupEnd(entries: seq<Entry>, i: nat): (end: nat)
    requires i < |entries|
    ensures i < end <= |entries|
    ensures forall k :: i <= k < end ==> entries[k].timestamp == entries[i].timestamp
    ensures end < |entries| ==> entries[end].timestamp != entries[i].timestamp
    decreases |entries| - i
  {
    if i + 1 < |entries| && entries[i + 1].timestamp == entries[i].timestamp
    then GroupEnd(entries, i + 1)
    else i + 1
  }

  /** The index at which the timestep after the first `g` starts, if there is one. */
  function NextStart(c: Config, g: nat): (start: Option<nat>)
    requires c.Valid()
    ensures start.Some? ==> start.value < |c.entries|
  {
    if g == 0 then Some(0)
    else match NextStart(c, g - 1)
      case None => None
      case Some(b) =>
        var end := GroupEnd(c.entries, b);
        if end < |c.entries| then Some(end) else if c.looping then Some(0) else None
  }

  /** Every delivery of the first `g` timesteps, in order. */
  function Delivered(c: Config, g: nat): seq<Entry>
    requires c.Valid()
  {
    if g == 0 then []
    else match NextStart(c, g - 1)
      case None => Delivered(c, g - 1)
      case Some(b) => Delivered(c, g - 1) + c.entries[b..GroupEnd(c.entries, b)]
  }

  /** The time of the `g`-th timestep, counted from 1. */
  function TimeOf(c: Config, g: nat): Option<Moment>
    requires c.Valid()
  {
    if g == 0 then None
    else match NextStart(c, g - 1)
      case None => None
      case Some(b) => Some(c.entries[b].timestamp)
  }

  // --- one algorithm ----------------------------------------------------------

  /** How many `main()` runs have ended. */
  function Mains(log: seq<Event>): nat {
    if log == [] then 0
    else Mains(log[..|log| - 1]) + if log[|log| - 1].Ended? then 1 else 0
  }

  /** How many of them raised. */
  function Crashes(log: seq<Event>): nat {
    if log == [] then 0
    else Crashes(log[..|log| - 1]) + if log[|log| - 1] == Ended(Raise) then 1 else 0
  }

  predicate InMain(log: seq<Event>) {
    log != [] && !log[|log| - 1].Ended?
  }

  /** The supervisor will not run this algorithm again: it exited, or it crashed with restarts
      disabled or spent. */
  predicate GaveUp(c: Config, log: seq<Event>) {
    log != [] &&
    match log[|log| - 1]
    case Ended(Exit) => true
    case Ended(Raise) => !c.restartEnabled || Crashes(log) - 1 >= c.maxRestarts
    case _ => false
  }

  /** What the sequential backtest does next with algorithm `n`; None when it is over for it. */
  function NextEvent(c: Config, n: Name, log: seq<Event>): Option<Event>
    requires c.Valid()
  {
    if GaveUp(c, log) then None
    else if !InMain(log) then
      if NextStart(c, Mains(log)).Some? then Some(Began) else None
    else
      var g := Mains(log) + 1;
      Some(match c.program(n, log)
           case LookAtDevices => Saw(Delivered(c, g))
           case LookAtClock => ReadClock(TimeOf(c, g))
           case Decide(command) => Decided(command, TimeOf(c, g))
           case Finish(how) => Ended(how))
  }

  /** `log` is what the sequential backtest does to `n`, as far as it goes. */
  ghost predicate Sequential(c: Config, n: Name, log: seq<Event>)
    requires c.Valid()
  {
    forall k :: 0 <= k < |log| ==> NextEvent(c, n, log[..k]) == Some(log[k])
  }

  /** A sequential log that cannot be extended. */
  ghost predicate Complete(c: Config, n: Name, log: seq<Event>)
    requires c.Valid()
  {
    Sequential(c, n, log) && NextEvent(c, n, log).None?
  }

  lemma SequentialExtends(c: Config, n: Name, log: seq<Event>, e: Event)
    requires c.Valid() && Sequential(c, n, log) && NextEvent(c, n, log) == Some(e)
    ensures Sequential(c, n, log + [e])
  {
    var l := log + [e];
    forall k | 0 <= k < |l| ensures NextEvent(c, n, l[..k]) == Some(l[k]) {
      assert l[..k] == log[..k];
      if k == |log| {
        assert log[..k] == log;
      }
    }
  }

  /** Two sequential logs of one algorithm agree as far as both go. */
  lemma {:induction false} SequentialAgree(c: Config, n: Name, a: seq<Event>, b: seq<Event>, k: nat)
    requires c.Valid() && Sequential(c, n, a) && Sequential(c, n, b)
    requires k <= |a| && k <= |b|
    ensures a[..k] == b[..k]
  {
    hide NextEvent;
    if k > 0 {
      SequentialAgree(c, n, a, b, k - 1);
      assert Some(a[k - 1]) == NextEvent(c, n, a[..k - 1]) == Some(b[k - 1]);
      assert a[..k] == a[..k - 1] + [a[k - 1]];
      assert b[..k] == b[..k - 1] + [b[k - 1]];
    }
  }

  /** A sequential log shorter than another is a prefix of it, and can be extended. */
  lemma ShorterCanExtend(c: Config, n: Name, a: seq<Event>, b: seq<Event>)
    requires c.Valid() && Sequential(c, n, a) && Sequential(c, n, b) && |a| < |b|
    ensures a <= b && NextEvent(c, n, a).Some?
  {
    SequentialAgree(c, n, a, b, |a|);
    assert a[..|a|] == a;
    assert NextEvent(c, n, b[..|a|]) == Some(b[|a|]);
  }

  /** A complete log is the only one: every sequential log is a prefix of it. */
  lemma CompleteIsLongest(c: Config, n: Name, a: seq<Event>, b: seq<Event>)
    requires c.Valid() && Complete(c, n, a) && Sequential(c, n, b)
    ensures b <= a
    ensures Complete(c, n, b) ==> a == b
  {
    if |a| < |b| {
      ShorterCanExtend(c, n, a, b);
    } else if |b| < |a| {
      ShorterCanExtend(c, n, b, a);
    } else {
      SequentialAgree(c, n, a, b, |a|);
      assert a == a[..|a|] == b[..|b|] == b;
    }
  }

  /** In the sequential backtest every decision carries the time of the timestep its `main()`
      is processing, and every look at the devices sees exactly that timestep's deliveries. */
  lemma SequentialStamps(c: Config, n: Name, log: seq<Event>, k: nat)
    requires c.Valid() && Sequential(c, n, log) && k < |log|
    ensures var g := Mains(log[..k]) + 1;
            && (log[k].Decided? ==> log[k].stamp == TimeOf(c, g))
            && (log[k].ReadClock? ==> log[k].time == TimeOf(c, g))
            && (log[k].Saw? ==> log[k].devices == Delivered(c, g))
  {
    hide Mains, NextStart, GaveUp, TimeOf, Delivered;
    assert NextEvent(c, n, log[..k]) == Some(log[k]);
  }

  // --- readings ----------------------------------------------------------------

  /** One stored reading: the entry, and the time storage stamped it with. */
  datatype Reading = Reading(entry: Entry, stamp: Option<Moment>)

  /** The readings a history of deliveries deserves: the accepted entries, in order, each
      stamped with its own timestamp. */
  function Readings(c: Config, history: seq<Entry>): seq<Reading> {
    if history == [] then []
    else
      var before := history[..|history| - 1];
      var e := history[|history| - 1];
      Readings(c, before) +
      if c.verdict(before, e) == Accepted then [Reading(e, Some(e.timestamp))] else []
  }
}
