/** The poll loop of connectors/http_api.py: every device on its own interval, one thread, and a
    proved bound on how late a poll can be. Time is an integer number of nanoseconds on the
    monotonic clock; only polls and sleeps take any. */
module HttpPoll {
  const MAX_SLEEP: int := 60_000_000_000

  /** One stretch of a run: polling a device (`ok` unless an exception escaped) or sleeping (`cut`
      when the stop event ended the sleep). */
  datatype Event =
    | Poll(task: nat, start: int, end: int, ok: bool)
    | Nap(start: int, end: int, cut: bool)

  /** What a run starts from: the tasks' intervals and last polls, the time, and the longest a poll
      can last. */
  datatype Plan = Plan(interval: seq<nat>, last: seq<int>, begin: int, longest: nat) {
    ghost predicate Valid() {
      0 < |interval| == |last|
    }

    /** As late as a poll may begin: two sweeps, less the device itself in each. */
    function Slack(): int {
      (2 * |interval| - 2) * longest
    }
  }

  function Max(a: int, b: int): int {
    if a < b then b else a
  }

  /** When the last successful poll of device `k` ended. */
  function LastPoll(plan: Plan, trace: seq<Event>, k: nat): int
    requires plan.Valid() && k < |plan.last|
  {
    if trace == [] then plan.last[k]
    else
      var e := trace[|trace| - 1];
      if e.Poll? && e.task == k && e.ok then e.end else LastPoll(plan, trace[..|trace| - 1], k)
  }

  function Due(plan: Plan, trace: seq<Event>, k: nat): int
    requires plan.Valid() && k < |plan.last|
  {
    LastPoll(plan, trace, k) + plan.interval[k]
  }

  /** The time at the end of a trace. */
  function Now(plan: Plan, trace: seq<Event>): int {
    if trace == [] then plan.begin else trace[|trace| - 1].end
  }

  /** Whether the trace ends in an escaped exception, or in a sleep the stop event ended. */
  predicate Over(trace: seq<Event>) {
    trace != [] && match trace[|trace| - 1] { case Poll(_, _, _, ok) => !ok case Nap(_, _, cut) => cut }
  }

  /** No device is overdue by more than the slack, counting from when the loop began. */
  ghost predicate NobodyStarves(plan: Plan, trace: seq<Event>)
    requires plan.Valid()
  {
    forall k :: 0 <= k < |plan.last| ==> Now(plan, trace) <= Max(Due(plan, trace, k), plan.begin) + plan.Slack()
  }

  /** `e` may follow `before`. A device is polled only when it is due. A sleep passes no due time,
      and lasts until one unless it is the longest or the last. */
  ghost predicate Punctual(plan: Plan, before: seq<Event>, e: Event)
    requires plan.Valid()
  {
    && e.start == Now(plan, before) <= e.end
    && !Over(before)
    && match e
       case Poll(k, start, end, _) =>
         k < |plan.last| && Due(plan, before, k) <= start && end <= start + plan.longest
       case Nap(start, end, cut) =>
         && end <= start + MAX_SLEEP
         && (forall k :: 0 <= k < |plan.last| ==> end <= Max(start, Due(plan, before, k)))
         && (cut || end == start + MAX_SLEEP || exists k :: 0 <= k < |plan.last| && Due(plan, before, k) <= end)
  }

  /** Every event follows the ones before it, and finds nobody overdue by more than the slack. */
  ghost predicate OnTime(plan: Plan, trace: seq<Event>)
    requires plan.Valid()
  {
    forall p :: 0 <= p < |trace| ==> Punctual(plan, trace[..p], trace[p]) && NobodyStarves(plan, trace[..p])
  }

  /** Event `q` is a poll that began when it was due or later, and no later than two sweeps, less the
      device itself in each, after that or after the beginning. */
  ghost predicate PolledInTime(plan: Plan, trace: seq<Event>, q: nat)
    requires plan.Valid() && q < |trace| && trace[q].Poll?
  {
    var k, start := trace[q].task, trace[q].start;
    && k < |plan.last|
    && Due(plan, trace[..q], k) <= start
    && start <= Max(Due(plan, trace[..q], k), plan.begin) + (2 * |plan.last| - 2) * plan.longest
  }

  lemma LatenessIsBounded(plan: Plan, trace: seq<Event>, q: nat)
    requires plan.Valid() && OnTime(plan, trace) && q < |trace| && trace[q].Poll?
    ensures PolledInTime(plan, trace, q)
  {
    assert Punctual(plan, trace[..q], trace[q]) && NobodyStarves(plan, trace[..q]);
  }

  /** Event `q` is a sleep that ended at the first due time, or after a minute, or when the stop event
      ended it; and it passed no due time. */
  ghost predicate SleptUntilDue(plan: Plan, trace: seq<Event>, q: nat)
    requires plan.Valid() && q < |trace| && trace[q].Nap?
  {
    var start, end, cut := trace[q].start, trace[q].end, trace[q].cut;
    && start <= end <= start + 60_000_000_000
    && (forall k :: 0 <= k < |plan.last| ==> end <= Max(start, Due(plan, trace[..q], k)))
    && (cut || end == start + 60_000_000_000 || exists k :: 0 <= k < |plan.last| && Due(plan, trace[..q], k) <= end)
  }

  lemma SleepsAreBounded(plan: Plan, trace: seq<Event>, q: nat)
    requires plan.Valid() && OnTime(plan, trace) && q < |trace| && trace[q].Nap?
    ensures SleptUntilDue(plan, trace, q)
  {
    assert Punctual(plan, trace[..q], trace[q]);
  }

  /** A sweep that began at `clock` has passed the first `i` tasks: each event since cost at most
      one poll, and the tasks still to come were at most one sweep overdue at its start. */
  ghost predicate InSweep(plan: Plan, trace: seq<Event>, clock: int, i: int)
    requires plan.Valid()
  {
    && 0 <= i <= |plan.last|
    && clock <= Now(plan, trace) <= clock + i * plan.longest
    && (forall j :: 0 <= j < i ==> Now(plan, trace) <= Due(plan, trace, j) + (i - 1) * plan.longest)
    && (forall j :: i <= j < |plan.last| ==> Behind(plan, trace, clock, j))
  }

  ghost predicate Behind(plan: Plan, trace: seq<Event>, clock: int, j: nat)
    requires plan.Valid() && j < |plan.last|
  {
    clock <= Max(Due(plan, trace, j), plan.begin) + (|plan.last| - 1) * plan.longest
  }

  lemma Steps(i: int, p: nat)
    ensures (i + 1) * p == i * p + p && (i - 1) * p == i * p - p && (2 * i) * p == i * p + i * p
  {
  }

  lemma Fits(i: int, m: int, p: nat)
    requires i <= m
    ensures i * p <= m * p
  {
  }

  lemma SweepStarvesNobody(plan: Plan, trace: seq<Event>, clock: int, i: int)
    requires plan.Valid() && InSweep(plan, trace, clock, i)
    ensures NobodyStarves(plan, trace)
  {
    var n, p := |plan.last|, plan.longest;
    Steps(n - 1, p);
    Fits(0, n - 1, p);
    Fits(i - 1, n - 1, p);
    if i < n { Fits(i, n - 1, p); }
    assert plan.Slack() == (n - 1) * p + (n - 1) * p;
    forall k | 0 <= k < n
      ensures Now(plan, trace) <= Max(Due(plan, trace, k), plan.begin) + plan.Slack()
    {
      if k >= i { assert Behind(plan, trace, clock, k); }
    }
  }

  lemma Skip(plan: Plan, trace: seq<Event>, clock: int, i: int)
    requires plan.Valid() && InSweep(plan, trace, clock, i)
    requires i < |plan.last| && clock < Due(plan, trace, i)
    ensures InSweep(plan, trace, clock, i + 1)
  {
    Steps(i, plan.longest);
  }

  lemma Append(plan: Plan, trace: seq<Event>, e: Event)
    requires plan.Valid()
    ensures (trace + [e])[..|trace|] == trace && Now(plan, trace + [e]) == e.end
    ensures forall k :: 0 <= k < |plan.last| ==>
              LastPoll(plan, trace + [e], k) ==
              if e.Poll? && e.task == k && e.ok then e.end else LastPoll(plan, trace, k)
  {
    assert (trace + [e])[..|trace|] == trace;
  }

  lemma Extend(plan: Plan, trace: seq<Event>, e: Event)
    requires plan.Valid() && OnTime(plan, trace) && Punctual(plan, trace, e) && NobodyStarves(plan, trace)
    ensures OnTime(plan, trace + [e])
  {
    hide Punctual, NobodyStarves;
    var longer := trace + [e];
    assert longer[..|trace|] == trace;
    forall p | 0 <= p < |longer|
      ensures Punctual(plan, longer[..p], longer[p]) && NobodyStarves(plan, longer[..p])
    {
      if p < |trace| {
        assert longer[..p] == trace[..p];
      }
    }
  }

  lemma PollKeeps(plan: Plan, trace: seq<Event>, clock: int, i: nat, e: Event)
    requires plan.Valid() && OnTime(plan, trace) && !Over(trace) && InSweep(plan, trace, clock, i)
    requires i < |plan.last| && Due(plan, trace, i) <= clock
    requires e.Poll? && e.task == i && e.start == Now(plan, trace) <= e.end <= e.start + plan.longest
    ensures OnTime(plan, trace + [e])
    ensures e.ok ==> InSweep(plan, trace + [e], clock, i + 1)
  {
    SweepStarvesNobody(plan, trace, clock, i);
    Extend(plan, trace, e);
    if e.ok {
      hide OnTime, LastPoll;
      Append(plan, trace, e);
      Steps(i, plan.longest);
      Fits(0, i, plan.longest);
      forall j | 0 <= j < |plan.last| && j != i ensures Due(plan, trace + [e], j) == Due(plan, trace, j) {}
      forall j | i + 1 <= j < |plan.last| ensures Behind(plan, trace + [e], clock, j) {
        assert Behind(plan, trace, clock, j);
      }
    }
  }

  lemma NapKeeps(plan: Plan, trace: seq<Event>, clock: int, i: nat, e: Event)
    requires plan.Valid() && OnTime(plan, trace) && InSweep(plan, trace, clock, i)
    requires e.Nap? && Punctual(plan, trace, e)
    ensures OnTime(plan, trace + [e]) && NobodyStarves(plan, trace + [e])
    ensures i == |plan.last| ==> InSweep(plan, trace + [e], e.end, 0)
  {
    hide OnTime, LastPoll;
    SweepStarvesNobody(plan, trace, clock, i);
    Extend(plan, trace, e);
    Append(plan, trace, e);
    Fits(0, |plan.last| - 1, plan.longest);
    Steps(|plan.last| - 1, plan.longest);
    assert 0 <= plan.Slack();
    forall j | 0 <= j < |plan.last|
      ensures Due(plan, trace + [e], j) == Due(plan, trace, j)
      ensures i == |plan.last| ==> Behind(plan, trace + [e], e.end, j)
    {
    }
  }

  // ----- rounds -----

  /** Of the first `m` tasks, those due at the end of `before`, in order. */
  function DueTasks(plan: Plan, before: seq<Event>, m: nat): seq<nat>
    requires plan.Valid() && m <= |plan.last|
  {
    if m == 0 then []
    else
      DueTasks(plan, before, m - 1) + if Due(plan, before, m - 1) <= Now(plan, before) then [m - 1] else []
  }

  ghost predicate PollsExactly(events: seq<Event>, tasks: seq<nat>) {
    |events| == |tasks| && forall i :: 0 <= i < |events| ==> events[i].Poll? && events[i].task == tasks[i]
  }

  /** One pass of the loop: a poll of each due task among the first `m`, and a sleep. */
  ghost predicate Round(plan: Plan, before: seq<Event>, events: seq<Event>, m: nat)
    requires plan.Valid() && m <= |plan.last|
  {
    && events != [] && events[|events| - 1].Nap?
    && PollsExactly(events[..|events| - 1], DueTasks(plan, before, m))
  }

  /** The trace of a run that has found the stop event clear `looks` times: one look a pass and one
      a task, so all passes but perhaps the last go through all tasks. */
  ghost predicate Rounds(plan: Plan, trace: seq<Event>, looks: nat)
    requires plan.Valid()
    decreases looks
  {
    if looks == 0 then trace == []
    else
      var m := (looks - 1) % (|plan.last| + 1);
      LookIsInRange(looks, |plan.last| + 1);
      exists cut: nat :: cut < |trace| && Rounds(plan, trace[..cut], looks - 1 - m)
                         && Round(plan, trace[..cut], trace[cut..], m)
  }

  lemma LookIsInRange(looks: nat, n: nat)
    requires looks > 0 && n > 0
    ensures 0 <= (looks - 1) % n <= looks - 1 && (looks - 1) % n < n
  {
    ModAtMost(looks - 1, n);
  }

  lemma ModAtMost(a: nat, n: nat)
    requires n > 0
    ensures a % n <= a
  {
    assert a == n * (a / n) + a % n;
    assert a / n >= 0;
    assert n * (a / n) >= 0;
  }

  /** A run that a poll ended by raising: whole passes, and a last one up to that poll. */
  ghost predicate Broken(plan: Plan, trace: seq<Event>)
    requires plan.Valid()
  {
    exists cut: nat, looks: nat, m: nat :: BrokenAt(plan, trace, cut, looks, m)
  }

  ghost predicate BrokenAt(plan: Plan, trace: seq<Event>, cut: nat, looks: nat, m: nat)
    requires plan.Valid()
  {
    && cut < |trace| && m <= |plan.last|
    && Rounds(plan, trace[..cut], looks) && PollsExactly(trace[cut..], DueTasks(plan, trace[..cut], m))
  }

  lemma RoundFits(looks: nat, m: nat, n: nat)
    requires n > 0 && looks % n == 0 && m < n
    ensures (looks + m) % n == m
  {
    var q := looks / n;
    assert looks + m == n * q + m;
    var d := (looks + m) / n;
    assert looks + m == n * d + (looks + m) % n;
    if d > q { Fits(q + 1, d, n); } else if d < q { Fits(d + 1, q, n); }
    assert (q + 1) * n == q * n + n && (d + 1) * n == d * n + n;
  }

  /** That many looks are whole passes. */
  predicate Whole(plan: Plan, looks: nat) {
    looks % (|plan.last| + 1) == 0
  }

  /** A pass over the first `m` tasks extends the rounds. */
  lemma RoundsExtend(plan: Plan, before: seq<Event>, polls: seq<Event>, e: Event, looks: nat, m: nat)
    requires plan.Valid() && m <= |plan.last| && Whole(plan, looks) && Rounds(plan, before, looks)
    requires PollsExactly(polls, DueTasks(plan, before, m)) && e.Nap?
    ensures Rounds(plan, before + polls + [e], looks + 1 + m)
    ensures m == |plan.last| ==> Whole(plan, looks + 1 + m)
  {
    hide PollsExactly, DueTasks;
    var n := |plan.last| + 1;
    RoundFits(looks, m, n);
    var trace := before + polls + [e];
    var cut := |before|;
    assert trace[..cut] == before && trace[cut..] == polls + [e];
    assert trace[cut..][..|trace[cut..]| - 1] == polls;
    assert (looks + 1 + m - 1) % n == m && looks + 1 + m - 1 - m == looks;
    assert Round(plan, trace[..cut], trace[cut..], m);
    if m == n - 1 { NextMultiple(looks, n); }
  }

  lemma NextMultiple(a: nat, n: nat)
    requires n > 0 && a % n == 0
    ensures (a + n) % n == 0
  {
    var q := a / n;
    assert a + n == n * q + n == n * (q + 1);
    var d := (a + n) / n;
    assert a + n == n * d + (a + n) % n;
    if d > q + 1 { Fits(q + 2, d, n); } else if d < q + 1 { Fits(d + 1, q + 1, n); }
    assert (q + 2) * n == (q + 1) * n + n && (d + 1) * n == d * n + n;
  }

  /** A sweep from the end of `before`, so far: the due tasks below `i` have been polled. */
  ghost predicate Sweeping(plan: Plan, before: seq<Event>, polls: seq<Event>, i: int)
    requires plan.Valid()
  {
    && 0 <= i <= |plan.last|
    && OnTime(plan, before + polls) && InSweep(plan, before + polls, Now(plan, before), i)
    && PollsExactly(polls, DueTasks(plan, before, i))
    && forall k :: i <= k < |plan.last| ==> Due(plan, before + polls, k) == Due(plan, before, k)
  }

  lemma SweepStarts(plan: Plan, before: seq<Event>)
    requires plan.Valid() && OnTime(plan, before) && InSweep(plan, before, Now(plan, before), 0)
    ensures Sweeping(plan, before, [], 0) && before + [] == before
  {
    assert before + [] == before;
  }

  lemma SweepSkips(plan: Plan, before: seq<Event>, polls: seq<Event>, i: nat)
    requires plan.Valid() && i < |plan.last| && Sweeping(plan, before, polls, i)
    requires Now(plan, before) < Due(plan, before, i)
    ensures Sweeping(plan, before, polls, i + 1)
  {
    hide OnTime, InSweep, LastPoll;
    Skip(plan, before + polls, Now(plan, before), i);
  }

  lemma SweepPolls(plan: Plan, before: seq<Event>, polls: seq<Event>, i: nat, e: Event)
    requires plan.Valid() && i < |plan.last| && Sweeping(plan, before, polls, i) && !Over(before + polls)
    requires Due(plan, before, i) <= Now(plan, before)
    requires e.Poll? && e.task == i && e.start == Now(plan, before + polls) <= e.end <= e.start + plan.longest
    ensures before + (polls + [e]) == before + polls + [e]
    ensures OnTime(plan, before + (polls + [e])) && PollsExactly(polls + [e], DueTasks(plan, before, i + 1))
    ensures e.ok ==> Sweeping(plan, before, polls + [e], i + 1)
  {
    hide OnTime, InSweep, LastPoll, Over;
    assert before + (polls + [e]) == before + polls + [e];
    PollKeeps(plan, before + polls, Now(plan, before), i, e);
    Append(plan, before + polls, e);
  }

  class PollTask {
    const interval: nat
    var lastPoll: int

    constructor (interval: nat, lastPoll: int)
      ensures this.interval == interval && this.lastPoll == lastPoll
    {
      this.interval, this.lastPoll := interval, lastPoll;
    }

    function NextDue(): int
      reads this
    {
      lastPoll + interval
    }
  }

  class HttpApiConnector {
    const tasks: seq<PollTask>
    /** Whether an HTTP session is open. */
    var live: bool

    constructor (tasks: seq<PollTask>)
      requires forall i, j :: 0 <= i < j < |tasks| ==> tasks[i] != tasks[j]
      ensures this.tasks == tasks && Valid() && !live
    {
      this.tasks, live := tasks, false;
    }

    /** One task a device. */
    ghost predicate Valid() {
      forall i, j :: 0 <= i < j < |tasks| ==> tasks[i] != tasks[j]
    }

    ghost function PlanAt(begin: int, longest: nat): Plan
      reads tasks
    {
      Plan(seq(|tasks|, k requires 0 <= k < |tasks| => tasks[k].interval),
           seq(|tasks|, k requires 0 <= k < |tasks| reads tasks => tasks[k].lastPoll), begin, longest)
    }

    /** The tasks hold exactly what the trace says. */
    ghost predicate Follows(plan: Plan, trace: seq<Event>)
      reads tasks
    {
      && plan.Valid() && |tasks| == |plan.last|
      && (forall k :: 0 <= k < |tasks| ==> tasks[k].interval == plan.interval[k])
      && (forall k :: 0 <= k < |tasks| ==> tasks[k].lastPoll == LastPoll(plan, trace, k))
    }

    method EarliestDue() returns (due: int)
      requires tasks != []
      ensures forall k :: 0 <= k < |tasks| ==> due <= tasks[k].NextDue()
      ensures exists k :: 0 <= k < |tasks| && due == tasks[k].NextDue()
    {
      due := tasks[0].NextDue();
      for i := 1 to |tasks|
        invariant forall k :: 0 <= k < i ==> due <= tasks[k].NextDue()
        invariant exists k :: 0 <= k < i && due == tasks[k].NextDue()
      {
        if tasks[i].NextDue() < due {
          due := tasks[i].NextDue();
        }
      }
    }

    /** The sweep over the tasks that begins at the end of `trace`. The stop event will be found
        clear `patience` more times. */
    method Sweep(ghost plan: Plan, trace: seq<Event>, now: int, longest: nat, patience: nat)
      returns (polls: seq<Event>, clock: int, left: nat, ghost done: nat)
      requires Valid() && Follows(plan, trace) && OnTime(plan, trace) && !Over(trace)
      requires plan.longest == longest && now == Now(plan, trace) && InSweep(plan, trace, now, 0)
      modifies tasks
      ensures Follows(plan, trace + polls) && OnTime(plan, trace + polls) && clock == Now(plan, trace + polls)
      ensures done <= |tasks| && PollsExactly(polls, DueTasks(plan, trace, done)) && left + done == patience
      ensures Over(trace + polls) ==> polls != [] && Raised(trace + polls)
      ensures !Over(trace + polls) ==> InSweep(plan, trace + polls, now, done) && (left == 0 || done == |tasks|)
    {
      hide OnTime, InSweep, LastPoll, Over, PollsExactly, DueTasks;
      polls, clock, left, done := [], now, patience, 0;
      SweepStarts(plan, trace);
      var i := 0;
      while i < |tasks| && left > 0
        invariant 0 <= i <= |tasks| && left + i == patience && done == i
        invariant Follows(plan, trace + polls) && !Over(trace + polls) && clock == Now(plan, trace + polls)
        invariant Sweeping(plan, trace, polls, i)
      {
        left := left - 1;
        assert tasks[i].NextDue() == Due(plan, trace, i);
        done := i + 1;
        if now >= tasks[i].NextDue() {
          hide Sweeping;
          var took: nat :| took <= longest;
          var ok: bool := *;
          var e := Poll(i, clock, clock + took, ok);
          SweepPolls(plan, trace, polls, i, e);
          Append(plan, trace + polls, e);
          OverSnoc(trace + polls, e);
          polls, clock := polls + [e], clock + took;
          if !ok {
            return;
          }
          tasks[i].lastPoll := clock;
        } else {
          SweepSkips(plan, trace, polls, i);
        }
        i := i + 1;
      }
    }

    /** The sleep between sweeps; only a stop event (`stopping`) can end it early. */
    method Rest(ghost plan: Plan, ghost trace: seq<Event>, clock: int, stopping: bool) returns (e: Event)
      requires tasks != [] && Follows(plan, trace) && clock == Now(plan, trace) && !Over(trace)
      ensures e.Nap? && Punctual(plan, trace, e) && (!stopping ==> !e.cut)
    {
      hide LastPoll, Over;
      var due := EarliestDue();
      ghost var first :| 0 <= first < |tasks| && due == tasks[first].NextDue();
      assert Due(plan, trace, first) == due;
      assert forall k :: 0 <= k < |tasks| ==> Due(plan, trace, k) == tasks[k].NextDue();
      var sleep := Max(0, if due - clock < MAX_SLEEP then due - clock else MAX_SLEEP);
      var slept: nat := sleep;
      if stopping {
        slept :| 0 <= slept <= sleep;
      }
      e := Nap(clock, clock + slept, slept < sleep);
    }

    /** One pass of the poll loop. */
    method Pass(ghost plan: Plan, trace: seq<Event>, now: int, longest: nat, patience: nat, ghost looks: nat)
      returns (trace': seq<Event>, clock: int, left: nat)
      requires Valid() && Follows(plan, trace) && OnTime(plan, trace) && !Over(trace) && tasks != []
      requires plan.longest == longest && now == Now(plan, trace) && InSweep(plan, trace, now, 0)
      requires Rounds(plan, trace, looks) && Whole(plan, looks)
      modifies tasks
      ensures Follows(plan, trace') && OnTime(plan, trace') && clock == Now(plan, trace') && left <= patience
      ensures Raised(trace') ==> Broken(plan, trace')
      ensures !Raised(trace') ==>
                NobodyStarves(plan, trace') && Rounds(plan, trace', looks + 1 + patience - left)
      ensures !Raised(trace') && left > 0 ==>
                !Over(trace') && InSweep(plan, trace', clock, 0) && Whole(plan, looks + 1 + patience - left)
    {
      hide OnTime, InSweep, LastPoll, Over, Punctual, NobodyStarves, Rounds, PollsExactly, DueTasks, Broken, Whole;
      ghost var done;
      var polls;
      polls, clock, left, done := Sweep(plan, trace, now, longest, patience);
      trace' := trace + polls;
      if Over(trace') {
        BrokenIn(plan, trace, polls, looks, done);
        return;
      }
      var e := Rest(plan, trace', clock, left == 0);
      PassKeeps(plan, trace, polls, e, looks, done);
      trace', clock := trace' + [e], e.end;
    }

    /** Pass after pass, until the stop event has been found clear `patience` times or an exception
        escapes a poll. */
    method Passes(ghost plan: Plan, begin: int, longest: nat, patience: nat)
      returns (trace: seq<Event>, clock: int)
      requires Valid() && tasks != [] && plan.Valid() && Follows(plan, [])
      requires plan.longest == longest && plan.begin == begin
      modifies tasks
      ensures Follows(plan, trace) && OnTime(plan, trace) && clock == Now(plan, trace)
      ensures if Raised(trace) then Broken(plan, trace)
              else Rounds(plan, trace, patience) && NobodyStarves(plan, trace)
    {
      hide OnTime, InSweep, LastPoll, Over, NobodyStarves, Rounds, Broken, Whole, Follows, Raised;
      trace, clock := [], begin;
      var left: nat := patience;
      Fresh(plan);
      while left > 0 && !Raised(trace)
        invariant plan.Valid() && Follows(plan, trace) && OnTime(plan, trace) && clock == Now(plan, trace)
        invariant left <= patience
        invariant Raised(trace) ==> Broken(plan, trace)
        invariant !Raised(trace) ==> NobodyStarves(plan, trace) && Rounds(plan, trace, patience - left)
        invariant !Raised(trace) && left > 0 ==>
                    !Over(trace) && InSweep(plan, trace, clock, 0) && Whole(plan, patience - left)
      {
        trace, clock, left := Pass(plan, trace, clock, longest, left - 1, patience - left);
      }
    }

    /** `start`, from time `begin`. Every poll is in time and no sleep is longer than it has to be, in a
        run of any length. */
    method Start(begin: int, longest: nat, patience: nat) returns (trace: seq<Event>, clock: int)
      requires Valid()
      modifies this, tasks
      ensures !live
      ensures tasks == [] ==> trace == []
      ensures tasks != [] ==>
                var plan := old(PlanAt(begin, longest));
                && Follows(plan, trace) && OnTime(plan, trace) && clock == Now(plan, trace)
                && (forall q :: 0 <= q < |trace| && trace[q].Poll? ==> PolledInTime(plan, trace, q))
                && (forall q :: 0 <= q < |trace| && trace[q].Nap? ==> SleptUntilDue(plan, trace, q))
                && if Raised(trace) then Broken(plan, trace)
                   else Rounds(plan, trace, patience) && NobodyStarves(plan, trace)
    {
      hide OnTime, PolledInTime, SleptUntilDue, Raised, Broken, Rounds, NobodyStarves, LastPoll;
      trace, clock := [], begin;
      if tasks != [] {
        live := true;
        ghost var plan := PlanAt(begin, longest);
        assert Follows(plan, []) by { StartsThere(plan); }
        trace, clock := Passes(plan, begin, longest, patience);
        forall q | 0 <= q < |trace| && trace[q].Poll? ensures PolledInTime(plan, trace, q) {
          LatenessIsBounded(plan, trace, q);
        }
        forall q | 0 <= q < |trace| && trace[q].Nap? ensures SleptUntilDue(plan, trace, q) {
          SleepsAreBounded(plan, trace, q);
        }
      }
      live := false;
    }
  }

  /** The trace ends in an escaped exception. */
  predicate Raised(trace: seq<Event>) {
    trace != [] && trace[|trace| - 1].Poll? && !trace[|trace| - 1].ok
  }

  /** A whole pass, sleep included. */
  lemma PassKeeps(plan: Plan, before: seq<Event>, polls: seq<Event>, e: Event, looks: nat, m: nat)
    requires plan.Valid() && m <= |plan.last| && Whole(plan, looks) && Rounds(plan, before, looks)
    requires PollsExactly(polls, DueTasks(plan, before, m)) && e.Nap? && Punctual(plan, before + polls, e)
    requires OnTime(plan, before + polls) && InSweep(plan, before + polls, Now(plan, before), m)
    ensures var trace := before + polls + [e];
      && OnTime(plan, trace) && NobodyStarves(plan, trace) && Rounds(plan, trace, looks + 1 + m)
      && Now(plan, trace) == e.end && Over(trace) == e.cut && !Raised(trace)
      && (m == |plan.last| ==> InSweep(plan, trace, e.end, 0) && Whole(plan, looks + 1 + m))
      && forall k :: 0 <= k < |plan.last| ==> LastPoll(plan, trace, k) == LastPoll(plan, before + polls, k)
  {
    hide OnTime, InSweep, Over, Punctual, NobodyStarves, Rounds, PollsExactly, DueTasks, LastPoll, Whole;
    NapKeeps(plan, before + polls, Now(plan, before), m, e);
    Append(plan, before + polls, e);
    OverSnoc(before + polls, e);
    RoundsExtend(plan, before, polls, e, looks, m);
  }

  lemma BrokenIn(plan: Plan, before: seq<Event>, polls: seq<Event>, looks: nat, m: nat)
    requires plan.Valid() && m <= |plan.last| && Rounds(plan, before, looks)
    requires polls != [] && PollsExactly(polls, DueTasks(plan, before, m))
    ensures Broken(plan, before + polls)
  {
    var trace, cut := before + polls, |before|;
    assert trace[..cut] == before && trace[cut..] == polls;
    assert BrokenAt(plan, trace, cut, looks, m);
  }

  lemma StartsThere(plan: Plan)
    requires plan.Valid()
    ensures forall k :: 0 <= k < |plan.last| ==> LastPoll(plan, [], k) == plan.last[k]
  {
  }

  lemma Fresh(plan: Plan)
    requires plan.Valid()
    ensures OnTime(plan, []) && !Over([]) && InSweep(plan, [], plan.begin, 0) && NobodyStarves(plan, [])
    ensures Rounds(plan, [], 0) && !Raised([]) && Whole(plan, 0)
    ensures forall k :: 0 <= k < |plan.last| ==> LastPoll(plan, [], k) == plan.last[k]
  {
    Fits(0, |plan.last| - 1, plan.longest);
    SweepStarvesNobody(plan, [], plan.begin, 0);
  }

  /** A device's last poll is not before any of its polls in the run. */
  lemma {:induction false} LastPollSince(plan: Plan, trace: seq<Event>, p: nat)
    requires plan.Valid() && OnTime(plan, trace) && p < |trace| && trace[p].Poll? && trace[p].ok
    requires trace[p].task < |plan.last|
    ensures trace[p].end <= LastPoll(plan, trace, trace[p].task)
    ensures trace[p].end <= Now(plan, trace)
  {
    var before := trace[..|trace| - 1];
    if p < |trace| - 1 {
      Prefix(plan, trace, |trace| - 1);
      assert before[p] == trace[p];
      LastPollSince(plan, before, p);
      assert Punctual(plan, before, trace[|trace| - 1]);
    }
  }

  lemma Prefix(plan: Plan, trace: seq<Event>, n: nat)
    requires plan.Valid() && OnTime(plan, trace) && n <= |trace|
    ensures OnTime(plan, trace[..n])
  {
    var before := trace[..n];
    forall p | 0 <= p < |before|
      ensures Punctual(plan, before[..p], before[p]) && NobodyStarves(plan, before[..p])
    {
      assert before[..p] == trace[..p];
    }
  }

  /** Only a poll moves a device's last poll. */
  lemma {:induction false} LastPollIsAPoll(plan: Plan, trace: seq<Event>, from: nat, k: nat)
    requires plan.Valid() && from <= |trace| && k < |plan.last|
    requires forall q :: from <= q < |trace| ==> !(trace[q].Poll? && trace[q].task == k && trace[q].ok)
    ensures LastPoll(plan, trace, k) == LastPoll(plan, trace[..from], k)
  {
    if from < |trace| {
      var before := trace[..|trace| - 1];
      assert before[..from] == trace[..from];
      LastPollIsAPoll(plan, before, from, k);
    } else {
      assert trace[..from] == trace;
    }
  }

  /** Polls of one device are at least its interval apart, end to start. */
  lemma IntervalIsKept(plan: Plan, trace: seq<Event>, p: nat, q: nat)
    requires plan.Valid() && OnTime(plan, trace) && p < q < |trace|
    requires trace[p].Poll? && trace[q].Poll? && trace[p].task == trace[q].task < |plan.last|
    ensures trace[p].end + plan.interval[trace[p].task] <= trace[q].start
  {
    var before := trace[..q];
    Prefix(plan, trace, q);
    assert before[p] == trace[p];
    assert trace[p].ok by {
      assert Punctual(plan, trace[..p + 1], trace[p + 1]);
      assert trace[..p + 1][p] == trace[p];
    }
    LastPollSince(plan, before, p);
    assert Punctual(plan, trace[..q], trace[q]);
  }

  /** A run that lasts longer than the slack past a device's due time has polled that device. */
  lemma EveryDeviceIsPolled(plan: Plan, trace: seq<Event>, from: nat, k: nat)
    requires plan.Valid() && NobodyStarves(plan, trace) && from <= |trace| && k < |plan.last|
    requires Max(Due(plan, trace[..from], k), plan.begin) + plan.Slack() < Now(plan, trace)
    ensures exists q :: from <= q < |trace| && trace[q].Poll? && trace[q].task == k && trace[q].ok
  {
    assert Now(plan, trace) <= Max(Due(plan, trace, k), plan.begin) + plan.Slack();
    if forall q :: from <= q < |trace| ==> !(trace[q].Poll? && trace[q].task == k && trace[q].ok) {
      LastPollIsAPoll(plan, trace, from, k);
    }
  }

  lemma OverSnoc(trace: seq<Event>, e: Event)
    ensures Over(trace + [e]) == (if e.Poll? then !e.ok else e.cut)
    ensures Raised(trace + [e]) == (e.Poll? && !e.ok)
  {
  }
}