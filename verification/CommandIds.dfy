/** Allocating a command id and writing its frame (`_send_command` of
    connectors/home_assistant.py) from any number of threads: one lock over both keeps the ids on
    the wire increasing, which the server insists on; a lock over each alone would not. */
module CommandIds {
  import opened Options
  import opened Sequences

  /** Where a sending thread is. */
  datatype Pc = Outside | Locked | Allocated(id: nat)

  /** `holder` is the thread holding `_send_lock`; `wire` the ids written to the socket. */
  datatype State = State(next: nat, wire: seq<nat>, holder: Option<int>, threads: map<int, Pc>)

  datatype Action = Acquire(thread: int) | Allocate(thread: int) | Write(thread: int, fails: bool)

  function PcOf(s: State, t: int): Pc {
    if t in s.threads then s.threads[t] else Outside
  }

  /** One step of one thread; `oneLock` says whether the lock is kept from the allocation to the
      write, as the code does, or each step is atomic by itself. */
  function Apply(oneLock: bool, s: State, a: Action): Option<State> {
    match a
    case Acquire(t) =>
      if PcOf(s, t).Outside? && (oneLock ==> s.holder.None?)
      then Some(s.(holder := Some(t), threads := s.threads[t := Locked])) else None
    case Allocate(t) =>
      if PcOf(s, t).Locked?
      then Some(s.(next := s.next + 1, threads := s.threads[t := Allocated(s.next)])) else None
    case Write(t, fails) =>
      if PcOf(s, t).Allocated?
      then Some(s.(wire := if fails then s.wire else s.wire + [PcOf(s, t).id],
                   holder := None, threads := s.threads[t := Outside])) else None
  }

  function Run(oneLock: bool, schedule: seq<Action>): Option<State> {
    if schedule == [] then Some(State(1, [], None, map[]))
    else match Run(oneLock, schedule[..|schedule| - 1])
      case None => None
      case Some(s) => Apply(oneLock, s, schedule[|schedule| - 1])
  }

  /** Only the holder is inside; what it has allocated is above everything written. */
  ghost predicate Inv(s: State) {
    && Ascending(s.wire)
    && (forall i :: 0 <= i < |s.wire| ==> s.wire[i] < s.next)
    && (forall t :: t in s.threads && !s.threads[t].Outside? ==> s.holder == Some(t))
    && (forall t, i :: t in s.threads && s.threads[t].Allocated? && 0 <= i < |s.wire| ==>
          s.wire[i] < s.threads[t].id)
    && (forall t :: t in s.threads && s.threads[t].Allocated? ==> s.threads[t].id < s.next)
  }

  lemma ApplyInv(s: State, a: Action)
    requires Inv(s) && Apply(true, s, a).Some?
    ensures Inv(Apply(true, s, a).value)
  {
  }

  /** Under one lock, in every interleaving of any number of senders, failing writes included,
      the ids on the wire strictly increase. */
  lemma {:induction false} IdsIncreaseOnTheWire(schedule: seq<Action>)
    requires Run(true, schedule).Some?
    ensures Inv(Run(true, schedule).value) && Ascending(Run(true, schedule).value.wire)
  {
    if schedule != [] {
      var before := schedule[..|schedule| - 1];
      IdsIncreaseOnTheWire(before);
      ApplyInv(Run(true, before).value, schedule[|schedule| - 1]);
    }
  }

  function Allocations(schedule: seq<Action>): nat {
    if schedule == [] then 0
    else Allocations(schedule[..|schedule| - 1]) + if schedule[|schedule| - 1].Allocate? then 1 else 0
  }

  /** The writes that do not fail. */
  function Writes(schedule: seq<Action>): nat {
    if schedule == [] then 0
    else
      var a := schedule[|schedule| - 1];
      Writes(schedule[..|schedule| - 1]) + if a.Write? && !a.fails then 1 else 0
  }

  /** Every allocation takes the next id, from 1 on, and every write that does not fail puts its own on
      the wire: none is written twice and none is lost. */
  lemma {:induction false} WritesReachTheWire(schedule: seq<Action>)
    requires Run(true, schedule).Some?
    ensures var s := Run(true, schedule).value;
      && s.next == 1 + Allocations(schedule)
      && |s.wire| == Writes(schedule)
      && (forall i :: 0 <= i < |s.wire| ==> 1 <= s.wire[i] < s.next)
      && (forall t :: t in s.threads && s.threads[t].Allocated? ==> 1 <= s.threads[t].id)
  {
    if schedule != [] {
      IdsIncreaseOnTheWire(schedule);
      WritesReachTheWire(schedule[..|schedule| - 1]);
    }
  }

  lemma RunSnoc(oneLock: bool, schedule: seq<Action>, a: Action, s: State)
    requires Run(oneLock, schedule) == Some(s)
    ensures Run(oneLock, schedule + [a]) == Apply(oneLock, s, a)
  {
    assert (schedule + [a])[..|schedule|] == schedule;
  }

  /** With separate locks two threads can write their ids the wrong way round. */
  lemma SeparateLocksReorder()
    ensures exists schedule :: Run(false, schedule).Some? && !Ascending(Run(false, schedule).value.wire)
  {
    hide Run;
    var s0 := State(1, [], None, map[]);
    var s1 := Apply(false, s0, Acquire(1)).value;
    var s2 := Apply(false, s1, Acquire(2)).value;
    var s3 := Apply(false, s2, Allocate(1)).value;
    var s4 := Apply(false, s3, Allocate(2)).value;
    var s5 := Apply(false, s4, Write(2, false)).value;
    var s6 := Apply(false, s5, Write(1, false)).value;
    assert s6.wire == [2, 1];
    hide Apply;
    RunEmpty();
    var p1 := [] + [Acquire(1)];
    RunSnoc(false, [], Acquire(1), s0);
    var p2 := p1 + [Acquire(2)];
    RunSnoc(false, p1, Acquire(2), s1);
    var p3 := p2 + [Allocate(1)];
    RunSnoc(false, p2, Allocate(1), s2);
    var p4 := p3 + [Allocate(2)];
    RunSnoc(false, p3, Allocate(2), s3);
    var p5 := p4 + [Write(2, false)];
    RunSnoc(false, p4, Write(2, false), s4);
    var p6 := p5 + [Write(1, false)];
    RunSnoc(false, p5, Write(1, false), s5);
    assert Run(false, p6) == Some(s6);
    assert s6.wire[0] == 2 && s6.wire[1] == 1;
    assert !Ascending(s6.wire);
  }

  lemma RunEmpty()
    ensures Run(false, []) == Some(State(1, [], None, map[]))
  {
  }
}
