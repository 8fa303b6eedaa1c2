/** The replay clock and its barrier (simulation/clock.py).

    `ClockState` is the value the condition guards; each function below is the effect of one
    critical section. The class `SimulationClock` is the object itself, whose methods are proved
    to perform exactly those effects. The lockstep protocol uses the same functions, so what is
    proved there is about the code of the class. */
module Clock {
  import opened Options

  type Name = string
  /** A timestamp of the replay file, as an integer instant. */
  type Moment = int

  datatype Step = Step(generation: nat, time: Moment)

  datatype ClockState = ClockState(
    simulated: bool,
    eventTime: Option<Moment>,
    stepTime: Option<Moment>,
    generation: nat,
    acked: map<Name, nat>)
  {
    /** `_pending`: the participants whose mark is behind the current generation. */
    ghost function Pending(): set<Name> {
      set n | n in acked && acked[n] < generation
    }

    predicate IsPending(name: Name) {
      name in acked && acked[name] < generation
    }

    /** The mark of a name, if it is a participant. */
    function Mark(name: Name): Option<nat> {
      if name in acked then Some(acked[name]) else None
    }
  }

  const FRESH: ClockState := ClockState(false, None, None, 0, map[])

  function StartSimulation(c: ClockState): ClockState {
    c.(simulated := true)
  }

  function Reset(c: ClockState): ClockState {
    c.(simulated := false, eventTime := None, stepTime := None)
  }

  function SetEventTime(c: ClockState, moment: Option<Moment>): ClockState {
    c.(eventTime := moment)
  }

  function PublishStep(c: ClockState, moment: Moment): ClockState {
    c.(simulated := true, stepTime := Some(moment), generation := c.generation + 1)
  }

  function Join(c: ClockState, name: Name): ClockState {
    if name in c.acked then c else c.(acked := c.acked[name := c.generation])
  }

  function Leave(c: ClockState, name: Name): ClockState {
    c.(acked := c.acked - {name})
  }

  function Ack(c: ClockState, name: Name, generation: nat): ClockState {
    var mark := if name in c.acked && c.acked[name] > generation then c.acked[name] else generation;
    c.(acked := c.acked[name := mark])
  }

  /** What `wait_for_step` returns when its last look at the clock sees `c`. */
  function WaitForStep(c: ClockState, name: Name): Option<Step> {
    if !c.simulated || c.stepTime.None? || !c.IsPending(name) then None
    else Some(Step(c.generation, c.stepTime.value))
  }

  function EventTime(c: ClockState): Option<Moment> {
    if c.eventTime.Some? then c.eventTime else c.stepTime
  }

  /** Everything that joined since `before` leaves again (main.py, `_construct`). */
  function Withdraw(c: ClockState, before: set<Name>): ClockState {
    c.(acked := map n | n in c.acked && n in before :: c.acked[n])
  }

  /** Joining a list of names one after the other. */
  function JoinAll(c: ClockState, names: seq<Name>): ClockState {
    if names == [] then c else Join(JoinAll(c, names[..|names| - 1]), names[|names| - 1])
  }

  // --- facts about the critical sections -------------------------------------

  /** A late joiner owes nothing, and a second join discards nothing. */
  lemma JoinKeepsPending(c: ClockState, name: Name)
    ensures Join(c, name).Pending() == c.Pending()
    ensures Join(Join(c, name), name) == Join(c, name)
    ensures forall n :: n in c.acked ==> Join(c, name).Mark(n) == c.Mark(n)
  {
    var j := Join(c, name);
    assert forall n :: n in j.Pending() <==> n in c.Pending();
  }

  /** An acknowledgement settles the current step, for that name only, and an old one never
      walks the mark back. */
  lemma AckSettles(c: ClockState, name: Name, generation: nat)
    requires generation <= c.generation
    ensures name in c.acked ==> Ack(c, name, generation).acked[name] >= c.acked[name]
    ensures Ack(c, name, c.generation).Pending() == c.Pending() - {name}
    ensures name in c.acked ==> Ack(c, name, generation).Pending() <= c.Pending()
  {
    assert Ack(c, name, c.generation).Pending() == c.Pending() - {name};
  }

  /** Join keeps every earlier participant and its mark. */
  lemma {:induction false} JoinAllKeeps(c: ClockState, names: seq<Name>)
    ensures var j := JoinAll(c, names);
            && c.acked.Keys <= j.acked.Keys
            && (forall n :: n in c.acked ==> j.acked[n] == c.acked[n])
            && j == c.(acked := j.acked)
  {
    if names != [] {
      JoinAllKeeps(c, names[..|names| - 1]);
    }
  }

  /** A construction that raised leaves the barrier exactly as it found it, whatever its
      constructor had joined before raising. */
  lemma FailedConstructionIsInvisible(c: ClockState, joined: seq<Name>)
    ensures Withdraw(JoinAll(c, joined), c.acked.Keys) == c
  {
    JoinAllKeeps(c, joined);
    assert Withdraw(JoinAll(c, joined), c.acked.Keys).acked == c.acked;
  }

  // --- the object ------------------------------------------------------------

  class SimulationClock {
    var simulated: bool
    var eventTime: Option<Moment>
    var stepTime: Option<Moment>
    var generation: nat
    var acked: map<Name, nat>

    function State(): ClockState
      reads this
    {
      ClockState(simulated, eventTime, stepTime, generation, acked)
    }

    constructor ()
      ensures State() == FRESH
    {
      simulated, eventTime, stepTime, generation, acked := false, None, None, 0, map[];
    }

    method DoStartSimulation()
      modifies this
      ensures State() == StartSimulation(old(State()))
    {
      simulated := true;
    }

    method DoReset()
      modifies this
      ensures State() == Reset(old(State()))
      ensures !simulated && eventTime == None && stepTime == None && acked == old(acked)
    {
      simulated, eventTime, stepTime := false, None, None;
    }

    method DoSetEventTime(moment: Option<Moment>)
      modifies this
      ensures State() == SetEventTime(old(State()), moment)
    {
      eventTime := moment;
    }

    method DoPublishStep(moment: Moment)
      modifies this
      ensures State() == PublishStep(old(State()), moment)
      ensures simulated && stepTime == Some(moment) && generation == old(generation) + 1 && acked == old(acked)
      ensures State().Pending() == set n | n in acked && acked[n] <= old(generation)
    {
      simulated := true;
      stepTime := Some(moment);
      generation := generation + 1;
    }

    method DoJoin(name: Name)
      modifies this
      ensures State() == Join(old(State()), name)
      ensures acked == if name in old(acked) then old(acked) else old(acked)[name := generation]
      ensures State().Pending() == old(State().Pending())
    {
      JoinKeepsPending(State(), name);
      if name !in acked {
        acked := acked[name := generation];
      }
    }

    method DoLeave(name: Name)
      modifies this
      ensures State() == Leave(old(State()), name)
      ensures State().Pending() == old(State().Pending()) - {name}
    {
      acked := acked - {name};
      assert State().Pending() == old(State().Pending()) - {name};
    }

    method DoAck(name: Name, finished: nat)
      modifies this
      ensures State() == Ack(old(State()), name, finished)
      ensures name in old(acked) ==> acked[name] >= old(acked)[name]
    {
      var mark := if name in acked then acked[name] else finished;
      if mark < finished {
        mark := finished;
      }
      acked := acked[name := mark];
    }

    /** The last look `wait_for_step` takes at the clock. */
    method PollStep(name: Name) returns (step: Option<Step>)
      ensures step == WaitForStep(State(), name)
      ensures step.Some? ==> name in acked && acked[name] < step.value.generation == generation
    {
      if !simulated || stepTime.None? || name !in acked || acked[name] >= generation {
        return None;
      }
      return Some(Step(generation, stepTime.value));
    }

    /** `Main._construct`, with the constructor's effect on the barrier as an input: the names
        it joins, then whether it raises. */
    method Construct(joined: seq<Name>, raises: bool)
      modifies this
      ensures raises ==> State() == old(State())
      ensures !raises ==> State() == JoinAll(old(State()), joined)
    {
      ghost var start := State();
      var before := acked.Keys;
      var i := 0;
      while i < |joined|
        invariant 0 <= i <= |joined|
        invariant State() == JoinAll(start, joined[..i])
      {
        DoJoin(joined[i]);
        assert joined[..i + 1][..i] == joined[..i];
        i := i + 1;
      }
      assert joined[..i] == joined;
      if raises {
        JoinAllKeeps(start, joined);
        FailedConstructionIsInvisible(start, joined);
        ghost var full := State();
        var added := acked.Keys - before;
        while added != {}
          invariant added == acked.Keys - before
          invariant before <= acked.Keys <= full.acked.Keys
          invariant forall n :: n in acked ==> acked[n] == full.acked[n]
          invariant State() == full.(acked := acked)
          decreases added
        {
          var n :| n in added;
          DoLeave(n);
          added := added - {n};
        }
        assert acked.Keys == before by {
          assert forall n :: n in acked.Keys && n !in before ==> n in acked.Keys - before;
        }
        assert acked == Withdraw(full, before).acked;
      }
    }
  }

  // --- waiting for the participants -------------------------------------------

  /** What the replay thread sees on one pass of `wait_for_completion`. */
  datatype Look = Look(clock: ClockState, now: int, stopping: bool)

  /** The pass on which the wait ends, and what it ends with. */
  datatype Waited = StillWaiting | Over(pass: nat, late: set<Name>)

  ghost predicate Satisfied(look: Look) {
    look.clock.Pending() == {} || look.stopping
  }

  ghost predicate Expired(look: Look, deadline: Option<int>) {
    deadline.Some? && deadline.value <= look.now
  }

  /** `wait_for_completion` over what it sees each time it holds the condition. The wait ends at
      the first pass that is satisfied or past the deadline; a satisfied pass wins over the
      deadline; only a pass past the deadline names anybody. */
  method WaitForCompletion(looks: seq<Look>, timeout: Option<int>, started: int) returns (r: Waited)
    ensures timeout.Some? && timeout.value <= 0 ==> r == Over(0, {})
    ensures (timeout.None? || timeout.value > 0) ==>
      var deadline := if timeout.None? then None else Some(started + timeout.value);
      match r
      case StillWaiting =>
        forall k :: 0 <= k < |looks| ==> !Satisfied(looks[k]) && !Expired(looks[k], deadline)
      case Over(pass, late) =>
        && pass < |looks|
        && (forall k :: 0 <= k < pass ==> !Satisfied(looks[k]) && !Expired(looks[k], deadline))
        && (Satisfied(looks[pass]) || Expired(looks[pass], deadline))
        && late == (if Satisfied(looks[pass]) then {} else looks[pass].clock.Pending())
  {
    if timeout.Some? && timeout.value <= 0 {
      return Over(0, {});
    }
    var deadline := if timeout.None? then None else Some(started + timeout.value);
    var k := 0;
    while k < |looks|
      invariant 0 <= k <= |looks|
      invariant forall j :: 0 <= j < k ==> !Satisfied(looks[j]) && !Expired(looks[j], deadline)
    {
      var c := looks[k].clock;
      var pending := set n | n in c.acked && c.acked[n] < c.generation;
      assert pending == c.Pending();
      if pending == {} || looks[k].stopping {
        return Over(k, {});
      }
      if deadline.Some? && deadline.value - looks[k].now <= 0 {
        return Over(k, pending);
      }
      k := k + 1;
    }
    return StillWaiting;
  }
}
