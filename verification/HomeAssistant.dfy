/** One session of the Home Assistant connector (connectors/home_assistant.py): subscribe, then
    snapshot, then handle whatever arrives; and the allocation of command ids.

    The server handles one socket's messages in order. Its own state changes, its handling of
    commands, the connector's receive thread and any number of sending threads interleave freely. */
module HomeAssistant {
  import opened Options
  import opened Sequences

  type Entity = string
  type Value = string

  // --- the wire ----------------------------------------------------------------

  datatype Command = SubscribeEvents(id: nat) | GetStates(id: nat) | Other(id: nat)

  datatype StateObject = StateObject(entity: Entity, value: Value)

  /** `Changed` is a state_changed event; its new state is null for a removed entity. `States` is a
      result that lists states, `Success` any other. */
  datatype Frame =
    | Changed(entity: Entity, newState: Option<Value>)
    | States(id: nat, states: seq<StateObject>)
    | Success(id: nat)
    | Refusal(id: nat)

  // --- the client ----------------------------------------------------------------

  /** What the receive thread owns: the last state dispatched for each entity, and `_snapshot_id`. */
  datatype Client = Client(last: map<Entity, Value>, snapshotId: Option<nat>)

  function Dispatch(last: map<Entity, Value>, watched: set<Entity>, s: StateObject): map<Entity, Value> {
    if s.entity in watched then last[s.entity := s.value] else last
  }

  function DispatchAll(last: map<Entity, Value>, watched: set<Entity>, states: seq<StateObject>): map<Entity, Value> {
    if states == [] then last
    else Dispatch(DispatchAll(last, watched, states[..|states| - 1]), watched, states[|states| - 1])
  }

  /** `_handle_frame`. */
  function Handle(watched: set<Entity>, c: Client, f: Frame): Client {
    match f
    case Changed(e, None) => c
    case Changed(e, Some(v)) => c.(last := Dispatch(c.last, watched, StateObject(e, v)))
    case States(id, states) =>
      if c.snapshotId == Some(id) then Client(DispatchAll(c.last, watched, states), None) else c
    case Success(id) => if c.snapshotId == Some(id) then c.(snapshotId := None) else c
    case Refusal(_) => c
  }

  function HandleAll(watched: set<Entity>, c: Client, frames: seq<Frame>): Client {
    if frames == [] then c
    else Handle(watched, HandleAll(watched, c, frames[..|frames| - 1]), frames[|frames| - 1])
  }

  function Ids(commands: seq<Command>): seq<nat> {
    seq(|commands|, i requires 0 <= i < |commands| => commands[i].id)
  }

  class Connector {
    const watched: set<Entity>
    var last: map<Entity, Value>
    var snapshotId: Option<nat>
    var nextId: nat
    /** Whether a socket is open. */
    var open: bool
    /** The commands written so far, over all sessions. */
    ghost var written: seq<Command>

    function State(): Client
      reads this
    {
      Client(last, snapshotId)
    }

    ghost predicate Valid()
      reads this
    {
      Ascending(Ids(written)) && forall i :: 0 <= i < |written| ==> written[i].id < nextId
    }

    constructor (watched: set<Entity>)
      ensures Valid() && this.watched == watched && State() == Client(map[], None) && !open && written == []
    {
      this.watched := watched;
      last, snapshotId, nextId, open, written := map[], None, 1, false, [];
    }

    /** A socket is open. */
    method Connect()
      modifies this`open
      ensures open && State() == old(State())
    {
      open := true;
    }

    /** `_send_command`, inside its lock, given the command but for its id: None when it raises.
        Without a socket it takes no id; when writing the frame fails (`fails`) the id is used up all
        the same. */
    method SendCommand(command: Command, fails: bool) returns (id: Option<nat>)
      requires Valid()
      modifies this`nextId, this`written
      ensures Valid() && (id.Some? <==> open && !fails)
      ensures nextId == old(nextId) + if open then 1 else 0
      ensures id.Some? ==> id.value == old(nextId)
      ensures written == if id.Some? then old(written) + [command.(id := id.value)] else old(written)
    {
      if !open {
        return None;
      }
      var next := nextId;
      nextId := nextId + 1;
      if fails {
        return None;
      }
      assert Ids(written + [command.(id := next)]) == Ids(written) + [next];
      written := written + [command.(id := next)];
      return Some(next);
    }

    /** `_subscribe`: the subscription, then the request whose answer is the snapshot. */
    method Subscribe(firstFails: bool, secondFails: bool) returns (ok: bool)
      requires Valid()
      modifies this`nextId, this`written, this`snapshotId
      ensures Valid() && ok == (open && !firstFails && !secondFails)
      ensures ok ==> snapshotId == Some(old(nextId) + 1)
      ensures !ok ==> snapshotId == old(snapshotId)
      ensures written == old(written) + (if open && !firstFails then [SubscribeEvents(old(nextId))] else [])
                                      + (if ok then [GetStates(old(nextId) + 1)] else [])
    {
      var first := SendCommand(SubscribeEvents(0), firstFails);
      if first.None? {
        return false;
      }
      var second := SendCommand(GetStates(0), secondFails);
      if second.None? {
        return false;
      }
      snapshotId := second;
      return true;
    }

    /** `_teardown`: the next session waits for no old snapshot; what was dispatched stays. */
    method Teardown()
      modifies this`open, this`snapshotId
      ensures !open && State() == Client(old(last), None)
    {
      open, snapshotId := false, None;
    }

    /** `_handle_frame`. A change of a watched entity replaces its state, and a removal nothing. The
        result that is waited for ends the wait, and each watched entity it lists gets the last state
        it lists for it. Nothing else does anything. */
    method HandleFrame(f: Frame)
      modifies this`last, this`snapshotId
      ensures State() == Handle(watched, old(State()), f)
      ensures f.Changed? ==>
                && snapshotId == old(snapshotId)
                && last == if f.newState.Some? && f.entity in watched then old(last)[f.entity := f.newState.value]
                           else old(last)
      ensures f.Refusal? || ((f.States? || f.Success?) && old(snapshotId) != Some(f.id)) ==> State() == old(State())
      ensures f.Success? && old(snapshotId) == Some(f.id) ==> snapshotId == None && last == old(last)
      ensures f.States? && old(snapshotId) == Some(f.id) ==>
                snapshotId == None && Took(watched, old(last), f.states, last)
    {
      match f {
        case Changed(e, None) =>
        case Changed(e, Some(v)) =>
          if e in watched {
            last := last[e := v];
          }
        case States(id, states) =>
          if snapshotId != Some(id) {
            return;
          }
          snapshotId := None;
          var i := 0;
          while i < |states|
            invariant 0 <= i <= |states|
            invariant last == DispatchAll(old(last), watched, states[..i])
            invariant snapshotId == None
          {
            if states[i].entity in watched {
              last := last[states[i].entity := states[i].value];
            }
            assert states[..i + 1][..i] == states[..i];
            i := i + 1;
          }
          assert states[..i] == states;
          TakesTheLast(old(last), watched, states);
        case Success(id) =>
          if snapshotId == Some(id) {
            snapshotId := None;
          }
        case Refusal(_) =>
      }
    }
  }

  /** `after` is `before` with every watched entity of a listing at the last state listed for it. */
  ghost predicate Took(watched: set<Entity>, before: map<Entity, Value>, states: seq<StateObject>,
                       after: map<Entity, Value>) {
    && (forall i :: 0 <= i < |states| && states[i].entity in watched && LastOfIts(states, i) ==>
          states[i].entity in after && after[states[i].entity] == states[i].value)
    && (forall e :: e in before ==> e in after)
    && (forall e :: e in after ==>
          (e in before && after[e] == before[e])
          || (e in watched && exists i :: 0 <= i < |states| && LastOfIts(states, i) && states[i].entity == e))
    && (forall e :: e in before && e !in watched ==> after[e] == before[e])
  }

  ghost predicate LastOfIts(states: seq<StateObject>, i: nat)
    requires i < |states|
  {
    forall j :: i < j < |states| ==> states[j].entity != states[i].entity
  }

  lemma {:induction false} TakesTheLast(last: map<Entity, Value>, watched: set<Entity>, states: seq<StateObject>)
    ensures Took(watched, last, states, DispatchAll(last, watched, states))
  {
    if states != [] {
      var n := |states| - 1;
      TakesTheLast(last, watched, states[..n]);
      TakesOneMore(last, watched, states, DispatchAll(last, watched, states[..n]));
    }
  }

  lemma TakesOneMore(last: map<Entity, Value>, watched: set<Entity>, states: seq<StateObject>,
                     after: map<Entity, Value>)
    requires states != [] && Took(watched, last, states[..|states| - 1], after)
    ensures Took(watched, last, states, Dispatch(after, watched, states[|states| - 1]))
  {
    var n := |states| - 1;
    var more := Dispatch(after, watched, states[n]);
    assert LastOfIts(states, n);
    forall i | 0 <= i < n && LastOfIts(states, i) ensures LastOfIts(states[..n], i) {
    }
    forall i | 0 <= i < n && LastOfIts(states[..n], i) && states[i].entity != states[n].entity
      ensures LastOfIts(states, i)
    {
    }
    forall i | 0 <= i < |states| && states[i].entity in watched && LastOfIts(states, i)
      ensures states[i].entity in more && more[states[i].entity] == states[i].value
    {
      if i < n {
        assert states[..n][i] == states[i] && states[n].entity != states[i].entity;
      }
    }
    forall e | e in more
      ensures (e in last && more[e] == last[e])
              || (e in watched && exists i :: 0 <= i < |states| && LastOfIts(states, i) && states[i].entity == e)
    {
      if e in watched && e == states[n].entity {
      } else if e in last && after[e] == last[e] {
      } else {
        var i :| 0 <= i < n && LastOfIts(states[..n], i) && states[..n][i].entity == e;
        assert states[i].entity == e && LastOfIts(states, i);
      }
    }
  }

  // --- a session --------------------------------------------------------------------

  /** Where `_subscribe` is. */
  datatype Phase = SendingFirst | SendingSecond | Receiving

  /** `server` is the server's present state; `up` and `down` the messages in flight each way;
      `answered` that the server has answered the snapshot request with states. */
  datatype Session = Session(
    server: map<Entity, Value>,
    subscribed: bool,
    answered: bool,
    up: seq<Command>,
    down: seq<Frame>,
    client: Client,
    phase: Phase,
    nextId: nat)

  datatype Action =
    | SendNext                                   // `_subscribe`: its next command
    | SendOther                                  // a ping, or a command of an algorithm
    | ServerAnswers(order: seq<Entity>)          // the server handles its next command
    | ServerRefuses
    | ServerChanges(entity: Entity, newState: Option<Value>)
    | Receive

  /** The two orders `_subscribe` could use; the code uses `SubscribeFirst`. */
  datatype Order = SubscribeFirst | SnapshotFirst

  /** A session begins, the first one or one after a reconnect: `last` is whatever has been
      dispatched so far. */
  function Initial(server: map<Entity, Value>, firstId: nat, last: map<Entity, Value>): Session {
    Session(server, false, false, [], [], Client(last, None), SendingFirst, firstId)
  }

  /** The server's states, listed in some order. */
  function Listed(server: map<Entity, Value>, order: seq<Entity>): seq<StateObject>
    requires forall i :: 0 <= i < |order| ==> order[i] in server
  {
    if order == [] then []
    else Listed(server, order[..|order| - 1])
         + [StateObject(order[|order| - 1], server[order[|order| - 1]])]
  }

  predicate Lists(server: map<Entity, Value>, order: seq<Entity>) {
    && (forall i :: 0 <= i < |order| ==> order[i] in server)
    && (forall e :: e in server ==> e in order)
  }

  function SendSubscribe(s: Session): Session {
    s.(up := s.up + [SubscribeEvents(s.nextId)], nextId := s.nextId + 1)
  }

  function SendSnapshot(s: Session): Session {
    s.(up := s.up + [GetStates(s.nextId)], nextId := s.nextId + 1,
       client := s.client.(snapshotId := Some(s.nextId)))
  }

  function Apply(o: Order, watched: set<Entity>, s: Session, a: Action): Option<Session> {
    match a
    case SendNext =>
      (match s.phase
       case SendingFirst =>
         Some((if o.SubscribeFirst? then SendSubscribe(s) else SendSnapshot(s)).(phase := SendingSecond))
       case SendingSecond =>
         Some((if o.SubscribeFirst? then SendSnapshot(s) else SendSubscribe(s)).(phase := Receiving))
       case Receiving => None)
    case SendOther => Some(s.(up := s.up + [Other(s.nextId)], nextId := s.nextId + 1))
    case ServerAnswers(order) =>
      if s.up == [] || !Lists(s.server, order) then None
      else
        var rest := s.(up := s.up[1..]);
        Some(match s.up[0]
             case SubscribeEvents(id) => rest.(subscribed := true, down := s.down + [Success(id)])
             case GetStates(id) => rest.(answered := true, down := s.down + [States(id, Listed(s.server, order))])
             case Other(id) => rest.(down := s.down + [Success(id)]))
    case ServerRefuses =>
      if s.up == [] then None else Some(s.(up := s.up[1..], down := s.down + [Refusal(s.up[0].id)]))
    case ServerChanges(e, v) =>
      var server := if v.Some? then s.server[e := v.value] else s.server - {e};
      Some(s.(server := server, down := if s.subscribed then s.down + [Changed(e, v)] else s.down))
    case Receive =>
      if !s.phase.Receiving? || s.down == [] then None
      else Some(s.(client := Handle(watched, s.client, s.down[0]), down := s.down[1..]))
  }

  function Run(o: Order, watched: set<Entity>, start: Session, schedule: seq<Action>): Option<Session> {
    if schedule == [] then Some(start)
    else match Run(o, watched, start, schedule[..|schedule| - 1])
      case None => None
      case Some(s) => Apply(o, watched, s, schedule[|schedule| - 1])
  }

  // --- what a session keeps ------------------------------------------------------------

  /** Once everything in flight has been handled. */
  function Settled(watched: set<Entity>, s: Session): Client {
    HandleAll(watched, s.client, s.down)
  }

  ghost predicate UpToDate(watched: set<Entity>, last: map<Entity, Value>, server: map<Entity, Value>) {
    forall e :: e in watched && e in server ==> e in last && last[e] == server[e]
  }

  ghost predicate NoSubscribe(up: seq<Command>) {
    forall i :: 0 <= i < |up| ==> !up[i].SubscribeEvents?
  }

  ghost predicate NoGetStates(up: seq<Command>) {
    forall i :: 0 <= i < |up| ==> !up[i].GetStates?
  }

  ghost predicate NoStates(down: seq<Frame>) {
    forall i :: 0 <= i < |down| ==> !down[i].States?
  }

  /** Every id in flight has been allocated, and only the snapshot request has the awaited one. */
  ghost predicate IdsInv(watched: set<Entity>, s: Session) {
    && (forall i :: 0 <= i < |s.up| ==> s.up[i].id < s.nextId)
    && (forall i :: 0 <= i < |s.down| && s.down[i].Success? ==> s.down[i].id < s.nextId)
    && (Settled(watched, s).snapshotId.Some? ==>
          && Settled(watched, s).snapshotId.value < s.nextId
          && forall i :: 0 <= i < |s.up| && !s.up[i].GetStates? ==> s.up[i].id != Settled(watched, s).snapshotId.value)
  }

  /** Subscribing first, the subscription is never behind the snapshot request on the wire; the
      request in flight is the one the client waits for; and once the server has answered it,
      what the client will have dispatched when everything in flight is handled is the server's
      present state. */
  ghost predicate Inv(watched: set<Entity>, s: Session) {
    && IdsInv(watched, s)
    && (s.phase.SendingFirst? ==> NoSubscribe(s.up) && !s.subscribed)
    && (!s.phase.Receiving? ==> NoGetStates(s.up) && !s.answered && s.client.snapshotId == None)
    && (forall i, j :: 0 <= i < j < |s.up| && s.up[i].GetStates? ==>
          !s.up[j].SubscribeEvents? && !s.up[j].GetStates?)
    && (forall i :: 0 <= i < |s.up| && s.up[i].GetStates? ==> Settled(watched, s).snapshotId == Some(s.up[i].id))
    && (s.answered ==> NoSubscribe(s.up) && NoGetStates(s.up))
    && (!s.answered ==> NoStates(s.down))
    && (s.answered && s.subscribed ==> UpToDate(watched, Settled(watched, s).last, s.server))
  }

  lemma {:induction false} HandleFirst(watched: set<Entity>, c: Client, f: Frame, rest: seq<Frame>)
    ensures HandleAll(watched, c, [f] + rest) == HandleAll(watched, Handle(watched, c, f), rest)
    decreases |rest|
  {
    var all := [f] + rest;
    if rest == [] {
      assert all == [f] && all[..0] == [];
    } else {
      var n := |rest| - 1;
      assert all[..|all| - 1] == [f] + rest[..n];
      HandleFirst(watched, c, f, rest[..n]);
    }
  }

  lemma HandleLast(watched: set<Entity>, c: Client, frames: seq<Frame>, f: Frame)
    ensures HandleAll(watched, c, frames + [f]) == Handle(watched, HandleAll(watched, c, frames), f)
  {
    assert (frames + [f])[..|frames|] == frames;
  }

  /** Dispatching a full listing makes every watched entity up to date. */
  lemma {:induction false} DispatchListing(last: map<Entity, Value>, watched: set<Entity>,
                                           server: map<Entity, Value>, order: seq<Entity>)
    requires forall i :: 0 <= i < |order| ==> order[i] in server
    ensures var l := DispatchAll(last, watched, Listed(server, order));
            forall e :: e in watched && e in order ==> e in l && e in server && l[e] == server[e]
    decreases |order|
  {
    if order != [] {
      hide DispatchAll, Listed;
      var n := |order| - 1;
      DispatchListing(last, watched, server, order[..n]);
      ListingLast(last, watched, server, order);
      assert forall e :: e in order ==> e in order[..n] || e == order[n];
    }
  }

  lemma ListingLast(last: map<Entity, Value>, watched: set<Entity>, server: map<Entity, Value>, order: seq<Entity>)
    requires order != [] && forall i :: 0 <= i < |order| ==> order[i] in server
    ensures var n := |order| - 1;
            DispatchAll(last, watched, Listed(server, order))
              == Dispatch(DispatchAll(last, watched, Listed(server, order[..n])), watched,
                          StateObject(order[n], server[order[n]]))
  {
    var listed := Listed(server, order);
    assert listed[..|listed| - 1] == Listed(server, order[..|order| - 1]);
  }

  lemma ReceiveInv(o: Order, watched: set<Entity>, s: Session)
    requires Inv(watched, s) && Apply(o, watched, s, Receive).Some?
    ensures Inv(watched, Apply(o, watched, s, Receive).value)
  {
    var s' := Apply(o, watched, s, Receive).value;
    assert s.down == [s.down[0]] + s.down[1..];
    HandleFirst(watched, s.client, s.down[0], s.down[1..]);
    assert Settled(watched, s') == Settled(watched, s);
  }

  lemma AnswerInv(o: Order, watched: set<Entity>, s: Session, order: seq<Entity>)
    requires Inv(watched, s) && Apply(o, watched, s, ServerAnswers(order)).Some?
    ensures Inv(watched, Apply(o, watched, s, ServerAnswers(order)).value)
  {
    hide Handle, HandleAll, DispatchAll, Listed;
    var s' := Apply(o, watched, s, ServerAnswers(order)).value;
    match s.up[0]
    case GetStates(id) =>
      HandleLast(watched, s.client, s.down, States(id, Listed(s.server, order)));
      SnapshotSettles(watched, Settled(watched, s), s.server, order, id);
      forall i | 0 <= i < |s'.up| ensures !s'.up[i].SubscribeEvents? && !s'.up[i].GetStates? {
        assert s'.up[i] == s.up[i + 1];
      }
    case SubscribeEvents(id) =>
      HandleLast(watched, s.client, s.down, Success(id));
      QuietFrames(watched, Settled(watched, s), id);
    case Other(id) =>
      HandleLast(watched, s.client, s.down, Success(id));
      QuietFrames(watched, Settled(watched, s), id);
  }

  lemma QuietFrames(watched: set<Entity>, c: Client, id: nat)
    ensures c.snapshotId != Some(id) ==> Handle(watched, c, Success(id)) == c
    ensures Handle(watched, c, Refusal(id)) == c
  {
  }

  lemma SnapshotSettles(watched: set<Entity>, c: Client, server: map<Entity, Value>, order: seq<Entity>, id: nat)
    requires Lists(server, order) && c.snapshotId == Some(id)
    ensures UpToDate(watched, Handle(watched, c, States(id, Listed(server, order))).last, server)
    ensures Handle(watched, c, States(id, Listed(server, order))).snapshotId == None
  {
    DispatchListing(c.last, watched, server, order);
  }

  lemma RefuseInv(o: Order, watched: set<Entity>, s: Session)
    requires Inv(watched, s) && Apply(o, watched, s, ServerRefuses).Some?
    ensures Inv(watched, Apply(o, watched, s, ServerRefuses).value)
  {
    hide Handle, HandleAll;
    HandleLast(watched, s.client, s.down, Refusal(s.up[0].id));
    QuietFrames(watched, Settled(watched, s), s.up[0].id);
  }

  lemma ChangeInv(o: Order, watched: set<Entity>, s: Session, e: Entity, v: Option<Value>)
    requires Inv(watched, s)
    ensures Inv(watched, Apply(o, watched, s, ServerChanges(e, v)).value)
  {
    hide HandleAll;
    HandleLast(watched, s.client, s.down, Changed(e, v));
  }

  /** While the server has listed nothing, no frame in flight touches `_snapshot_id`. */
  lemma {:induction false} QuietDown(watched: set<Entity>, c: Client, down: seq<Frame>)
    requires NoStates(down)
    requires forall i :: 0 <= i < |down| && down[i].Success? ==> c.snapshotId != Some(down[i].id)
    ensures HandleAll(watched, c, down).snapshotId == c.snapshotId
    decreases |down|
  {
    if down != [] {
      QuietDown(watched, c, down[..|down| - 1]);
    }
  }

  lemma SendInv(watched: set<Entity>, s: Session, a: Action)
    requires Inv(watched, s) && Apply(SubscribeFirst, watched, s, a).Some? && (a.SendNext? || a.SendOther?)
    ensures Inv(watched, Apply(SubscribeFirst, watched, s, a).value)
  {
    hide Handle, HandleAll;
    var s' := Apply(SubscribeFirst, watched, s, a).value;
    if a.SendNext? && s.phase.SendingSecond? {
      QuietDown(watched, s'.client, s.down);
    }
  }

  lemma ApplyInv(watched: set<Entity>, s: Session, a: Action)
    requires Inv(watched, s) && Apply(SubscribeFirst, watched, s, a).Some?
    ensures Inv(watched, Apply(SubscribeFirst, watched, s, a).value)
  {
    hide Inv, Apply;
    match a
    case SendNext => SendInv(watched, s, a);
    case SendOther => SendInv(watched, s, a);
    case ServerAnswers(order) => AnswerInv(SubscribeFirst, watched, s, order);
    case ServerRefuses => RefuseInv(SubscribeFirst, watched, s);
    case ServerChanges(e, v) => ChangeInv(SubscribeFirst, watched, s, e, v);
    case Receive => ReceiveInv(SubscribeFirst, watched, s);
  }

  lemma {:induction false} RunInv(watched: set<Entity>, start: Session, schedule: seq<Action>)
    requires Starts(start) && Run(SubscribeFirst, watched, start, schedule).Some?
    ensures Inv(watched, Run(SubscribeFirst, watched, start, schedule).value)
  {
    hide Inv, Apply, Starts;
    if schedule == [] {
      StartInv(watched, start);
    } else {
      var before := schedule[..|schedule| - 1];
      RunInv(watched, start, before);
      ApplyInv(watched, Run(SubscribeFirst, watched, start, before).value, schedule[|schedule| - 1]);
    }
  }

  /** The start of some session. */
  predicate Starts(s: Session) {
    s == Initial(s.server, s.nextId, s.client.last)
  }

  lemma StartInv(watched: set<Entity>, s: Session)
    requires Starts(s)
    ensures Inv(watched, s)
  {
  }

  /** Subscribe-then-snapshot is lossless: in every session, also after a reconnect, and in every
      interleaving of state changes, commands and frames, once the server has answered the snapshot
      and everything it sent has been handled, the last state dispatched for each watched entity
      still present is its present state. */
  lemma SubscribeThenSnapshotIsLossless(watched: set<Entity>, start: Session, schedule: seq<Action>)
    requires Starts(start) && Run(SubscribeFirst, watched, start, schedule).Some?
    requires var s := Run(SubscribeFirst, watched, start, schedule).value;
             s.subscribed && s.answered && s.down == []
    ensures var s := Run(SubscribeFirst, watched, start, schedule).value;
            UpToDate(watched, s.client.last, s.server)
  {
    RunInv(watched, start, schedule);
  }

  // --- the other order ------------------------------------------------------------------

  lemma RunSnoc(o: Order, watched: set<Entity>, start: Session, schedule: seq<Action>, a: Action, s: Session)
    requires Run(o, watched, start, schedule) == Some(s)
    ensures Run(o, watched, start, schedule + [a]) == Apply(o, watched, s, a)
  {
    assert (schedule + [a])[..|schedule|] == schedule;
  }

  /** Both requests sent, the snapshot first; the server answers it, changes, and only then
      subscribes: the change is sent to nobody. */
  lemma ChangeFallsBetween(id: nat) returns (schedule: seq<Action>, s: Session)
    ensures Run(SnapshotFirst, {"lamp"}, Initial(map["lamp" := "off"], id, map[]), schedule) == Some(s)
    ensures s == Session(map["lamp" := "on"], true, true, [],
                         [States(id, [StateObject("lamp", "off")]), Success(id + 1)],
                         Client(map[], Some(id)), Receiving, id + 2)
  {
    hide Run, Handle;
    var w, start := {"lamp"}, Initial(map["lamp" := "off"], id, map[]);
    var s1 := Apply(SnapshotFirst, w, start, SendNext).value;
    var s2 := Apply(SnapshotFirst, w, s1, SendNext).value;
    assert ["lamp"][..0] == [];
    assert Listed(s2.server, ["lamp"]) == [StateObject("lamp", "off")];
    var s3 := Apply(SnapshotFirst, w, s2, ServerAnswers(["lamp"])).value;
    var s4 := Apply(SnapshotFirst, w, s3, ServerChanges("lamp", Some("on"))).value;
    s := Apply(SnapshotFirst, w, s4, ServerAnswers(["lamp"])).value;
    hide Apply;
    RunEmpty(SnapshotFirst, w, start);
    RunSnoc(SnapshotFirst, w, start, [], SendNext, start);
    schedule := [] + [SendNext];
    RunSnoc(SnapshotFirst, w, start, schedule, SendNext, s1);
    schedule := schedule + [SendNext];
    RunSnoc(SnapshotFirst, w, start, schedule, ServerAnswers(["lamp"]), s2);
    schedule := schedule + [ServerAnswers(["lamp"])];
    RunSnoc(SnapshotFirst, w, start, schedule, ServerChanges("lamp", Some("on")), s3);
    schedule := schedule + [ServerChanges("lamp", Some("on"))];
    RunSnoc(SnapshotFirst, w, start, schedule, ServerAnswers(["lamp"]), s4);
    schedule := schedule + [ServerAnswers(["lamp"])];
  }

  lemma RunEmpty(o: Order, watched: set<Entity>, start: Session)
    ensures Run(o, watched, start, []) == Some(start)
  {
  }

  /** The reverse order is not lossless: everything asked for has been answered and handled, and
      the connector still holds a state the server no longer has. */
  lemma SnapshotFirstLosesAChange(id: nat)
    ensures exists schedule ::
      var r := Run(SnapshotFirst, {"lamp"}, Initial(map["lamp" := "off"], id, map[]), schedule);
      r.Some? && r.value.subscribed && r.value.answered && r.value.down == [] && r.value.up == []
      && !UpToDate({"lamp"}, r.value.client.last, r.value.server)
  {
    hide Run;
    var w, start := {"lamp"}, Initial(map["lamp" := "off"], id, map[]);
    var schedule, s := ChangeFallsBetween(id);
    var listed := [StateObject("lamp", "off")];
    assert listed[..0] == [];
    assert DispatchAll(map[], w, listed) == map["lamp" := "off"];
    var s1 := Apply(SnapshotFirst, w, s, Receive).value;
    var s2 := Apply(SnapshotFirst, w, s1, Receive).value;
    assert s2 == Session(map["lamp" := "on"], true, true, [], [], Client(map["lamp" := "off"], None), Receiving,
                         id + 2);
    assert !UpToDate(w, s2.client.last, s2.server) by {
      assert "lamp" in w && s2.server["lamp"] == "on" && s2.client.last["lamp"] == "off";
      assert "on" != "off" by { assert |"on"| != |"off"|; }
    }
    hide Apply;
    RunSnoc(SnapshotFirst, w, start, schedule, Receive, s);
    RunSnoc(SnapshotFirst, w, start, schedule + [Receive], Receive, s1);
    assert Run(SnapshotFirst, w, start, schedule + [Receive] + [Receive]) == Some(s2);
  }

  // --- sessions that come about ---------------------------------------------------------------

  /** Entities nobody watches are left alone. */
  lemma {:induction false} UnwatchedAreLeft(o: Order, watched: set<Entity>, start: Session, schedule: seq<Action>,
                                            e: Entity)
    requires Run(o, watched, start, schedule).Some? && e !in watched
    ensures var s := Run(o, watched, start, schedule).value;
            (e in s.client.last <==> e in start.client.last)
            && (e in start.client.last ==> s.client.last[e] == start.client.last[e])
  {
    hide Apply;
    if schedule != [] {
      var before := schedule[..|schedule| - 1];
      UnwatchedAreLeft(o, watched, start, before, e);
      UnwatchedStep(o, watched, Run(o, watched, start, before).value, schedule[|schedule| - 1], e);
    }
  }

  lemma UnwatchedStep(o: Order, watched: set<Entity>, s: Session, a: Action, e: Entity)
    requires Apply(o, watched, s, a).Some? && e !in watched
    ensures var last, last' := s.client.last, Apply(o, watched, s, a).value.client.last;
            (e in last' <==> e in last) && (e in last ==> last'[e] == last[e])
  {
    if a.Receive? && s.down[0].States? {
      TakesTheLast(s.client.last, watched, s.down[0].states);
    }
  }

  /** Left alone, every session comes to that point: both requests sent, both answered, both answers
      handled, and every watched entity at its present state. */
  lemma SessionCompletes(watched: set<Entity>, start: Session, order: seq<Entity>)
    requires Starts(start) && Lists(start.server, order)
    ensures var r := Run(SubscribeFirst, watched, start,
                         [SendNext, SendNext, ServerAnswers(order), ServerAnswers(order), Receive, Receive]);
      && r.Some? && r.value.phase.Receiving? && r.value.up == [] && r.value.down == []
      && r.value.subscribed && r.value.answered && r.value.client.snapshotId == None
      && UpToDate(watched, r.value.client.last, r.value.server) && r.value.server == start.server
  {
    hide Run, Listed, DispatchAll;
    var o, n := SubscribeFirst, start.nextId;
    var s1 := Apply(o, watched, start, SendNext).value;
    var s2 := Apply(o, watched, s1, SendNext).value;
    assert s2.up == [SubscribeEvents(n), GetStates(n + 1)] && s2.down == [] && s2.server == start.server;
    assert s2.client.snapshotId == Some(n + 1) && s2.phase.Receiving?;
    var s3 := Apply(o, watched, s2, ServerAnswers(order)).value;
    assert s3 == s2.(up := [GetStates(n + 1)], subscribed := true, down := [Success(n)]);
    var s4 := Apply(o, watched, s3, ServerAnswers(order)).value;
    var listing := States(n + 1, Listed(start.server, order));
    assert s4 == s3.(up := [], answered := true, down := [Success(n), listing]);
    var s5 := Apply(o, watched, s4, Receive).value;
    assert s5 == s4.(down := [listing]);
    var s6 := Apply(o, watched, s5, Receive).value;
    assert s6 == s5.(down := [], client := Handle(watched, s2.client, listing));
    SnapshotSettles(watched, s2.client, start.server, order, n + 1);
    hide Apply, Handle;
    RunEmpty(o, watched, start);
    RunSnoc(o, watched, start, [], SendNext, start);
    RunSnoc(o, watched, start, [] + [SendNext], SendNext, s1);
    var p := [] + [SendNext] + [SendNext];
    RunSnoc(o, watched, start, p, ServerAnswers(order), s2);
    RunSnoc(o, watched, start, p + [ServerAnswers(order)], ServerAnswers(order), s3);
    var q := p + [ServerAnswers(order)] + [ServerAnswers(order)];
    RunSnoc(o, watched, start, q, Receive, s4);
    RunSnoc(o, watched, start, q + [Receive], Receive, s5);
    assert q + [Receive] + [Receive]
        == [SendNext, SendNext, ServerAnswers(order), ServerAnswers(order), Receive, Receive];
  }
}
