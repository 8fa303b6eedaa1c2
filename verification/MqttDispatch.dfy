/** One device's inbox in the MQTT connector (connectors/mqtt.py): a bounded queue, the network
    thread filling it without blocking, the dispatch thread draining it, and the release that
    winds it down from `stop()` and from the end of `start()`.

    Every queue operation and every look at the stop flag is one atomic step, so a schedule is an
    interleaving of the threads at that grain. Payloads are numbered in arrival order. */
module MqttDispatch {
  import opened Options

  /** `_MAX_QUEUED_PER_DEVICE`. */
  const CAPACITY: nat := 64

  /** What a queue holds: a payload, or the `_STOP` sentinel. */
  datatype Item = Payload(id: nat) | StopMark

  // --- the queue -------------------------------------------------------------

  /** The bounded queue as an object, with the two compound operations the connector runs on it. */
  class BoundedQueue {
    var items: seq<Item>

    ghost predicate Valid()
      reads this
    {
      |items| <= CAPACITY
    }

    constructor ()
      ensures Valid() && items == []
    {
      items := [];
    }

    method PutNowait(item: Item) returns (ok: bool)
      requires Valid()
      modifies this
      ensures Valid()
      ensures ok == (|old(items)| < CAPACITY)
      ensures items == if ok then old(items) + [item] else old(items)
    {
      ok := |items| < CAPACITY;
      if ok {
        items := items + [item];
      }
    }

    method GetNowait() returns (ok: bool, item: Item)
      requires Valid()
      modifies this
      ensures Valid()
      ensures ok == (old(items) != [])
      ensures ok ==> old(items) == [item] + items
      ensures !ok ==> items == []
    {
      ok := items != [];
      item := StopMark;
      if ok {
        item := items[0];
        items := items[1..];
      }
    }

    /** `_enqueue` with nobody in between: the newest payload always gets in, and only a full
        queue pays for it, with its oldest item. */
    method Enqueue(id: nat)
      requires Valid()
      modifies this
      ensures Valid()
      ensures items == (if |old(items)| < CAPACITY then old(items) else old(items)[1..]) + [Payload(id)]
    {
      var ok := PutNowait(Payload(id));
      if !ok {
        var _, _ := GetNowait();
        var fits := PutNowait(Payload(id));
        assert fits;
      }
    }

    /** `_release_dispatchers` with nobody in between: everything queued is abandoned, and the
        sentinel is alone in the queue. */
    method Release() returns (abandoned: nat)
      requires Valid()
      modifies this
      ensures Valid()
      ensures items == [StopMark] && abandoned == |old(items)|
    {
      abandoned := 0;
      while true
        invariant Valid()
        invariant abandoned + |items| == |old(items)|
        decreases |items|
      {
        var ok, _ := GetNowait();
        if !ok {
          break;
        }
        abandoned := abandoned + 1;
      }
      var _ := PutNowait(StopMark);
    }
  }

  // --- the threads -------------------------------------------------------------

  /** A release of one dispatcher in progress; `d` says which. */
  datatype Release = Snapshot | Draining(d: nat) | Marking(d: nat)

  /** The thread `start()` runs on: the network loop, then the release at its end. */
  datatype Producer =
    | Listening
    | Arrived(x: nat)      // `_enqueue`: about to look at the stop flag
    | Looking(x: nat)      // `_dispatcher_for`
    | Putting(x: nat)      // the first `put_nowait`
    | Making(x: nat)       // the queue was full: `_drop_oldest`, about to get
    | Replacing(x: nat)    // and about to put
    | Ending(release: Release)
    | Ended                // `start()` released its dispatchers and returned
    | Quit                 // the network loop raised; `start()` is restarted unless a stop is on

  /** The thread `stop()` runs on. */
  datatype Stopper = Away | Stopping(release: Release)

  /** The dispatch thread. */
  datatype Consumer = Waiting | Holding(item: Item) | Delivering | Gone

  /** `dispatcher` numbers the device's dispatchers as they are created, 0 before the first; the
      queue and the consumer are the current one's. `wakeable` says that a release has covered
      the current dispatcher or that it was created after the stop. */
  datatype State = State(
    dispatcher: nat,
    queue: seq<Item>,
    consumer: Consumer,
    producer: Producer,
    stopper: Stopper,
    stopping: bool,
    wakeable: bool,
    next: nat,
    delivered: seq<nat>,
    dropped: multiset<nat>,
    abandoned: multiset<nat>,
    refused: multiset<nat>,
    newestLost: nat)

  datatype Action =
    | Arrive | Produce | NetworkLoopReturns | NetworkLoopRaises
    | CallStop | Stop
    | Consume | DispatcherDies

  function Initial(): State {
    State(0, [], Gone, Listening, Away, false, false, 0, [], multiset{}, multiset{}, multiset{}, 0)
  }

  /** The payload of an item, if it is one. */
  function Ids(item: Item): seq<nat> {
    match item
    case Payload(id) => [id]
    case StopMark => []
  }

  function Payloads(queue: seq<Item>): seq<nat> {
    if queue == [] then [] else Ids(queue[0]) + Payloads(queue[1..])
  }

  /** One step of a release: drain to empty, then put the sentinel. A release of a dispatcher that
      has been replaced touches nothing any more. No next release means it is finished. */
  function ReleaseStep(s: State, r: Release): (State, Option<Release>) {
    match r
    case Snapshot => (s, if s.dispatcher == 0 then None else Some(Draining(s.dispatcher)))
    case Draining(d) =>
      if d != s.dispatcher || s.queue == [] then (s, Some(Marking(d)))
      else (s.(queue := s.queue[1..], abandoned := s.abandoned + multiset(Ids(s.queue[0]))), Some(r))
    case Marking(d) =>
      if d != s.dispatcher then (s, None)
      else (s.(queue := if |s.queue| < CAPACITY then s.queue + [StopMark] else s.queue,
               wakeable := true), None)
  }

  function ProducerStep(s: State): Option<State> {
    match s.producer
    case Listening => None
    case Arrived(x) =>
      Some(if s.stopping then s.(producer := Listening, refused := s.refused + multiset{x})
           else s.(producer := Looking(x)))
    case Looking(x) =>
      Some(if s.dispatcher > 0 && !s.consumer.Gone? then s.(producer := Putting(x))
           else s.(producer := Putting(x), dispatcher := s.dispatcher + 1, queue := [], consumer := Waiting,
                   wakeable := s.stopping, abandoned := s.abandoned + multiset(Payloads(s.queue))))
    case Putting(x) =>
      Some(if |s.queue| < CAPACITY then s.(producer := Listening, queue := s.queue + [Payload(x)])
           else s.(producer := Making(x)))
    case Making(x) =>
      Some(if s.queue == [] then s.(producer := Replacing(x))
           else s.(producer := Replacing(x), queue := s.queue[1..],
                   dropped := s.dropped + multiset(Ids(s.queue[0]))))
    case Replacing(x) =>
      Some(if |s.queue| < CAPACITY then s.(producer := Listening, queue := s.queue + [Payload(x)])
           else s.(producer := Listening, newestLost := s.newestLost + 1, dropped := s.dropped + multiset{x}))
    case Ending(r) =>
      var (s', more) := ReleaseStep(s, r);
      Some(s'.(producer := if more.None? then Ended else Ending(more.value)))
    case Ended => None
    case Quit => if s.stopping then None else Some(s.(producer := Listening))
  }

  function StopStep(s: State): Option<State> {
    match s.stopper
    case Away => None
    case Stopping(r) =>
      var (s', more) := ReleaseStep(s, r);
      Some(s'.(stopper := if more.None? then Away else Stopping(more.value)))
  }

  function ConsumerStep(s: State): Option<State> {
    match s.consumer
    case Waiting =>
      if s.queue == [] then None else Some(s.(consumer := Holding(s.queue[0]), queue := s.queue[1..]))
    case Holding(item) =>
      Some(if item == StopMark || s.stopping
           then s.(consumer := Gone, abandoned := s.abandoned + multiset(Ids(item)))
           else s.(consumer := Delivering, delivered := s.delivered + Ids(item)))
    case Delivering => Some(s.(consumer := Waiting))
    case Gone => None
  }

  /** One atomic step; None when it is not possible. */
  function Apply(s: State, a: Action): Option<State> {
    match a
    case Arrive =>
      if s.producer.Listening? then Some(s.(producer := Arrived(s.next), next := s.next + 1)) else None
    case Produce => ProducerStep(s)
    case NetworkLoopReturns => if s.producer.Listening? then Some(s.(producer := Ending(Snapshot))) else None
    case NetworkLoopRaises => if s.producer.Listening? then Some(s.(producer := Quit)) else None
    case CallStop =>
      if s.stopper.Away? then Some(s.(stopping := true, stopper := Stopping(Snapshot))) else None
    case Stop => StopStep(s)
    case Consume => ConsumerStep(s)
    case DispatcherDies => if s.consumer.Delivering? then Some(s.(consumer := Gone)) else None
  }

  /** The state a schedule leads to. */
  function Run(schedule: seq<Action>): Option<State> {
    if schedule == [] then Some(Initial())
    else match Run(schedule[..|schedule| - 1])
      case None => None
      case Some(s) => Apply(s, schedule[|schedule| - 1])
  }
}
