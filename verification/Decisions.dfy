/** The decision log (api/decisions.py): a bounded ring with a sequence-number cursor, paged by a
    client while writers append and the ring evicts. */
module Decisions {
  import opened Options

  datatype Decision = Decision(number: nat, timestamp: int, algorithm: string, device: string, command: string)

  /** A `DecisionPage`, without the opaque epoch. */
  datatype Page = Page(
    decisions: seq<Decision>,
    total: nat,
    retained: nat,
    oldest: Option<nat>,
    missed: nat,
    capacity: nat,
    nextCursor: nat,
    hasMore: bool)

  datatype Log = Log(capacity: nat, records: seq<Decision>, total: nat)

  function Max(a: int, b: int): int {
    if a >= b then a else b
  }

  function Min(a: int, b: int): int {
    if a <= b then a else b
  }

  function Empty(capacity: int): Log {
    Log(Max(1, capacity), [], 0)
  }

  /** `record`: number it, append it, and evict the oldest beyond the capacity. */
  function Append(l: Log, timestamp: int, algorithm: string, device: string, command: string): Log {
    var all := l.records + [Decision(l.total + 1, timestamp, algorithm, device, command)];
    l.(total := l.total + 1, records := if |all| > l.capacity then all[1..] else all)
  }

  /** The records numbered above `after`, oldest first. */
  function Newer(records: seq<Decision>, after: nat): seq<Decision> {
    if records == [] then []
    else
      var before := Newer(records[..|records| - 1], after);
      var d := records[|records| - 1];
      if d.number > after then before + [d] else before
  }

  /** `page`. */
  function PageOf(l: Log, after: int, limit: int): Page {
    var cursor := Max(0, after);
    var most := Max(0, Min(limit, l.capacity));
    var oldest := if l.records == [] then None else Some(l.records[0].number);
    var missed := if oldest.None? then 0 else Max(0, oldest.value - cursor - 1);
    if most == 0 then Page([], l.total, |l.records|, oldest, missed, l.capacity, l.total, false)
    else
      var newer := Newer(l.records, cursor);
      var decisions := newer[..Min(most, |newer|)];
      Page(decisions, l.total, |l.records|, oldest, missed, l.capacity,
           if decisions == [] then cursor else decisions[|decisions| - 1].number, |newer| > most)
  }

  // --- the object ---------------------------------------------------------------

  class DecisionLog {
    const capacity: nat
    var records: seq<Decision>
    var total: nat
    /** Every decision ever recorded. */
    ghost var history: seq<Decision>

    function State(): Log
      reads this
    {
      Log(capacity, records, total)
    }

    ghost predicate Valid()
      reads this
    {
      Keeps(State(), history)
    }

    constructor (capacity: int)
      ensures Valid() && State() == Empty(capacity) && history == []
    {
      this.capacity := Max(1, capacity);
      records, total, history := [], 0, [];
    }

    method Record(timestamp: int, algorithm: string, device: string, command: string) returns (d: Decision)
      requires Valid()
      modifies this
      ensures Valid()
      ensures d == Decision(old(total) + 1, timestamp, algorithm, device, command)
      ensures history == old(history) + [d]
      ensures State() == Append(old(State()), timestamp, algorithm, device, command)
    {
      AppendKeeps(State(), history, timestamp, algorithm, device, command);
      total := total + 1;
      d := Decision(total, timestamp, algorithm, device, command);
      records := records + [d];
      if |records| > capacity {
        records := records[1..];
      }
      history := history + [d];
    }

    /** The page is a contiguous stretch of the whole history, right after the cursor and what has
        been evicted since, as long as its limit, the capacity and the history let it be. A limit of 0
        delivers nothing and seeks to the head, the one way to pass over records. */
    method GetPage(after: int, limit: int) returns (p: Page)
      requires Valid()
      ensures p == PageOf(State(), after, limit)
      ensures limit >= 1 ==> IsNextStretch(p, history, Max(0, after))
      ensures limit <= 0 ==> p.decisions == [] && p.nextCursor == |history| && !p.hasMore
      ensures p.total == |history| && p.capacity == capacity && p.retained == Min(capacity, |history|)
      ensures p.oldest == if history == [] then None else Some(|history| - p.retained + 1)
      ensures p.missed == Max(0, |history| - p.retained - Max(0, after))
      ensures limit >= 1 ==>
                |p.decisions| == Min(Min(limit, capacity), Max(0, |history| - Max(0, after) - p.missed))
    {
      p := PageOf(State(), after, limit);
      HeadOfPage(State(), history, after, limit);
      if limit >= 1 {
        PageIsNextStretch(State(), history, after, limit);
      }
    }
  }

  // --- what the ring holds ----------------------------------------------------------

  /** The ring holds the newest decisions of the history, as many as fit, numbered from 1. */
  ghost predicate Keeps(l: Log, history: seq<Decision>) {
    && l.capacity >= 1
    && l.total == |history|
    && |l.records| == Min(l.capacity, |history|)
    && l.records == history[|history| - |l.records|..]
    && Numbered(history)
  }

  ghost predicate Numbered(history: seq<Decision>) {
    forall i :: 0 <= i < |history| ==> history[i].number == i + 1
  }

  lemma AppendKeeps(l: Log, history: seq<Decision>, timestamp: int, algorithm: string, device: string, command: string)
    requires Keeps(l, history)
    ensures Keeps(Append(l, timestamp, algorithm, device, command),
                  history + [Decision(l.total + 1, timestamp, algorithm, device, command)])
  {
    var h := history + [Decision(l.total + 1, timestamp, algorithm, device, command)];
    var l' := Append(l, timestamp, algorithm, device, command);
    assert l'.records == h[|h| - |l'.records|..];
  }

  /** In a ring that keeps a history, the newer records are a suffix of it. */
  lemma {:induction false} NewerIsSuffix(history: seq<Decision>, from: nat, to: nat, start: nat, after: nat)
    requires from <= to <= |history| && Numbered(history) && start == Start(from, to, after)
    ensures Newer(history[from..to], after) == history[start..to]
  {
    if from < to {
      hide Newer, Numbered;
      NewerIsSuffix(history, from, to - 1, Start(from, to - 1, after), after);
      NewerLast(history, from, to, after);
      Longer(history, start, to);
    }
  }

  /** Where the records above `after` begin in `history[from..to]`. */
  function Start(from: nat, to: nat, after: nat): (start: nat)
    ensures from <= to ==> from <= start <= to
  {
    if after <= from then from else if after < to then after else to
  }

  /** The last record of a stretch is newer than `after` if its number is. */
  lemma NewerLast(history: seq<Decision>, from: nat, to: nat, after: nat)
    requires from < to <= |history| && Numbered(history)
    ensures Newer(history[from..to], after) ==
            Newer(history[from..to - 1], after) + if to > after then [history[to - 1]] else []
  {
    var r := history[from..to];
    assert r[..|r| - 1] == history[from..to - 1];
  }

  lemma Longer(history: seq<Decision>, start: nat, to: nat)
    requires start <= to <= |history|
    ensures start < to ==> history[start..to - 1] + [history[to - 1]] == history[start..to]
  {
  }

  // --- one page -----------------------------------------------------------------------

  /** `p` delivers the decisions right after `cursor` and the `missed` evicted ones, whole and in
      order; its cursor is past exactly those; it has more exactly when decisions remain. */
  ghost predicate IsNextStretch(p: Page, history: seq<Decision>, cursor: nat) {
    && p.nextCursor == cursor + p.missed + |p.decisions|
    && (p.missed > 0 || p.decisions != [] ==> p.nextCursor <= |history|)
    && (p.decisions != [] ==> p.decisions == history[cursor + p.missed..p.nextCursor])
    && (p.hasMore <==> p.nextCursor < |history|)
    && (p.missed > 0 ==> p.decisions != [])
    && (p.decisions == [] ==> cursor >= |history|)
  }

  /** What the ring has above `cursor` is the history above it, less what was evicted. */
  lemma NewerOfRing(l: Log, history: seq<Decision>, cursor: nat)
    requires Keeps(l, history)
    ensures var start := Min(|history|, Max(|history| - |l.records|, cursor));
            Newer(l.records, cursor) == history[start..]
    ensures l.records != [] ==> l.records[0].number == |history| - |l.records| + 1
  {
    hide Newer;
    var to := |history|;
    var start := Min(to, Max(to - |l.records|, cursor));
    NewerIsSuffix(history, to - |l.records|, to, start, cursor);
    assert history[to - |l.records|..to] == l.records;
    assert history[start..to] == history[start..];
  }

  lemma Cut(history: seq<Decision>, start: nat, n: nat)
    requires Numbered(history) && start + n <= |history|
    ensures history[start..][..n] == history[start..start + n]
    ensures n > 0 ==> history[start..][..n][n - 1].number == start + n
  {
  }

  /** Where a page's decisions are in the history. */
  lemma PageParts(l: Log, history: seq<Decision>, after: int, limit: int, start: nat, n: nat)
    requires Keeps(l, history) && limit >= 1
    requires start == Min(|history|, Max(|history| - |l.records|, Max(0, after)))
    requires n == Min(Min(limit, l.capacity), |history| - start)
    ensures var p := PageOf(l, after, limit);
      && p.decisions == history[start..start + n]
      && p.nextCursor == (if n == 0 then Max(0, after) else start + n)
      && p.hasMore == (start + n < |history|)
  {
    hide Newer, Numbered, Keeps;
    NewerOfRing(l, history, Max(0, after));
    RingFacts(l, history);
    Cut(history, start, n);
  }

  lemma PageIsNextStretch(l: Log, history: seq<Decision>, after: int, limit: int)
    requires Keeps(l, history) && limit >= 1
    ensures IsNextStretch(PageOf(l, after, limit), history, Max(0, after))
    ensures var p := PageOf(l, after, limit);
      |p.decisions| == Min(Min(limit, l.capacity), Max(0, |history| - Max(0, after) - p.missed))
  {
    hide Newer, Numbered, Keeps;
    var start := Min(|history|, Max(|history| - |l.records|, Max(0, after)));
    RingFacts(l, history);
    PageParts(l, history, after, limit, start, Min(Min(limit, l.capacity), |history| - start));
    NewerOfRing(l, history, Max(0, after));
  }

  /** What a page says about the ring. */
  lemma HeadOfPage(l: Log, history: seq<Decision>, after: int, limit: int)
    requires Keeps(l, history)
    ensures var p := PageOf(l, after, limit);
      && p.total == |history| && p.capacity == l.capacity && p.retained == Min(l.capacity, |history|)
      && p.oldest == (if history == [] then None else Some(|history| - p.retained + 1))
      && p.missed == Max(0, |history| - p.retained - Max(0, after))
  {
    hide Newer;
    NewerOfRing(l, history, 0);
  }

  lemma RingFacts(l: Log, history: seq<Decision>)
    requires Keeps(l, history)
    ensures l.capacity >= 1 && l.total == |history| && Numbered(history)
    ensures |l.records| <= |history| && (l.records == [] <==> history == [])
  {
  }

  // --- a client over a whole run --------------------------------------------------------

  /** Writers record and the client polls, in any order. */
  datatype Op = Write(timestamp: int, algorithm: string, device: string, command: string) | Poll(limit: nat)

  /** The log, its whole history, and a client that feeds `next_cursor` back; `got` is everything
      delivered to it, `lost` the numbers counted in some page's `missed`. */
  datatype Run = Run(log: Log, history: seq<Decision>, cursor: nat, got: seq<Decision>, lost: set<nat>)

  /** The numbers above `a` up to `b`. */
  function Between(a: nat, b: nat): (r: set<nat>)
    ensures forall k :: k in r <==> a < k <= b
    decreases b
  {
    if b <= a then {} else Between(a, b - 1) + {b}
  }

  function Step(r: Run, op: Op): Run {
    match op
    case Write(t, a, d, c) =>
      r.(log := Append(r.log, t, a, d, c), history := r.history + [Decision(r.log.total + 1, t, a, d, c)])
    case Poll(limit) =>
      var p := PageOf(r.log, r.cursor, limit);
      r.(cursor := p.nextCursor, got := r.got + p.decisions,
         lost := r.lost + Between(r.cursor, r.cursor + p.missed))
  }

  function After(start: Run, ops: seq<Op>): Run {
    if ops == [] then start else Step(After(start, ops[..|ops| - 1]), ops[|ops| - 1])
  }

  ghost predicate Polls(ops: seq<Op>) {
    forall i :: 0 <= i < |ops| && ops[i].Poll? ==> ops[i].limit >= 1
  }

  /** Since it started at `from`, the client has had every number up to its cursor exactly once:
      delivered, in order and as it was recorded, or counted as missed. */
  ghost predicate Accounted(r: Run, from: nat) {
    if r.cursor <= from then r.cursor == from && r.got == [] && r.lost == {}
    else
      && r.cursor <= |r.history|
      && Faithful(r.got, r.history, from, r.cursor)
      && Partition(r.got, r.lost, from, r.cursor)
  }

  ghost predicate Got(got: seq<Decision>, k: nat) {
    exists i :: 0 <= i < |got| && got[i].number == k
  }

  lemma WriteAccounts(r: Run, from: nat, op: Op)
    requires Keeps(r.log, r.history) && Accounted(r, from) && op.Write?
    ensures Keeps(Step(r, op).log, Step(r, op).history) && Accounted(Step(r, op), from)
  {
    AppendKeeps(r.log, r.history, op.timestamp, op.algorithm, op.device, op.command);
  }

  lemma GotExtends(got: seq<Decision>, more: seq<Decision>, k: nat)
    ensures Got(got + more, k) <==> Got(got, k) || Got(more, k)
  {
    if Got(got, k) {
      var i :| 0 <= i < |got| && got[i].number == k;
      assert (got + more)[i].number == k;
    }
    if Got(more, k) {
      var i :| 0 <= i < |more| && more[i].number == k;
      assert (got + more)[|got| + i].number == k;
    }
  }

  /** A stretch of the history holds exactly its numbers. */
  lemma GotStretch(history: seq<Decision>, a: nat, b: nat, k: nat)
    requires a <= b <= |history| && Numbered(history)
    ensures Got(history[a..b], k) <==> a < k <= b
  {
    if a < k <= b {
      assert history[a..b][k - 1 - a].number == k;
    }
  }

  /** `got` is in order, within `(from, to]`, and as recorded. */
  ghost predicate Faithful(got: seq<Decision>, history: seq<Decision>, from: nat, to: nat)
    requires to <= |history|
  {
    && (forall i, j :: 0 <= i < j < |got| ==> got[i].number < got[j].number)
    && (forall i :: 0 <= i < |got| ==> from < got[i].number <= to && got[i] == history[got[i].number - 1])
  }

  lemma FaithfulExtends(got: seq<Decision>, history: seq<Decision>, from: nat, to: nat, a: nat, b: nat)
    requires from <= to <= a <= b <= |history| && Numbered(history) && Faithful(got, history, from, to)
    ensures Faithful(got + history[a..b], history, from, b)
  {
    var more := history[a..b];
    forall i | 0 <= i < |more| ensures more[i] == history[a + i] && more[i].number == a + i + 1 {
    }
    var all := got + more;
    forall i | 0 <= i < |all| ensures from < all[i].number <= b && all[i] == history[all[i].number - 1] {
      if i >= |got| {
        assert all[i] == more[i - |got|];
      }
    }
    forall i, j | 0 <= i < j < |all| ensures all[i].number < all[j].number {
      if j >= |got| {
        assert all[j] == more[j - |got|] && (i >= |got| ==> all[i] == more[i - |got|]);
      }
    }
  }

  /** Each number in `(from, to]` is in exactly one of the two. */
  ghost predicate Partition(got: seq<Decision>, lost: set<nat>, from: nat, to: nat) {
    && (forall k :: k in lost ==> from < k <= to)
    && (forall i :: 0 <= i < |got| ==> got[i].number <= to)
    && (forall k :: from < k <= to ==> (k in lost) != Got(got, k))
  }

  lemma PartitionExtends(got: seq<Decision>, lost: set<nat>, history: seq<Decision>, from: nat, to: nat, a: nat, b: nat)
    requires from <= to <= a <= b <= |history| && Numbered(history) && Partition(got, lost, from, to)
    ensures Partition(got + history[a..b], lost + Between(to, a), from, b)
  {
    var more := history[a..b];
    forall i | 0 <= i < |more| ensures more[i].number == a + i + 1 {
    }
    forall k | from < k <= b ensures (k in lost + Between(to, a)) != Got(got + more, k) {
      GotExtends(got, more, k);
      GotStretch(history, a, b, k);
      assert Got(got, k) ==> k <= to;
    }
  }

  /** A stretch read right after the gap it skips accounts for both. */
  lemma StretchAccounts(r: Run, from: nat, p: Page)
    requires Keeps(r.log, r.history) && Accounted(r, from) && IsNextStretch(p, r.history, r.cursor)
    requires p.decisions != []
    ensures Accounted(r.(cursor := p.nextCursor, got := r.got + p.decisions,
                         lost := r.lost + Between(r.cursor, r.cursor + p.missed)), from)
  {
    hide Got;
    var a, b := r.cursor + p.missed, p.nextCursor;
    assert Numbered(r.history);
    FaithfulExtends(r.got, r.history, from, r.cursor, a, b);
    PartitionExtends(r.got, r.lost, r.history, from, r.cursor, a, b);
  }

  lemma PollAccounts(r: Run, from: nat, limit: nat)
    requires Keeps(r.log, r.history) && Accounted(r, from) && limit >= 1
    ensures Keeps(Step(r, Poll(limit)).log, Step(r, Poll(limit)).history)
    ensures Accounted(Step(r, Poll(limit)), from)
  {
    hide PageOf, Keeps;
    PageIsNextStretch(r.log, r.history, r.cursor, limit);
    var p := PageOf(r.log, r.cursor, limit);
    if p.decisions == [] {
      assert r.got + p.decisions == r.got && r.lost + Between(r.cursor, r.cursor) == r.lost;
      assert Step(r, Poll(limit)) == r;
    } else {
      hide Accounted;
      StretchAccounts(r, from, p);
    }
  }

  /** Over any interleaving of writes and polls, from any starting cursor, by a client that feeds
      `next_cursor` back: no decision is delivered twice, they come in order and as recorded, and
      every number up to the cursor is either delivered once or counted once as missed. */
  lemma {:induction false} CursorAccounting(start: Run, ops: seq<Op>)
    requires Keeps(start.log, start.history) && start.got == [] && start.lost == {}
    requires Polls(ops)
    ensures var r := After(start, ops); Keeps(r.log, r.history) && Accounted(r, start.cursor)
  {
    hide Step;
    if ops != [] {
      var before := ops[..|ops| - 1];
      assert Polls(before);
      CursorAccounting(start, before);
      var r, op := After(start, before), ops[|ops| - 1];
      match op
      case Write(_, _, _, _) => WriteAccounts(r, start.cursor, op);
      case Poll(limit) => PollAccounts(r, start.cursor, limit);
    }
  }

  /** And a client that keeps polling until there is no more has had everything up to the head. */
  lemma NoMoreMeansCaughtUp(r: Run, limit: nat)
    requires Keeps(r.log, r.history) && limit >= 1 && r.cursor <= |r.history|
    ensures !PageOf(r.log, r.cursor, limit).hasMore <==> Step(r, Poll(limit)).cursor == |r.history|
  {
    hide PageOf;
    PageIsNextStretch(r.log, r.history, r.cursor, limit);
  }
}
