/** The way of a decision from several algorithms' threads into the decision log and into a storage
    file (`write_algorithm_decision` of storage_manager/storage_manager.py): two separate steps, so
    the two need not agree on the order. */
module DecisionFunnel {
  import opened Options

  type Name = string

  /** `number` is the decision's place in the log; the file does not show it. */
  datatype Row = Row(number: nat, algorithm: Name, command: string)

  /** `pending` holds, of each thread between its two steps, the decision it has just recorded. */
  datatype State = State(log: seq<Row>, file: seq<Row>, pending: map<Name, Row>)

  datatype Action = Record(name: Name, command: string) | FanOut(name: Name)

  function Apply(s: State, a: Action): Option<State> {
    match a
    case Record(n, command) =>
      if n in s.pending then None
      else
        var row := Row(|s.log| + 1, n, command);
        Some(s.(log := s.log + [row], pending := s.pending[n := row]))
    case FanOut(n) =>
      if n !in s.pending then None
      else Some(s.(file := s.file + [s.pending[n]], pending := s.pending - {n}))
  }

  function Run(schedule: seq<Action>): Option<State> {
    if schedule == [] then Some(State([], [], map[]))
    else match Run(schedule[..|schedule| - 1])
      case None => None
      case Some(s) => Apply(s, schedule[|schedule| - 1])
  }

  // --- what every run keeps -----------------------------------------------------------

  ghost predicate Numbered(log: seq<Row>) {
    forall i :: 0 <= i < |log| ==> log[i].number == i + 1
  }

  ghost predicate Written(file: seq<Row>, k: nat) {
    exists i :: 0 <= i < |file| && file[i].number == k
  }

  ghost predicate Waiting(pending: map<Name, Row>, k: nat) {
    exists n :: n in pending && pending[n].number == k
  }

  /** `row` is in the log, at its number. */
  predicate Logged(log: seq<Row>, row: Row) {
    0 < row.number <= |log| && row == log[row.number - 1]
  }

  ghost predicate AllLogged(s: State) {
    && Numbered(s.log)
    && (forall i :: 0 <= i < |s.file| ==> Logged(s.log, s.file[i]))
    && (forall n :: n in s.pending ==> Logged(s.log, s.pending[n]) && s.pending[n].algorithm == n)
  }

  /** Nothing is written twice, or written and waiting. */
  ghost predicate Once(s: State) {
    && (forall i, j :: 0 <= i < j < |s.file| ==> s.file[i].number != s.file[j].number)
    && (forall n :: n in s.pending ==> !Written(s.file, s.pending[n].number))
  }

  /** Everything recorded is written or waiting. */
  ghost predicate Accounted(s: State) {
    forall k :: 0 < k <= |s.log| ==> Written(s.file, k) || Waiting(s.pending, k)
  }

  ghost predicate Inv(s: State) {
    AllLogged(s) && Once(s) && Accounted(s)
  }

  lemma WrittenSnoc(file: seq<Row>, row: Row, k: nat)
    ensures Written(file + [row], k) <==> Written(file, k) || row.number == k
  {
    var longer := file + [row];
    assert longer[|file|] == row;
    if Written(file, k) {
      var i :| 0 <= i < |file| && file[i].number == k;
      assert longer[i].number == k;
    }
  }

  lemma RecordInv(s: State, n: Name, command: string)
    requires Inv(s) && n !in s.pending
    ensures Inv(Apply(s, Record(n, command)).value)
  {
    var s' := Apply(s, Record(n, command)).value;
    assert AllLogged(s');
    assert Once(s') by {
      forall i | 0 <= i < |s.file| ensures s.file[i].number != |s'.log| {
        assert Logged(s.log, s.file[i]);
      }
    }
    forall k | 0 < k <= |s'.log| ensures Written(s'.file, k) || Waiting(s'.pending, k) {
      hide Logged, Numbered, Once;
      if k == |s'.log| {
        assert s'.pending[n].number == k;
      } else if !Written(s.file, k) {
        var m :| m in s.pending && s.pending[m].number == k;
        assert s'.pending[m].number == k;
      }
    }
  }

  lemma FanOutOnce(s: State, n: Name)
    requires AllLogged(s) && Once(s) && n in s.pending
    ensures Once(Apply(s, FanOut(n)).value)
  {
    var s' := Apply(s, FanOut(n)).value;
    forall i | 0 <= i < |s.file| ensures s.file[i].number != s.pending[n].number {
      assert !Written(s.file, s.pending[n].number);
    }
    forall m | m in s'.pending ensures !Written(s'.file, s'.pending[m].number) {
      WrittenSnoc(s.file, s.pending[n], s'.pending[m].number);
      assert Logged(s.log, s.pending[m]) && Logged(s.log, s.pending[n]);
    }
  }

  lemma FanOutAccounted(s: State, n: Name)
    requires Accounted(s) && n in s.pending
    ensures Accounted(Apply(s, FanOut(n)).value)
  {
    var s' := Apply(s, FanOut(n)).value;
    forall k | 0 < k <= |s'.log| ensures Written(s'.file, k) || Waiting(s'.pending, k) {
      hide Written;
      WrittenSnoc(s.file, s.pending[n], k);
      if !Written(s.file, k) {
        var m :| m in s.pending && s.pending[m].number == k;
        assert m != n ==> m in s'.pending && s'.pending[m].number == k;
      }
    }
  }

  lemma FanOutInv(s: State, n: Name)
    requires Inv(s) && n in s.pending
    ensures Inv(Apply(s, FanOut(n)).value)
  {
    assert AllLogged(Apply(s, FanOut(n)).value) by { hide Logged, Numbered; }
    hide AllLogged, Once, Accounted, Apply;
    FanOutOnce(s, n);
    FanOutAccounted(s, n);
  }

  lemma {:induction false} RunInv(schedule: seq<Action>)
    requires Run(schedule).Some?
    ensures Inv(Run(schedule).value)
  {
    hide Inv, Apply;
    if schedule == [] {
      assert Inv(State([], [], map[])) by { EmptyInv(); }
    } else {
      var s, a := Run(schedule[..|schedule| - 1]).value, schedule[|schedule| - 1];
      RunInv(schedule[..|schedule| - 1]);
      Enabled(s, a);
      match a
      case Record(n, command) => RecordInv(s, n, command);
      case FanOut(n) => FanOutInv(s, n);
    }
  }

  lemma EmptyInv()
    ensures Inv(State([], [], map[]))
  {
  }

  lemma Enabled(s: State, a: Action)
    requires Apply(s, a).Some?
    ensures a.FanOut? == (a.name in s.pending)
  {
  }

  /** The decisions of a schedule, in the order they are recorded. */
  function Recorded(schedule: seq<Action>): seq<Action> {
    if schedule == [] then []
    else
      var a := schedule[|schedule| - 1];
      Recorded(schedule[..|schedule| - 1]) + if a.Record? then [a] else []
  }

  /** The log is the decisions recorded, numbered from 1. */
  lemma {:induction false} LogIsWhatWasRecorded(schedule: seq<Action>)
    requires Run(schedule).Some?
    ensures var log, recorded := Run(schedule).value.log, Recorded(schedule);
      && |log| == |recorded|
      && forall k :: 0 <= k < |log| ==>
           recorded[k].Record? && log[k] == Row(k + 1, recorded[k].name, recorded[k].command)
  {
    if schedule != [] {
      LogIsWhatWasRecorded(schedule[..|schedule| - 1]);
    }
  }

  /** And once nobody has a decision in hand, every one of them is in the file, once. */
  lemma AllAreWritten(schedule: seq<Action>, k: nat)
    requires Run(schedule).Some? && Run(schedule).value.pending == map[]
    requires k < |Run(schedule).value.log|
    ensures var s := Run(schedule).value;
      && |s.file| == |s.log|
      && exists i :: 0 <= i < |s.file| && s.file[i] == s.log[k]
                     && forall j :: 0 <= j < |s.file| && j != i ==> s.file[j] != s.log[k]
  {
    hide Run;
    RunInv(schedule);
    var s := Run(schedule).value;
    assert Written(s.file, k + 1);
    var i :| 0 <= i < |s.file| && s.file[i].number == k + 1;
    assert Logged(s.log, s.file[i]);
    Shorter(s);
    NoneIsMissing(s.file, |s.log|);
  }

  /** Rows that have every number up to `n` are no fewer. */
  lemma {:induction false} NoneIsMissing(rows: seq<Row>, n: nat)
    requires forall k :: 0 < k <= n ==> Written(rows, k)
    ensures n <= |rows|
  {
    if n > 0 {
      assert Written(rows, n);
      var i :| 0 <= i < |rows| && rows[i].number == n;
      var others := rows[..i] + rows[i + 1..];
      forall k | 0 < k <= n - 1 ensures Written(others, k) {
        assert Written(rows, k);
        var j :| 0 <= j < |rows| && rows[j].number == k;
        assert others[if j < i then j else j - 1].number == k;
      }
      NoneIsMissing(others, n - 1);
    }
  }

  // --- per algorithm ----------------------------------------------------------------------

  function Only(rows: seq<Row>, n: Name): seq<Row> {
    if rows == [] then []
    else Only(rows[..|rows| - 1], n) + if rows[|rows| - 1].algorithm == n then [rows[|rows| - 1]] else []
  }

  lemma OnlySnoc(rows: seq<Row>, row: Row, n: Name)
    ensures Only(rows + [row], n) == Only(rows, n) + if row.algorithm == n then [row] else []
  {
    assert (rows + [row])[..|rows|] == rows;
  }

  /** Algorithm by algorithm the file and the log hold the same decisions in the same order, but
      for the one a thread has in hand; in every interleaving. */
  lemma {:induction false} AgreePerAlgorithm(schedule: seq<Action>, n: Name)
    requires Run(schedule).Some?
    ensures var s := Run(schedule).value;
            Only(s.log, n) == Only(s.file, n) + if n in s.pending then [s.pending[n]] else []
  {
    if schedule != [] {
      var s, a := Run(schedule[..|schedule| - 1]).value, schedule[|schedule| - 1];
      AgreePerAlgorithm(schedule[..|schedule| - 1], n);
      RunInv(schedule[..|schedule| - 1]);
      hide Inv, Only, Apply;
      StepAgrees(s, a, n);
    } else {
      assert Run(schedule).value == State([], [], map[]);
    }
  }

  ghost predicate Agree(s: State, n: Name) {
    Only(s.log, n) == Only(s.file, n) + if n in s.pending then [s.pending[n]] else []
  }

  lemma StepAgrees(s: State, a: Action, n: Name)
    requires Inv(s) && Apply(s, a).Some? && Agree(s, n)
    ensures Agree(Apply(s, a).value, n)
  {
    hide Inv, Only;
    Enabled(s, a);
    var s' := Apply(s, a).value;
    match a
    case Record(m, command) =>
      OnlySnoc(s.log, Row(|s.log| + 1, m, command), n);
    case FanOut(m) =>
      OwnRow(s, m);
      OnlySnoc(s.file, s.pending[m], n);
  }

  lemma OwnRow(s: State, n: Name)
    requires Inv(s) && n in s.pending
    ensures s.pending[n].algorithm == n
  {
  }

  // --- all together -------------------------------------------------------------------------

  /** The file holds the log's decisions in the log's order, as far as it goes. */
  ghost predicate SameOrder(s: State) {
    s.file <= s.log
  }

  /** No other thread has been waiting longer than `n`. */
  ghost predicate Oldest(s: State, n: Name)
    requires n in s.pending
  {
    forall m :: m in s.pending ==> s.pending[n].number <= s.pending[m].number
  }

  /** Every fan-out was of the decision recorded first among those outstanding. */
  ghost predicate InTurn(schedule: seq<Action>)
    requires Run(schedule).Some?
  {
    schedule != [] ==>
      var before := schedule[..|schedule| - 1];
      && InTurn(before)
      && (schedule[|schedule| - 1].FanOut? ==>
            Oldest(Run(before).value, schedule[|schedule| - 1].name))
  }

  lemma WrittenInOrder(file: seq<Row>, k: nat)
    requires forall i :: 0 <= i < |file| ==> file[i].number == i + 1
    ensures 0 < k <= |file| ==> Written(file, k)
  {
    if 0 < k <= |file| {
      assert file[k - 1].number == k;
    }
  }

  /** While the file is in the log's order, what waits is what comes after it there. */
  lemma NextWaits(s: State)
    requires Inv(s) && SameOrder(s)
    ensures forall m :: m in s.pending ==> s.pending[m].number > |s.file|
    ensures |s.file| < |s.log| ==> Waiting(s.pending, |s.file| + 1)
  {
    forall i | 0 <= i < |s.file| ensures s.file[i].number == i + 1 {
      assert s.file[i] == s.log[i];
    }
    assert !Written(s.file, |s.file| + 1);
    forall m | m in s.pending ensures s.pending[m].number > |s.file| {
      var k := s.pending[m].number;
      assert Logged(s.log, s.pending[m]) && !Written(s.file, k);
      WrittenInOrder(s.file, k);
    }
  }

  lemma FanOutKeepsOrder(s: State, n: Name)
    requires Inv(s) && n in s.pending
    ensures SameOrder(Apply(s, FanOut(n)).value) <==> SameOrder(s) && Oldest(s, n)
  {
    var s' := Apply(s, FanOut(n)).value;
    var next := |s.file|;
    assert Logged(s.log, s.pending[n]);
    assert SameOrder(s') ==> SameOrder(s) by {
      assert s'.file[..next] == s.file;
    }
    if SameOrder(s) {
      NextWaits(s);
      Shorter(s);
      assert next < |s.log|;
      assert Oldest(s, n) <==> s.pending[n].number == next + 1;
      assert s.log[next].number == next + 1;
      hide Inv;
      if s.pending[n].number == next + 1 {
        assert s.log[..next + 1] == s.log[..next] + [s.log[next]];
      } else {
        assert s'.file[next] == s.pending[n];
      }
    }
  }

  /** Nothing is written that is not in the log. */
  lemma Shorter(s: State)
    requires Inv(s)
    ensures |s.file| <= |s.log|
  {
    forall i | 0 <= i < |s.file| ensures 0 < s.file[i].number <= |s.log| {
      assert Logged(s.log, s.file[i]);
    }
    Pigeons(s.file, |s.log|);
  }

  lemma {:induction false} Pigeons(rows: seq<Row>, n: nat)
    requires forall i :: 0 <= i < |rows| ==> 0 < rows[i].number <= n
    requires forall i, j :: 0 <= i < j < |rows| ==> rows[i].number != rows[j].number
    ensures |rows| <= n
    decreases n
  {
    if rows != [] {
      assert 0 < rows[0].number <= n;
      if k :| 0 <= k < |rows| && rows[k].number == n {
        Pigeons(rows[..k] + rows[k + 1..], n - 1);
      } else {
        Pigeons(rows, n - 1);
      }
    }
  }

  lemma RecordKeepsOrder(s: State, n: Name, command: string)
    requires Inv(s) && n !in s.pending
    ensures SameOrder(Apply(s, Record(n, command)).value) <==> SameOrder(s)
  {
    Shorter(s);
    var s' := Apply(s, Record(n, command)).value;
    assert s'.log[..|s.file|] == s.log[..|s.file|];
  }

  /** So the file and the log agree on the order exactly when no thread's fan-out has overtaken
      another's: nothing in the code sees to that. */
  lemma {:induction false} SameOrderExactlyWhen(schedule: seq<Action>)
    requires Run(schedule).Some?
    ensures SameOrder(Run(schedule).value) <==> InTurn(schedule)
  {
    if schedule != [] {
      var s, a := Run(schedule[..|schedule| - 1]).value, schedule[|schedule| - 1];
      SameOrderExactlyWhen(schedule[..|schedule| - 1]);
      RunInv(schedule[..|schedule| - 1]);
      Enabled(s, a);
      hide Inv, SameOrder, Apply, Oldest;
      match a
      case Record(n, command) => RecordKeepsOrder(s, n, command);
      case FanOut(n) => FanOutKeepsOrder(s, n);
    }
  }

  /** Two threads that interleave: the log says one before two, the file two before one. */
  lemma TwoAlgorithmsCanDisagree()
    ensures exists schedule ::
      Run(schedule).Some? && |Run(schedule).value.file| == |Run(schedule).value.log|
      && !SameOrder(Run(schedule).value)
  {
    hide Run;
    var s0 := State([], [], map[]);
    var s1 := Apply(s0, Record("a", "on")).value;
    assert "a" != "b" by { assert "a"[0] != "b"[0]; }
    var s2 := Apply(s1, Record("b", "on")).value;
    var s3 := Apply(s2, FanOut("b")).value;
    var s4 := Apply(s3, FanOut("a")).value;
    assert s4.file[0].number == 2 && s4.log[0].number == 1 && |s4.file| == |s4.log| == 2;
    RunEmpty();
    RunSnoc([], Record("a", "on"), s0);
    var p := [] + [Record("a", "on")];
    RunSnoc(p, Record("b", "on"), s1);
    p := p + [Record("b", "on")];
    RunSnoc(p, FanOut("b"), s2);
    p := p + [FanOut("b")];
    RunSnoc(p, FanOut("a"), s3);
    p := p + [FanOut("a")];
    assert Run(p) == Some(s4);
  }

  lemma RunEmpty()
    ensures Run([]) == Some(State([], [], map[]))
  {
  }

  lemma RunSnoc(schedule: seq<Action>, a: Action, s: State)
    requires Run(schedule) == Some(s)
    ensures Run(schedule + [a]) == Apply(s, a)
  {
    assert (schedule + [a])[..|schedule|] == schedule;
  }
}
