/**
  The resumable evaluation matrix and its gate
  (scripts/run_live_web_acceptance_v2.py: run_gate).

  A session attempts the (case, repeat) cells that have no record yet, repeat by repeat,
  saving the evidence after each attempt. It may be killed, or stop at a ceiling, and a
  later session resumes from the saved evidence. Cases and categories are numbered.
*/
module EvaluationMatrix {
  import opened Basics

  datatype Task = Task(id: nat, category: nat)

  /**
    What one attempt at a cell leads to; an attempt that raises is a failed one. `billed` are
    the tokens its record says were billed, none if it raised; `spent` are those that were.
  */
  datatype Outcome =
    Outcome(passed: bool, completed: bool, violations: nat, measured: bool, billed: nat, spent: nat)

  datatype Run = Run(caseId: nat, category: nat, repeat: int, outcome: Outcome)

  datatype Cell = Cell(task: Task, repeat: int)

  type Key = (nat, int)

  function KeyOf(c: Cell): Key {
    (c.task.id, c.repeat)
  }

  function KeyOfRun(r: Run): Key {
    (r.caseId, r.repeat)
  }

  function Keys(runs: seq<Run>): set<Key> {
    set r | r in runs :: KeyOfRun(r)
  }

  function CellKeys(cells: seq<Cell>): set<Key> {
    set c | c in cells :: KeyOf(c)
  }

  function Row(tasks: seq<Task>, repeat: int): (row: seq<Cell>)
    ensures |row| == |tasks|
  {
    seq(|tasks|, i requires 0 <= i < |tasks| => Cell(tasks[i], repeat))
  }

  /** The cells of some repeats, in the order they are attempted. */
  function Rows(tasks: seq<Task>, from: nat, reps: nat): seq<Cell>
    decreases reps + 1 - from
  {
    if from > reps then [] else Row(tasks, from) + Rows(tasks, from + 1, reps)
  }

  function Matrix(tasks: seq<Task>, reps: nat): seq<Cell> {
    Rows(tasks, 1, reps)
  }

  /** The cells still to attempt, in order; a cell attempted on the way counts as done. */
  function Todo(cells: seq<Cell>, done: set<Key>): seq<Cell>
    decreases |cells|
  {
    if cells == [] then []
    else if KeyOf(cells[0]) in done then Todo(cells[1..], done)
    else [cells[0]] + Todo(cells[1..], done + {KeyOf(cells[0])})
  }

  /** What the outside world makes of an attempt. */
  type World = (Task, int) -> Outcome

  function Record(world: World, c: Cell): Run {
    Run(c.task.id, c.task.category, c.repeat, world(c.task, c.repeat))
  }

  function Records(world: World, cells: seq<Cell>): (runs: seq<Run>)
    ensures |runs| == |cells|
    ensures forall i :: 0 <= i < |cells| ==> runs[i] == Record(world, cells[i])
    ensures forall i :: 0 <= i < |cells| ==>
              && runs[i].caseId == cells[i].task.id && runs[i].category == cells[i].task.category
              && runs[i].repeat == cells[i].repeat && runs[i].outcome == world(cells[i].task, cells[i].repeat)
  {
    seq(|cells|, i requires 0 <= i < |cells| => Record(world, cells[i]))
  }

  function Billed(runs: seq<Run>): nat {
    if runs == [] then 0 else Billed(runs[..|runs| - 1]) + runs[|runs| - 1].outcome.billed
  }

  // ---------------------------------------------------------------- one session

  datatype Terminal = Complete | CostLimit | TimeLimit | Killed

  datatype Limits = Limits(rupees: real, seconds: real, tokensPerAttempt: nat)

  function Price(tokens: nat): real {
    tokens as real * 396.0 / 1000000.0
  }

  /** The worst case of one more attempt fits under the spend ceiling. */
  predicate Affordable(l: Limits, runs: seq<Run>) {
    Price(Billed(runs)) + Price(l.tokensPerAttempt) <= l.rupees
  }

  /** A session over some missing cells has recorded the first n of them, each admitted in its turn. */
  ghost predicate Progress(todo: seq<Cell>, evidence: seq<Run>, limits: Limits, world: World, clock: nat -> real,
                           n: nat, runs: seq<Run>)
  {
    && n <= |todo| && runs == evidence + Records(world, todo[..n])
    && forall k :: 0 <= k < n ==>
         Affordable(limits, evidence + Records(world, todo[..k])) && clock(k) < limits.seconds
  }

  lemma OneMoreAttempt(todo: seq<Cell>, evidence: seq<Run>, limits: Limits, world: World, clock: nat -> real,
                       n: nat, runs: seq<Run>)
    requires Progress(todo, evidence, limits, world, clock, n, runs) && n < |todo|
    requires Affordable(limits, runs) && clock(n) < limits.seconds
    ensures Progress(todo, evidence, limits, world, clock, n + 1, runs + [Record(world, todo[n])])
  {
    assert Records(world, todo[..n + 1]) == Records(world, todo[..n]) + [Record(world, todo[n])];
  }

  /**
    A session appends the records of a first part of the missing cells, in matrix order,
    one each. It is the whole of them exactly when the session ends complete; otherwise the
    next cell was not affordable, or out of time, or the process was killed.
    `clock` is the elapsed time at each admission, `lifetime` how many attempts the process
    survives to save.
  */
  method RunSession(tasks: seq<Task>, reps: nat, evidence: seq<Run>, limits: Limits, world: World,
                    clock: nat -> real, lifetime: nat)
      returns (terminal: Terminal, runs: seq<Run>, attempts: nat)
    ensures Progress(Todo(Matrix(tasks, reps), Keys(evidence)), evidence, limits, world, clock, attempts, runs)
    ensures terminal == Complete <==> attempts == |Todo(Matrix(tasks, reps), Keys(evidence))|
    ensures terminal == CostLimit ==>
              (Billed(runs) + limits.tokensPerAttempt) as real * 396.0 / 1000000.0 > limits.rupees
    ensures terminal == TimeLimit ==> clock(attempts) >= limits.seconds
    ensures terminal == Killed ==>
              attempts == lifetime && Affordable(limits, runs) && clock(attempts) < limits.seconds
    ensures evidence <= runs && |runs| == |evidence| + attempts
  {
    ghost var todo := Todo(Matrix(tasks, reps), Keys(evidence));
    runs, attempts := evidence, 0;
    var done := set r | r in evidence :: KeyOfRun(r);
    assert Progress(todo, evidence, limits, world, clock, 0, runs);
    assert todo[0..] == todo && done == Keys(evidence);
    hide Progress, Billed, Todo, Row, Rows, Affordable;
    var repeat := 1;
    while repeat <= reps
      invariant 1 <= repeat <= reps + 1
      invariant attempts <= |todo| && Progress(todo, evidence, limits, world, clock, attempts, runs)
      invariant todo[attempts..] == Todo(Rows(tasks, repeat, reps), done)
    {
      ghost var later := Rows(tasks, repeat + 1, reps);
      RowBegins(tasks, repeat, reps);
      for i := 0 to |tasks|
        invariant attempts <= |todo| && Progress(todo, evidence, limits, world, clock, attempts, runs)
        invariant todo[attempts..] == Todo(Row(tasks, repeat)[i..] + later, done)
      {
        var cell := Cell(tasks[i], repeat);
        NextCell(tasks, repeat, i, later, done);
        if (tasks[i].id, repeat) in done {
          continue;
        }
        HeadOf(todo, attempts, cell, Todo(Row(tasks, repeat)[i + 1..] + later, done + {KeyOf(cell)}));
        Admission(limits, runs);
        TogetherPriced(Billed(runs), limits.tokensPerAttempt);
        if Price(Billed(runs)) + Price(limits.tokensPerAttempt) > limits.rupees {
          return CostLimit, runs, attempts;
        }
        if clock(attempts) >= limits.seconds {
          return TimeLimit, runs, attempts;
        }
        if attempts == lifetime {
          return Killed, runs, attempts;
        }
        OneMoreAttempt(todo, evidence, limits, world, clock, attempts, runs);
        var outcome := world(tasks[i], repeat);
        runs := runs + [Run(tasks[i].id, tasks[i].category, repeat, outcome)];
        done := done + {(tasks[i].id, repeat)};
        attempts := attempts + 1;
      }
      RowEnds(tasks, repeat, later);
      repeat := repeat + 1;
    }
    NothingTodo(done, tasks, repeat, reps);
    return Complete, runs, attempts;
  }

  lemma NothingTodo(done: set<Key>, tasks: seq<Task>, repeat: nat, reps: nat)
    requires repeat > reps
    ensures Todo(Rows(tasks, repeat, reps), done) == []
  {
  }

  lemma RowBegins(tasks: seq<Task>, repeat: nat, reps: nat)
    requires repeat <= reps
    ensures Row(tasks, repeat)[0..] + Rows(tasks, repeat + 1, reps) == Rows(tasks, repeat, reps)
  {
    assert Row(tasks, repeat)[0..] == Row(tasks, repeat);
  }

  lemma RowEnds(tasks: seq<Task>, repeat: nat, later: seq<Cell>)
    ensures Row(tasks, repeat)[|tasks|..] + later == later
  {
  }

  lemma HeadOf(todo: seq<Cell>, n: nat, cell: Cell, rest: seq<Cell>)
    requires n <= |todo| && todo[n..] == [cell] + rest
    ensures n < |todo| && todo[n] == cell && todo[n + 1..] == rest
  {
    assert todo[n..][0] == cell && todo[n..][1..] == rest;
  }

  lemma TogetherPriced(a: nat, b: nat)
    ensures Price(a) + Price(b) == (a + b) as real * 396.0 / 1000000.0
  {
  }

  lemma Admission(l: Limits, runs: seq<Run>)
    ensures Affordable(l, runs) <==> !(Price(Billed(runs)) + Price(l.tokensPerAttempt) > l.rupees)
  {
  }

  lemma NextCell(tasks: seq<Task>, repeat: int, i: nat, later: seq<Cell>, done: set<Key>)
    requires i < |tasks|
    ensures var here := Row(tasks, repeat)[i..] + later;
            var next := Row(tasks, repeat)[i + 1..] + later;
            var cell := Cell(tasks[i], repeat);
            Todo(here, done) == if KeyOf(cell) in done then Todo(next, done)
                                else [cell] + Todo(next, done + {KeyOf(cell)})
  {
    var here := Row(tasks, repeat)[i..] + later;
    assert here[0] == Cell(tasks[i], repeat) && here[1..] == Row(tasks, repeat)[i + 1..] + later;
  }

  // ---------------------------------------------------------------- resuming

  /** What is left after a first part is done is the rest, unchanged. */
  lemma {:induction false} TodoAfterPart(cells: seq<Cell>, done: set<Key>, n: nat)
    requires n <= |Todo(cells, done)|
    ensures Todo(cells, done + CellKeys(Todo(cells, done)[..n])) == Todo(cells, done)[n..]
    decreases |cells|
  {
    var todo := Todo(cells, done);
    var more := done + CellKeys(todo[..n]);
    if cells == [] {
    } else if KeyOf(cells[0]) in done {
      TodoAfterPart(cells[1..], done, n);
    } else if n == 0 {
      assert more == done;
    } else {
      var k := KeyOf(cells[0]);
      var rest := Todo(cells[1..], done + {k});
      assert todo[..n] == [cells[0]] + rest[..n - 1];
      assert more == done + {k} + CellKeys(rest[..n - 1]);
      TodoAfterPart(cells[1..], done + {k}, n - 1);
    }
  }

  /** Saved evidence after a chain of sessions, each stopped after some number of attempts. */
  function Evidence(tasks: seq<Task>, reps: nat, world: World, stops: seq<nat>): seq<Run>
    decreases |stops|
  {
    if stops == [] then []
    else
      var before := Evidence(tasks, reps, world, stops[..|stops| - 1]);
      var todo := Todo(Matrix(tasks, reps), Keys(before));
      var n := stops[|stops| - 1];
      before + Records(world, if n <= |todo| then todo[..n] else todo)
  }

  predicate DistinctTasks(tasks: seq<Task>) {
    forall i, j :: 0 <= i < j < |tasks| ==> tasks[i].id != tasks[j].id
  }

  lemma KeysOfRecords(world: World, cells: seq<Cell>)
    ensures Keys(Records(world, cells)) == CellKeys(cells)
  {
    var runs := Records(world, cells);
    forall i | 0 <= i < |cells|
      ensures KeyOfRun(runs[i]) == KeyOf(cells[i]) && runs[i] in runs && cells[i] in cells
    {
    }
  }

  lemma RecordsAppend(world: World, a: seq<Cell>, b: seq<Cell>)
    ensures Records(world, a + b) == Records(world, a) + Records(world, b)
  {
  }

  /** The evidence of any chain of sessions is a first part of the evidence of one uninterrupted session. */
  lemma {:induction false} EvidenceIsAPrefix(tasks: seq<Task>, reps: nat, world: World, stops: seq<nat>)
    ensures var all := Todo(Matrix(tasks, reps), {});
            var evidence := Evidence(tasks, reps, world, stops);
            && |evidence| <= |all| && evidence == Records(world, all[..|evidence|])
            && Todo(Matrix(tasks, reps), Keys(evidence)) == all[|evidence|..]
    decreases |stops|
  {
    var cells := Matrix(tasks, reps);
    hide Matrix, Todo, Records;
    var all := Todo(cells, {});
    if stops == [] {
      PartIsAPrefix(cells, world, 0);
    } else {
      var n := stops[|stops| - 1];
      var before := Evidence(tasks, reps, world, stops[..|stops| - 1]);
      EvidenceIsAPrefix(tasks, reps, world, stops[..|stops| - 1]);
      var rest := all[|before|..];
      var m := if n <= |rest| then n else |rest|;
      assert rest[..|rest|] == rest;
      RecordsAppend(world, all[..|before|], rest[..m]);
      assert all[..|before|] + rest[..m] == all[..|before| + m];
      PartIsAPrefix(cells, world, |before| + m);
    }
  }

  lemma PartIsAPrefix(cells: seq<Cell>, world: World, n: nat)
    requires n <= |Todo(cells, {})|
    ensures Todo(cells, Keys(Records(world, Todo(cells, {})[..n]))) == Todo(cells, {})[n..]
  {
    hide Todo, Records;
    KeysOfRecords(world, Todo(cells, {})[..n]);
    TodoAfterPart(cells, {}, n);
    assert {} + CellKeys(Todo(cells, {})[..n]) == Keys(Records(world, Todo(cells, {})[..n]));
  }

  /**
    Resuming is invisible: however often a run was stopped and resumed, once a session ends
    complete the evidence equals that of one uninterrupted run, record by record and in order.
  */
  lemma ResumedEqualsUninterrupted(tasks: seq<Task>, reps: nat, world: World, stops: seq<nat>)
    requires DistinctTasks(tasks)
    requires Todo(Matrix(tasks, reps), Keys(Evidence(tasks, reps, world, stops))) == []
    ensures Evidence(tasks, reps, world, stops) == Records(world, Matrix(tasks, reps))
  {
    EvidenceIsAPrefix(tasks, reps, world, stops);
    MatrixIsDistinct(tasks, 1, reps);
    AllTodo(Matrix(tasks, reps), {});
    var all := Todo(Matrix(tasks, reps), {});
    assert all[..|all|] == all;
  }

  predicate DistinctCells(cells: seq<Cell>) {
    forall i, j :: 0 <= i < j < |cells| ==> KeyOf(cells[i]) != KeyOf(cells[j])
  }

  lemma {:induction false} AllTodo(cells: seq<Cell>, done: set<Key>)
    requires DistinctCells(cells) && (forall c :: c in cells ==> KeyOf(c) !in done)
    ensures Todo(cells, done) == cells
    decreases |cells|
  {
    if cells != [] {
      assert DistinctCells(cells[1..]);
      AllTodo(cells[1..], done + {KeyOf(cells[0])});
    }
  }

  lemma {:induction false} MatrixIsDistinct(tasks: seq<Task>, from: nat, reps: nat)
    requires DistinctTasks(tasks)
    ensures DistinctCells(Rows(tasks, from, reps))
    ensures forall c :: c in Rows(tasks, from, reps) <==> c.task in tasks && from <= c.repeat <= reps
    decreases reps + 1 - from
  {
    if from <= reps {
      MatrixIsDistinct(tasks, from + 1, reps);
      var row, later := Row(tasks, from), Rows(tasks, from + 1, reps);
      RowCells(tasks, from);
      RowIsDistinct(tasks, from);
      hide Row, DistinctTasks;
      assert forall c, d :: c in row && d in later ==> KeyOf(c) != KeyOf(d);
      DistinctConcat(row, later);
    }
  }

  lemma RowIsDistinct(tasks: seq<Task>, repeat: int)
    requires DistinctTasks(tasks)
    ensures DistinctCells(Row(tasks, repeat))
  {
  }

  lemma DistinctConcat(a: seq<Cell>, b: seq<Cell>)
    requires DistinctCells(a) && DistinctCells(b) && forall c, d :: c in a && d in b ==> KeyOf(c) != KeyOf(d)
    ensures DistinctCells(a + b)
  {
  }

  lemma RowCells(tasks: seq<Task>, repeat: int)
    ensures forall c :: c in Row(tasks, repeat) <==> c.task in tasks && c.repeat == repeat
  {
    var row := Row(tasks, repeat);
    forall c: Cell | c.task in tasks && c.repeat == repeat
      ensures c in row
    {
      var i :| 0 <= i < |tasks| && tasks[i] == c.task;
      assert row[i] == c;
    }
  }

  /** The matrix is gone through repeat by repeat, each in the order of the tasks. */
  lemma {:induction false} RowsInOrder(tasks: seq<Task>, from: nat, reps: nat, repeat: nat, i: nat)
    requires from <= repeat <= reps && i < |tasks|
    ensures (repeat - from) * |tasks| + i < |Rows(tasks, from, reps)|
    ensures Rows(tasks, from, reps)[(repeat - from) * |tasks| + i] == Cell(tasks[i], repeat)
    decreases reps - from
  {
    if from < repeat {
      RowsInOrder(tasks, from + 1, reps, repeat, i);
      OneRowLess(repeat - from, |tasks|);
    }
  }

  lemma OneRowLess(rows: nat, size: nat)
    requires rows > 0
    ensures rows * size == size + (rows - 1) * size && rows * size >= size
  {
    assert (rows - 1) * size >= 0;
  }

  /** The cells of the matrix: every task in every repeat from 1, in repeat-major order, and no others. */
  lemma MatrixMeaning(tasks: seq<Task>, reps: nat)
    ensures |Matrix(tasks, reps)| == reps * |tasks|
    ensures forall repeat, i :: 1 <= repeat <= reps && 0 <= i < |tasks| ==>
              0 <= (repeat - 1) * |tasks| + i < |Matrix(tasks, reps)|
              && Matrix(tasks, reps)[(repeat - 1) * |tasks| + i] == Cell(tasks[i], repeat)
  {
    MatrixSize(tasks, 1, reps);
    forall repeat, i | 1 <= repeat <= reps && 0 <= i < |tasks|
      ensures 0 <= (repeat - 1) * |tasks| + i < |Matrix(tasks, reps)|
      ensures Matrix(tasks, reps)[(repeat - 1) * |tasks| + i] == Cell(tasks[i], repeat)
    {
      RowsInOrder(tasks, 1, reps, repeat, i);
      assert (repeat - 1) * |tasks| >= 0;
    }
  }

  lemma {:induction false} MatrixSize(tasks: seq<Task>, from: nat, reps: nat)
    ensures |Rows(tasks, from, reps)| == if from > reps then 0 else (reps + 1 - from) * |tasks|
    decreases reps + 1 - from
  {
    if from <= reps {
      MatrixSize(tasks, from + 1, reps);
      assert (reps + 1 - from) * |tasks| == |tasks| + (reps - from) * |tasks|;
    }
  }

  // ---------------------------------------------------------------- what is attempted

  /** The cells a session may attempt are exactly the missing ones, each once. */
  lemma {:induction false} TodoMeaning(cells: seq<Cell>, done: set<Key>)
    ensures DistinctCells(Todo(cells, done))
    ensures CellKeys(Todo(cells, done)) == CellKeys(cells) - done
    ensures forall c :: c in Todo(cells, done) ==> c in cells
    decreases |cells|
  {
    if cells != [] {
      var k := KeyOf(cells[0]);
      if k in done {
        TodoMeaning(cells[1..], done);
        assert CellKeys(cells) == CellKeys(cells[1..]) + {k};
      } else {
        TodoMeaning(cells[1..], done + {k});
        var rest := Todo(cells[1..], done + {k});
        assert CellKeys(cells) == CellKeys(cells[1..]) + {k};
        assert CellKeys([cells[0]] + rest) == CellKeys(rest) + {k};
        forall c | c in rest
          ensures KeyOf(c) != k
        {
          assert KeyOf(c) in CellKeys(rest);
        }
      }
    }
  }

  predicate Unique(runs: seq<Run>) {
    forall i, j :: 0 <= i < j < |runs| ==> KeyOfRun(runs[i]) != KeyOfRun(runs[j])
  }

  /** A session keeps one record per cell. */
  lemma SessionKeepsUnique(tasks: seq<Task>, reps: nat, evidence: seq<Run>, world: World, n: nat)
    requires Unique(evidence)
    requires n <= |Todo(Matrix(tasks, reps), Keys(evidence))|
    ensures Unique(evidence + Records(world, Todo(Matrix(tasks, reps), Keys(evidence))[..n]))
  {
    var todo := Todo(Matrix(tasks, reps), Keys(evidence));
    TodoMeaning(Matrix(tasks, reps), Keys(evidence));
    var added := Records(world, todo[..n]);
    forall i, j | 0 <= i < |evidence| && 0 <= j < n
      ensures KeyOfRun(evidence[i]) != KeyOfRun(added[j])
    {
      assert KeyOf(todo[j]) in CellKeys(todo);
      assert KeyOfRun(evidence[i]) in Keys(evidence);
    }
  }

  // ---------------------------------------------------------------- retrying failures

  predicate Stale(r: Run, selected: set<nat>) {
    r.caseId in selected && !r.outcome.passed
  }

  /** `retry_failed` drops every record whose key some failed record of a selected case has. */
  function Retained(runs: seq<Run>, retry: set<Key>): seq<Run> {
    if runs == [] then []
    else if KeyOfRun(runs[|runs| - 1]) in retry then Retained(runs[..|runs| - 1], retry)
    else Retained(runs[..|runs| - 1], retry) + [runs[|runs| - 1]]
  }

  function RetryKeys(runs: seq<Run>, selected: set<nat>): set<Key> {
    set r | r in runs && Stale(r, selected) :: KeyOfRun(r)
  }

  method DropFailed(runs: seq<Run>, selected: set<nat>) returns (kept: seq<Run>)
    ensures kept == Retained(runs, RetryKeys(runs, selected))
  {
    var retry := set r | r in runs && r.caseId in selected && !r.outcome.passed :: (r.caseId, r.repeat);
    assert retry == RetryKeys(runs, selected);
    kept := [];
    for i := 0 to |runs|
      invariant kept == Retained(runs[..i], retry)
    {
      assert runs[..i + 1][..i] == runs[..i];
      if KeyOfRun(runs[i]) !in retry {
        kept := kept + [runs[i]];
      }
    }
    assert runs[..|runs|] == runs;
  }

  lemma {:induction false} RetainedMeaning(runs: seq<Run>, retry: set<Key>)
    ensures forall r :: r in Retained(runs, retry) <==> r in runs && KeyOfRun(r) !in retry
    ensures Unique(runs) ==> Unique(Retained(runs, retry))
    decreases |runs|
  {
    if runs != [] {
      var n := |runs| - 1;
      var before, kept := runs[..n], Retained(runs[..n], retry);
      RetainedMeaning(before, retry);
      UniqueSnoc(before, runs[n]);
      UniqueSnoc(kept, runs[n]);
      assert runs == before + [runs[n]];
      hide Unique;
      assert Keys(kept) <= Keys(before);
    }
  }

  /**
    On evidence with one record per cell, a retry drops exactly the failed records of the
    selected cases, never reruns a passed cell, and attempts a dropped cell again if and only
    if its repeat is among the requested ones; a dropped record outside them is gone for good.
  */
  lemma RetryReplacesOnlyFailures(tasks: seq<Task>, reps: nat, runs: seq<Run>)
    requires Unique(runs) && DistinctTasks(tasks)
    ensures var selected := set t | t in tasks :: t.id;
            var kept := Retained(runs, RetryKeys(runs, selected));
            var todo := Todo(Matrix(tasks, reps), Keys(kept));
            && Unique(kept)
            && (forall r :: r in kept <==> r in runs && (r.outcome.passed || r.caseId !in selected))
            && (forall r :: r in runs && KeyOfRun(r) in CellKeys(todo) ==> !r.outcome.passed && r.caseId in selected)
            && (forall r :: r in runs && !r.outcome.passed && r.caseId in selected ==>
                  (KeyOfRun(r) in CellKeys(todo) <==> 1 <= r.repeat <= reps))
  {
    var selected := set t | t in tasks :: t.id;
    var retry := RetryKeys(runs, selected);
    var kept := Retained(runs, retry);
    RetainedMeaning(runs, retry);
    forall r | r in runs
      ensures KeyOfRun(r) in retry <==> Stale(r, selected)
    {
      SameKeySameRun(runs, r);
    }
    TodoMeaning(Matrix(tasks, reps), Keys(kept));
    MatrixIsDistinct(tasks, 1, reps);
    forall r | r in runs && Stale(r, selected)
      ensures KeyOfRun(r) in CellKeys(Matrix(tasks, reps)) <==> 1 <= r.repeat <= reps
      ensures KeyOfRun(r) !in Keys(kept)
    {
      var t :| t in tasks && t.id == r.caseId;
      if 1 <= r.repeat <= reps {
        assert Cell(t, r.repeat) in Matrix(tasks, reps) && KeyOf(Cell(t, r.repeat)) == KeyOfRun(r);
      }
    }
  }

  /** A failed record of a repeat that is no longer asked for: dropped, and not attempted again. */
  lemma RetryLosesTheRecord(t: Task, repeat: int, reps: nat, o: Outcome)
    requires repeat > reps && !o.passed
    ensures var runs := [Run(t.id, t.category, repeat, o)];
            var kept := Retained(runs, RetryKeys(runs, {t.id}));
            && kept == [] && (t.id, repeat) !in CellKeys(Todo(Matrix([t], reps), Keys(kept)))
  {
    var r := Run(t.id, t.category, repeat, o);
    var selected := set x | x in [t] :: x.id;
    assert t in [t] && selected == {t.id};
    assert r in [r] && Stale(r, selected);
    RetryReplacesOnlyFailures([t], reps, [r]);
    assert KeyOfRun(r) == (t.id, repeat);
    assert KeyOfRun(r) in RetryKeys([r], {t.id}) && [r][..0] == [];
  }

  lemma SameKeySameRun(runs: seq<Run>, r: Run)
    requires Unique(runs) && r in runs
    ensures forall q :: q in runs && KeyOfRun(q) == KeyOfRun(r) ==> q == r
  {
  }

  // ---------------------------------------------------------------- the gate

  function Where(runs: seq<Run>, p: Run -> bool): seq<Run> {
    if runs == [] then []
    else if p(runs[|runs| - 1]) then Where(runs[..|runs| - 1], p) + [runs[|runs| - 1]]
    else Where(runs[..|runs| - 1], p)
  }

  function InMatrix(tasks: seq<Task>, reps: nat): Run -> bool {
    (r: Run) => (exists t :: t in tasks && t.id == r.caseId) && r.repeat <= reps
  }

  function InCategory(category: nat): Run -> bool {
    (r: Run) => r.category == category
  }

  predicate Passed(r: Run) {
    r.outcome.passed
  }

  predicate FalselyCompleted(r: Run) {
    r.outcome.completed && !r.outcome.passed
  }

  predicate Unmeasured(r: Run) {
    !r.outcome.measured
  }

  function Violations(runs: seq<Run>): nat {
    if runs == [] then 0 else Violations(runs[..|runs| - 1]) + runs[|runs| - 1].outcome.violations
  }

  function Rate(part: nat, whole: nat): real {
    if whole == 0 then 0.0 else part as real / whole as real
  }

  function CategoryRate(matrix: seq<Run>, category: nat): real {
    var ofCategory := Where(matrix, InCategory(category));
    Rate(|Where(ofCategory, Passed)|, |ofCategory|)
  }

  /** Four in five of a category's records passed, and there are some. */
  predicate CategoryHolds(matrix: seq<Run>, category: nat) {
    var ofCategory := Where(matrix, InCategory(category));
    |ofCategory| > 0 && |Where(ofCategory, Passed)| as real >= 0.80 * |ofCategory| as real
  }

  /** The pass decision over all saved records. */
  predicate GatePassed(tasks: seq<Task>, reps: nat, runs: seq<Run>, terminal: Terminal) {
    var matrix := Where(runs, InMatrix(tasks, reps));
    var expected := |tasks| * reps;
    && terminal == Complete
    && |matrix| == expected
    && Rate(|Where(matrix, Passed)|, expected) >= 0.90
    && (forall t :: t in tasks ==> CategoryRate(matrix, t.category) >= 0.80)
    && |Where(matrix, FalselyCompleted)| == 0
    && Violations(matrix) == 0
    && |Where(matrix, Unmeasured)| == 0
  }

  lemma {:induction false} WhereMeaning(runs: seq<Run>, p: Run -> bool)
    ensures forall r :: r in Where(runs, p) <==> r in runs && p(r)
    decreases |runs|
  {
    if runs != [] {
      var n := |runs| - 1;
      WhereMeaning(runs[..n], p);
      assert runs == runs[..n] + [runs[n]];
    }
  }

  lemma {:induction false} NoViolations(runs: seq<Run>)
    ensures Violations(runs) == 0 <==> forall r :: r in runs ==> r.outcome.violations == 0
    decreases |runs|
  {
    if runs != [] {
      var n := |runs| - 1;
      NoViolations(runs[..n]);
      assert runs == runs[..n] + [runs[n]];
    }
  }

  lemma UniqueSnoc(runs: seq<Run>, r: Run)
    ensures Keys(runs + [r]) == Keys(runs) + {KeyOfRun(r)}
    ensures Unique(runs + [r]) <==> Unique(runs) && KeyOfRun(r) !in Keys(runs)
  {
    var all := runs + [r];
    forall q | q in runs
      ensures exists i :: 0 <= i < |runs| && all[i] == q
    {
      var i :| 0 <= i < |runs| && runs[i] == q;
      assert all[i] == q;
    }
    if Unique(all) {
      assert forall i, j :: 0 <= i < j < |runs| ==> all[i] == runs[i] && all[j] == runs[j];
      assert all[|runs|] == r;
    }
    assert forall i :: 0 <= i < |runs| ==> runs[i] in runs;
  }

  /** As many records as keys means no key twice. */
  lemma {:induction false} KeysSize(runs: seq<Run>)
    ensures |Keys(runs)| <= |runs|
    ensures |Keys(runs)| == |runs| <==> Unique(runs)
    decreases |runs|
  {
    if runs == [] {
      assert Keys(runs) == {};
    } else {
      hide Keys, Unique;
      var n := |runs| - 1;
      var ks, k := Keys(runs[..n]), KeyOfRun(runs[n]);
      KeysSize(runs[..n]);
      UniqueSnoc(runs[..n], runs[n]);
      assert runs == runs[..n] + [runs[n]];
      OneElementMore(ks, k);
    }
  }

  lemma {:induction false} CellKeysSize(cells: seq<Cell>)
    requires DistinctCells(cells)
    ensures |CellKeys(cells)| == |cells|
    decreases |cells|
  {
    if cells != [] {
      var n := |cells| - 1;
      CellKeysSize(cells[..n]);
      assert cells == cells[..n] + [cells[n]];
      assert CellKeys(cells) == CellKeys(cells[..n]) + {KeyOf(cells[n])};
      assert KeyOf(cells[n]) !in CellKeys(cells[..n]) by {
        assert forall c :: c in cells[..n] ==> exists i :: 0 <= i < n && cells[i] == c;
      }
    }
  }

  /** A session that ends complete has a record for every cell. */
  lemma CompleteCoversTheMatrix(tasks: seq<Task>, reps: nat, evidence: seq<Run>, world: World)
    ensures CellKeys(Matrix(tasks, reps)) <= Keys(evidence + Records(world, Todo(Matrix(tasks, reps), Keys(evidence))))
  {
    var todo := Todo(Matrix(tasks, reps), Keys(evidence));
    TodoMeaning(Matrix(tasks, reps), Keys(evidence));
    KeysOfRecords(world, todo);
    var all := evidence + Records(world, todo);
    assert Keys(all) == Keys(evidence) + Keys(Records(world, todo)) by {
      assert forall r :: r in all <==> r in evidence || r in Records(world, todo);
    }
  }

  /**
    The gate says what it is for. Once every cell has a record, it passes if and only if the
    records inside the matrix are one for each cell, nine in ten of all cells and four in five
    of every category's records passed, and every record is measured, free of violations and
    completed only when it passed.
  */
  lemma GateMeansFullMatrix(tasks: seq<Task>, reps: nat, runs: seq<Run>)
    requires DistinctTasks(tasks) && tasks != [] && reps > 0
    requires CellKeys(Matrix(tasks, reps)) <= Keys(runs)
    ensures var matrix := Where(runs, InMatrix(tasks, reps));
            GatePassed(tasks, reps, runs, Complete) <==>
              && Unique(matrix) && Keys(matrix) == CellKeys(Matrix(tasks, reps))
              && |Where(matrix, Passed)| as real >= 0.90 * (|tasks| * reps) as real
              && (forall t :: t in tasks ==> CategoryHolds(matrix, t.category))
              && (forall r :: r in matrix ==>
                    r.outcome.measured && r.outcome.violations == 0 && (r.outcome.completed ==> r.outcome.passed))
  {
    hide Rate, Where, Unique, Keys;
    var matrix := Where(runs, InMatrix(tasks, reps));
    MatrixRunsAreFull(tasks, reps, runs);
    RateAtLeast(|Where(matrix, Passed)|, |tasks| * reps, 0.90);
    forall t | t in tasks
      ensures CategoryRate(matrix, t.category) >= 0.80 <==> CategoryHolds(matrix, t.category)
    {
      var ofCategory := Where(matrix, InCategory(t.category));
      RateAtLeast(|Where(ofCategory, Passed)|, |ofCategory|, 0.80);
    }
    NoneWhere(matrix, FalselyCompleted);
    NoneWhere(matrix, Unmeasured);
    NoViolations(matrix);
  }

  // ---------------------------------------------------------------- the gate, record by record

  /** The places of the records of selected cases in the requested repeats. */
  ghost function Inside(tasks: seq<Task>, reps: nat, runs: seq<Run>): set<int> {
    set i | 0 <= i < |runs| && runs[i].repeat <= reps && exists t :: t in tasks && t.id == runs[i].caseId
  }

  /** Those of passed attempts. */
  ghost function Successes(runs: seq<Run>, places: set<int>): set<int> {
    set i | i in places && 0 <= i < |runs| && runs[i].outcome.passed
  }

  /** Those of one category. */
  ghost function Filed(runs: seq<Run>, places: set<int>, category: nat): set<int> {
    set i | i in places && 0 <= i < |runs| && runs[i].category == category
  }

  /** There is a record for each place in which p holds. */
  ghost function Places(runs: seq<Run>, p: Run -> bool): set<int> {
    set i | 0 <= i < |runs| && p(runs[i])
  }

  function Both(p: Run -> bool, q: Run -> bool): Run -> bool {
    (r: Run) => p(r) && q(r)
  }

  lemma PlacesSnoc(runs: seq<Run>, p: Run -> bool)
    requires runs != []
    ensures var n := |runs| - 1;
            Places(runs, p) == Places(runs[..n], p) + (if p(runs[n]) then {n} else {}) && n !in Places(runs[..n], p)
  {
  }

  lemma {:induction false} WhereCounts(runs: seq<Run>, p: Run -> bool)
    ensures |Where(runs, p)| == |Places(runs, p)|
    decreases |runs|
  {
    if runs == [] {
      assert Places(runs, p) == {};
    } else {
      WhereCounts(runs[..|runs| - 1], p);
      PlacesSnoc(runs, p);
      hide Places;
    }
  }

  lemma {:induction false} WhereBoth(runs: seq<Run>, p: Run -> bool, q: Run -> bool)
    ensures Where(Where(runs, p), q) == Where(runs, Both(p, q))
    decreases |runs|
  {
    if runs != [] {
      var before := Where(runs[..|runs| - 1], p);
      WhereBoth(runs[..|runs| - 1], p, q);
      assert (before + [runs[|runs| - 1]])[..|before|] == before;
    }
  }

  lemma {:induction false} WhereUnique(runs: seq<Run>, p: Run -> bool)
    ensures Unique(Where(runs, p)) <==>
            forall i, j :: i in Places(runs, p) && j in Places(runs, p) && i < j ==>
              KeyOfRun(runs[i]) != KeyOfRun(runs[j])
    decreases |runs|
  {
    if runs != [] {
      var n := |runs| - 1;
      var before := Where(runs[..n], p);
      WhereUnique(runs[..n], p);
      PlacesSnoc(runs, p);
      UniqueSnoc(before, runs[n]);
      WhereMeaning(runs[..n], p);
      hide Unique, Where;
      forall k
        ensures k in Keys(before) <==> exists i :: i in Places(runs[..n], p) && KeyOfRun(runs[i]) == k
      {
        KeysWhere(runs, p, k);
      }
    }
  }

  lemma KeysWhere(runs: seq<Run>, p: Run -> bool, k: Key)
    requires runs != []
    ensures var n := |runs| - 1;
            k in Keys(Where(runs[..n], p)) <==> exists i :: i in Places(runs[..n], p) && KeyOfRun(runs[i]) == k
  {
    var n := |runs| - 1;
    WhereMeaning(runs[..n], p);
    hide Where;
    if k in Keys(Where(runs[..n], p)) {
      var r :| r in Where(runs[..n], p) && KeyOfRun(r) == k;
      var i :| 0 <= i < n && runs[..n][i] == r;
      assert i in Places(runs[..n], p) && KeyOfRun(runs[i]) == k;
    }
    if i :| i in Places(runs[..n], p) && KeyOfRun(runs[i]) == k {
      assert runs[..n][i] in Where(runs[..n], p);
    }
  }

  lemma NoneWhere(runs: seq<Run>, p: Run -> bool)
    ensures |Where(runs, p)| == 0 <==> forall r :: r in runs ==> !p(r)
  {
    WhereMeaning(runs, p);
    if |Where(runs, p)| > 0 {
      assert Where(runs, p)[0] in Where(runs, p);
    }
  }

  /** What the gate counts are places in the record list. */
  lemma GateCounts(tasks: seq<Task>, reps: nat, runs: seq<Run>, category: nat)
    ensures var matrix, inside := Where(runs, InMatrix(tasks, reps)), Inside(tasks, reps, runs);
            && |matrix| == |inside| && |Where(matrix, Passed)| == |Successes(runs, inside)|
            && |Where(matrix, InCategory(category))| == |Filed(runs, inside, category)|
            && |Where(Where(matrix, InCategory(category)), Passed)| == |Successes(runs, Filed(runs, inside, category))|
  {
    var p, q := InMatrix(tasks, reps), InCategory(category);
    var inside := Inside(tasks, reps, runs);
    WhereCounts(runs, p);
    WhereBoth(runs, p, Passed);
    WhereCounts(runs, Both(p, Passed));
    WhereBoth(runs, p, q);
    WhereCounts(runs, Both(p, q));
    WhereBoth(runs, Both(p, q), Passed);
    WhereCounts(runs, Both(Both(p, q), Passed));
    hide Where;
    assert inside == Places(runs, p);
    assert Successes(runs, inside) == Places(runs, Both(p, Passed));
    assert Filed(runs, inside, category) == Places(runs, Both(p, q));
    assert Successes(runs, Filed(runs, inside, category)) == Places(runs, Both(Both(p, q), Passed));
  }

  lemma OneRecordEach(tasks: seq<Task>, reps: nat, runs: seq<Run>)
    requires DistinctTasks(tasks)
    requires CellKeys(Matrix(tasks, reps)) <= Keys(runs)
    ensures var matrix, inside := Where(runs, InMatrix(tasks, reps)), Inside(tasks, reps, runs);
            Unique(matrix) && Keys(matrix) == CellKeys(Matrix(tasks, reps)) <==>
              && (forall i <- inside :: 1 <= runs[i].repeat)
              && (forall i, j :: i in inside && j in inside && i < j ==> KeyOfRun(runs[i]) != KeyOfRun(runs[j]))
  {
    var cells := Matrix(tasks, reps);
    var matrix, inside := Where(runs, InMatrix(tasks, reps)), Inside(tasks, reps, runs);
    WhereUnique(runs, InMatrix(tasks, reps));
    WhereMeaning(runs, InMatrix(tasks, reps));
    MatrixIsDistinct(tasks, 1, reps);
    assert inside == Places(runs, InMatrix(tasks, reps));
    hide Where, Unique, Rows, DistinctTasks;
    forall k | k in CellKeys(cells)
      ensures k in Keys(matrix)
    {
      var c :| c in cells && KeyOf(c) == k;
      var r :| r in runs && KeyOfRun(r) == k;
      assert InMatrix(tasks, reps)(r) && r in matrix;
    }
    if Keys(matrix) == CellKeys(cells) {
      forall i | i in inside
        ensures 1 <= runs[i].repeat
      {
        assert runs[i] in matrix && KeyOfRun(runs[i]) in CellKeys(cells);
      }
    }
    if forall i <- inside :: 1 <= runs[i].repeat {
      forall k | k in Keys(matrix)
        ensures k in CellKeys(cells)
      {
        var r :| r in matrix && KeyOfRun(r) == k;
        var i :| 0 <= i < |runs| && runs[i] == r;
        assert i in inside;
        var t :| t in tasks && t.id == r.caseId;
        assert Cell(t, r.repeat) in cells;
      }
    }
  }

  lemma CategoriesByRecords(tasks: seq<Task>, reps: nat, runs: seq<Run>)
    ensures var matrix, inside := Where(runs, InMatrix(tasks, reps)), Inside(tasks, reps, runs);
            (forall t :: t in tasks ==> CategoryHolds(matrix, t.category)) <==>
            (forall t <- tasks ::
               var filed := Filed(runs, inside, t.category);
               |filed| > 0 && |Successes(runs, filed)| as real >= 0.80 * |filed| as real)
  {
    hide Where, Inside, Filed, Successes;
    forall t | t in tasks {
      GateCounts(tasks, reps, runs, t.category);
    }
  }

  lemma CleanByRecords(tasks: seq<Task>, reps: nat, runs: seq<Run>)
    ensures var matrix, inside := Where(runs, InMatrix(tasks, reps)), Inside(tasks, reps, runs);
            (forall r :: r in matrix ==>
               r.outcome.measured && r.outcome.violations == 0 && (r.outcome.completed ==> r.outcome.passed))
            <==> (forall i <- inside ::
                    && runs[i].outcome.measured && runs[i].outcome.violations == 0
                    && (runs[i].outcome.completed ==> runs[i].outcome.passed))
  {
    var matrix, inside := Where(runs, InMatrix(tasks, reps)), Inside(tasks, reps, runs);
    WhereMeaning(runs, InMatrix(tasks, reps));
    hide Where;
    assert forall i <- inside :: runs[i] in matrix;
    forall r | r in matrix
      ensures exists i :: i in inside && runs[i] == r
    {
      var i :| 0 <= i < |runs| && runs[i] == r;
      assert i in inside;
    }
  }

  /**
    The gate in terms of the saved records themselves. Once every cell has a record, it passes
    if and only if no two records inside the matrix are of one cell, none has a repeat below
    one, nine in ten of all cells and four in five of each category's records passed, and
    every record is measured, free of violations and completed only when it passed.
  */
  lemma GateByRecords(tasks: seq<Task>, reps: nat, runs: seq<Run>)
    requires DistinctTasks(tasks) && tasks != [] && reps > 0
    requires CellKeys(Matrix(tasks, reps)) <= Keys(runs)
    ensures var inside := Inside(tasks, reps, runs);
            GatePassed(tasks, reps, runs, Complete) <==>
              && (forall i <- inside :: 1 <= runs[i].repeat)
              && (forall i, j :: i in inside && j in inside && i < j ==> KeyOfRun(runs[i]) != KeyOfRun(runs[j]))
              && |Successes(runs, inside)| as real >= 0.90 * (|tasks| * reps) as real
              && (forall t <- tasks ::
                    var filed := Filed(runs, inside, t.category);
                    |filed| > 0 && |Successes(runs, filed)| as real >= 0.80 * |filed| as real)
              && (forall i <- inside ::
                    && runs[i].outcome.measured && runs[i].outcome.violations == 0
                    && (runs[i].outcome.completed ==> runs[i].outcome.passed))
  {
    GateMeansFullMatrix(tasks, reps, runs);
    OneRecordEach(tasks, reps, runs);
    CategoriesByRecords(tasks, reps, runs);
    CleanByRecords(tasks, reps, runs);
    GateCounts(tasks, reps, runs, 0);
    hide *;
  }

  lemma RateAtLeast(part: nat, whole: nat, bound: real)
    requires bound > 0.0
    ensures Rate(part, whole) >= bound <==> whole > 0 && part as real >= bound * whole as real
  {
    if whole > 0 {
      var q := part as real / whole as real;
      assert part as real == q * whole as real;
      if q >= bound {
        assert (q - bound) * whole as real >= 0.0;
      } else {
        assert (bound - q) * whole as real > 0.0;
      }
    }
  }

  /** The records inside the matrix number as many as its cells exactly when they are one for each. */
  lemma MatrixRunsAreFull(tasks: seq<Task>, reps: nat, runs: seq<Run>)
    requires DistinctTasks(tasks) && reps > 0
    requires CellKeys(Matrix(tasks, reps)) <= Keys(runs)
    ensures var matrix := Where(runs, InMatrix(tasks, reps));
            |matrix| == |tasks| * reps <==> Unique(matrix) && Keys(matrix) == CellKeys(Matrix(tasks, reps))
  {
    var cells := Matrix(tasks, reps);
    var matrix := Where(runs, InMatrix(tasks, reps));
    MatrixIsDistinct(tasks, 1, reps);
    MatrixSize(tasks, 1, reps);
    CellKeysSize(cells);
    KeysSize(matrix);
    WhereMeaning(runs, InMatrix(tasks, reps));
    forall k | k in CellKeys(cells)
      ensures k in Keys(matrix)
    {
      var c :| c in cells && KeyOf(c) == k;
      var r :| r in runs && KeyOfRun(r) == k;
      assert InMatrix(tasks, reps)(r);
      assert r in matrix;
    }
    if |matrix| == |cells| {
      SubsetOfSameSize(CellKeys(cells), Keys(matrix));
    }
    assert reps * |tasks| == |tasks| * reps;
  }

  /** One more session is one more link of the chain. */
  lemma SessionIsALink(tasks: seq<Task>, reps: nat, world: World, stops: seq<nat>, limits: Limits,
                       clock: nat -> real, n: nat, runs: seq<Run>)
    requires var evidence := Evidence(tasks, reps, world, stops);
             Progress(Todo(Matrix(tasks, reps), Keys(evidence)), evidence, limits, world, clock, n, runs)
    ensures runs == Evidence(tasks, reps, world, stops + [n])
  {
    assert (stops + [n])[..|stops|] == stops;
  }

  // ---------------------------------------------------------------- what a chain may spend

  /** The tokens really spent on the recorded attempts. */
  function Spent(runs: seq<Run>): nat {
    if runs == [] then 0 else Spent(runs[..|runs| - 1]) + runs[|runs| - 1].outcome.spent
  }

  /** The tokens spent on recorded attempts that their records do not show. */
  function Unrecorded(runs: seq<Run>): nat {
    if runs == [] then 0
    else
      var o := runs[|runs| - 1].outcome;
      Unrecorded(runs[..|runs| - 1]) + if o.spent > o.billed then o.spent - o.billed else 0
  }

  /**
    One link of a chain: what it may spend, after how many attempts it stopped, and the
    tokens spent on an attempt it was killed in, which leaves no record.
  */
  datatype Link = Link(limits: Limits, clock: nat -> real, stop: nat, killed: Option<nat>)

  function Stops(links: seq<Link>): seq<nat> {
    if links == [] then [] else Stops(links[..|links| - 1]) + [links[|links| - 1].stop]
  }

  /** The tokens spent on attempts that were killed. */
  function Killings(links: seq<Link>): nat {
    if links == [] then 0
    else
      var last := links[|links| - 1];
      Killings(links[..|links| - 1]) + if last.killed.Some? then last.killed.value else 0
  }

  /** Every attempt of every session was admitted, and no later session has a smaller spend ceiling. */
  ghost predicate AdmittedChain(tasks: seq<Task>, reps: nat, world: World, links: seq<Link>)
    decreases |links|
  {
    links != [] ==>
      var n := |links| - 1;
      var before := Evidence(tasks, reps, world, Stops(links[..n]));
      && AdmittedChain(tasks, reps, world, links[..n])
      && 0.0 <= links[n].limits.rupees && (n > 0 ==> links[n - 1].limits.rupees <= links[n].limits.rupees)
      && AdmittedLink(Todo(Matrix(tasks, reps), Keys(before)), before, world, links[n],
                      Evidence(tasks, reps, world, Stops(links)))
  }

  ghost predicate AdmittedLink(todo: seq<Cell>, before: seq<Run>, world: World, l: Link, runs: seq<Run>) {
    && Progress(todo, before, l.limits, world, l.clock, l.stop, runs)
    && (l.killed.Some? ==> l.stop < |todo| && Affordable(l.limits, runs) && l.clock(l.stop) < l.limits.seconds)
  }

  lemma BilledSnoc(runs: seq<Run>, r: Run)
    ensures Billed(runs + [r]) == Billed(runs) + r.outcome.billed
  {
    assert (runs + [r])[..|runs|] == runs;
  }

  lemma SpentSnoc(runs: seq<Run>, r: Run)
    ensures Spent(runs + [r]) == Spent(runs) + r.outcome.spent
  {
    assert (runs + [r])[..|runs|] == runs;
  }

  /** What was spent is recorded or not. */
  lemma {:induction false} SpentIsBilledOrNot(runs: seq<Run>)
    ensures Spent(runs) <= Billed(runs) + Unrecorded(runs)
    ensures (forall r <- runs :: r.outcome.billed <= r.outcome.spent) ==> Spent(runs) == Billed(runs) + Unrecorded(runs)
    decreases |runs|
  {
    if runs != [] {
      var n := |runs| - 1;
      SpentIsBilledOrNot(runs[..n]);
      assert runs[n] in runs && forall r <- runs[..n] :: r in runs;
    }
  }

  /** One session never records more spending than its ceiling if no attempt records more than it was admitted for. */
  lemma SessionSpendsWithin(todo: seq<Cell>, evidence: seq<Run>, limits: Limits, world: World,
                            clock: nat -> real, n: nat, runs: seq<Run>)
    requires Progress(todo, evidence, limits, world, clock, n, runs)
    requires Price(Billed(evidence)) <= limits.rupees
    requires forall t, r :: world(t, r).billed <= limits.tokensPerAttempt
    ensures Price(Billed(runs)) <= limits.rupees
    ensures Price(Spent(runs)) <= limits.rupees + Price(Unrecorded(runs))
  {
    hide Billed, Spent, Unrecorded, Price;
    SpentIsBilledOrNot(runs);
    PriceGrows(Spent(runs), Billed(runs) + Unrecorded(runs));
    PriceGrows(Billed(runs), Unrecorded(runs));
    if n == 0 {
      assert runs == evidence;
    } else {
      var before := evidence + Records(world, todo[..n - 1]);
      var last := Record(world, todo[n - 1]);
      LastAttempt(todo, evidence, limits, world, clock, n, runs);
      hide Progress;
      BilledSnoc(before, last);
      PriceGrows(Billed(before), last.outcome.billed);
      PriceGrows(last.outcome.billed, limits.tokensPerAttempt);
      AdmittedAt(todo, evidence, limits, world, clock, n, runs);
    }
  }

  lemma LastAttempt(todo: seq<Cell>, evidence: seq<Run>, limits: Limits, world: World, clock: nat -> real,
                    n: nat, runs: seq<Run>)
    requires n > 0 && Progress(todo, evidence, limits, world, clock, n, runs)
    ensures runs == evidence + Records(world, todo[..n - 1]) + [Record(world, todo[n - 1])]
  {
    hide Affordable;
    assert Records(world, todo[..n]) == Records(world, todo[..n - 1]) + [Record(world, todo[n - 1])];
  }

  lemma AdmittedAt(todo: seq<Cell>, evidence: seq<Run>, limits: Limits, world: World, clock: nat -> real,
                   n: nat, runs: seq<Run>)
    requires n > 0 && Progress(todo, evidence, limits, world, clock, n, runs)
    ensures Price(Billed(evidence + Records(world, todo[..n - 1]))) + Price(limits.tokensPerAttempt) <= limits.rupees
  {
    hide Billed, Price;
    assert Affordable(limits, evidence + Records(world, todo[..n - 1]));
  }

  /** What a chain really spent. */
  function TrueSpend(runs: seq<Run>, links: seq<Link>): nat {
    Spent(runs) + Killings(links)
  }

  /** What of it no record shows. */
  function Lost(runs: seq<Run>, links: seq<Link>): nat {
    Unrecorded(runs) + Killings(links)
  }

  /**
    What the admission check is for: wherever a chain of sessions stops, what its records
    say was billed is within the last spend ceiling, if no record says more than the attempt
    was admitted for. What was really spent is within the ceiling and the bills of attempts
    that raised or were killed, so within the ceiling when none is lost.
  */
  lemma ChainSpendsWithin(tasks: seq<Task>, reps: nat, world: World, links: seq<Link>)
    requires links != [] && AdmittedChain(tasks, reps, world, links)
    requires forall l <- links, t, r :: world(t, r).billed <= l.limits.tokensPerAttempt
    ensures var runs := Evidence(tasks, reps, world, Stops(links));
            var rupees := links[|links| - 1].limits.rupees;
            && Price(Billed(runs)) == Billed(runs) as real * 396.0 / 1000000.0 <= rupees
            && Price(TrueSpend(runs, links)) <= rupees + Price(Lost(runs, links))
            && (Lost(runs, links) == 0 ==> Price(TrueSpend(runs, links)) <= rupees)
  {
    var runs := Evidence(tasks, reps, world, Stops(links));
    ChainRecordsWithin(tasks, reps, world, links);
    SpentIsBilledOrNot(runs);
    hide Evidence, Stops, Spent, Billed, Unrecorded, Killings;
    PriceGrows(TrueSpend(runs, links), Billed(runs) + Lost(runs, links));
  }

  lemma PriceGrows(a: nat, b: nat)
    ensures a <= b ==> Price(a) <= Price(b)
    ensures Price(a + b) == Price(a) + Price(b)
  {
  }

  lemma {:induction false} ChainRecordsWithin(tasks: seq<Task>, reps: nat, world: World, links: seq<Link>)
    requires links != [] && AdmittedChain(tasks, reps, world, links)
    requires forall l <- links, t, r :: world(t, r).billed <= l.limits.tokensPerAttempt
    ensures Price(Billed(Evidence(tasks, reps, world, Stops(links)))) <= links[|links| - 1].limits.rupees
    decreases |links|
  {
    var n := |links| - 1;
    var before := Evidence(tasks, reps, world, Stops(links[..n]));
    if n > 0 {
      ChainRecordsWithin(tasks, reps, world, links[..n]);
    } else {
      assert links[..0] == [] && before == [];
    }
    assert links[n] in links;
    hide Progress, Evidence, Stops;
    assert Price(Billed([])) == 0.0;
    SessionSpendsWithin(Todo(Matrix(tasks, reps), Keys(before)), before, links[n].limits, world, links[n].clock,
                        links[n].stop, Evidence(tasks, reps, world, Stops(links)));
  }

  /** Every attempt raises after spending a whole allowance, and no record shows it. */
  function Raising(allowance: nat): World {
    (t: Task, r: int) => Outcome(false, false, 0, false, 0, allowance)
  }

  lemma {:induction false} RaisingBillsNothing(allowance: nat, cells: seq<Cell>)
    ensures Billed(Records(Raising(allowance), cells)) == 0
    decreases |cells|
  {
    if cells != [] {
      var n := |cells| - 1;
      var before, last := Records(Raising(allowance), cells[..n]), Record(Raising(allowance), cells[n]);
      RaisingBillsNothing(allowance, cells[..n]);
      assert Records(Raising(allowance), cells) == before + [last];
      BilledSnoc(before, last);
    }
  }

  lemma {:induction false} RaisingSpends(allowance: nat, cells: seq<Cell>)
    ensures Spent(Records(Raising(allowance), cells)) == Times(|cells|, allowance)
    decreases |cells|
  {
    if cells != [] {
      var n := |cells| - 1;
      var before, last := Records(Raising(allowance), cells[..n]), Record(Raising(allowance), cells[n]);
      RaisingSpends(allowance, cells[..n]);
      assert Records(Raising(allowance), cells) == before + [last];
      SpentSnoc(before, last);
      OneMore(|cells|, allowance);
      hide Times, Spent;
    }
  }

  function Times(n: nat, allowance: nat): nat {
    n * allowance
  }

  lemma OneMore(n: nat, allowance: nat)
    requires n > 0
    ensures Times(n, allowance) == Times(n - 1, allowance) + allowance
  {
  }

  lemma FirstIsAffordable(allowance: nat, runs: seq<Run>)
    requires Billed(runs) == 0
    ensures Affordable(Limits(Price(allowance), 1.0, allowance), runs)
  {
  }

  /** Under a ceiling of one allowance a session then goes through the whole matrix and spends one for each cell. */
  lemma RaisedAttemptsEscape(tasks: seq<Task>, reps: nat, allowance: nat)
    ensures var limits := Limits(Price(allowance), 1.0, allowance);
            var todo := Todo(Matrix(tasks, reps), {});
            var runs := Records(Raising(allowance), todo);
            && Progress(todo, [], limits, Raising(allowance), n => 0.0, |todo|, runs)
            && Spent(runs) == Times(|todo|, allowance)
  {
    var limits := Limits(Price(allowance), 1.0, allowance);
    var todo := Todo(Matrix(tasks, reps), {});
    var world := Raising(allowance);
    hide Todo, Matrix, Raising, Affordable, Price, Billed, Spent, Times;
    RaisingSpends(allowance, todo);
    assert todo[..|todo|] == todo && [] + Records(world, todo) == Records(world, todo);
    forall k | 0 <= k < |todo|
      ensures Affordable(limits, [] + Records(world, todo[..k]))
    {
      RaisingBillsNothing(allowance, todo[..k]);
      assert [] + Records(world, todo[..k]) == Records(world, todo[..k]);
      FirstIsAffordable(allowance, Records(world, todo[..k]));
    }
  }

  /** A session killed in its first attempt, after that spent its whole allowance. */
  function KilledAtOnce(allowance: nat): Link {
    Link(Limits(Price(allowance), 1.0, allowance), n => 0.0, 0, Some(allowance))
  }

  function KilledOften(allowance: nat, times: nat): seq<Link> {
    seq(times, i => KilledAtOnce(allowance))
  }

  /** Killed and resumed any number of times, a chain spends that many allowances under a ceiling of one. */
  lemma {:induction false} KilledAttemptsEscape(tasks: seq<Task>, reps: nat, world: World, allowance: nat, times: nat)
    requires tasks != [] && reps > 0
    ensures var links := KilledOften(allowance, times);
            && AdmittedChain(tasks, reps, world, links)
            && Evidence(tasks, reps, world, Stops(links)) == []
            && TrueSpend([], links) == Times(times, allowance)
    decreases times
  {
    var links := KilledOften(allowance, times);
    assert Times(0, allowance) == 0;
    if times > 0 {
      var n := times - 1;
      var before := links[..n];
      KilledAttemptsEscape(tasks, reps, world, allowance, n);
      assert before == KilledOften(allowance, n);
      hide AdmittedLink, Evidence, KilledAtOnce, Price, Times;
      LastStop(links);
      NothingMoreRecorded(tasks, reps, world, Stops(before));
      KilledLink(tasks, reps, world, allowance);
      KilledCosts(allowance);
      OneMore(times, allowance);
    }
  }

  lemma KilledCosts(allowance: nat)
    ensures var l := KilledAtOnce(allowance);
            l.stop == 0 && l.killed == Some(allowance) && l.limits.rupees == Price(allowance) >= 0.0
  {
  }

  lemma LastStop(links: seq<Link>)
    requires links != [] && links[|links| - 1].stop == 0
    ensures Stops(links) == Stops(links[..|links| - 1]) + [0]
  {
  }

  lemma KilledLink(tasks: seq<Task>, reps: nat, world: World, allowance: nat)
    requires tasks != [] && reps > 0
    ensures AdmittedLink(Todo(Matrix(tasks, reps), Keys([])), [], world, KilledAtOnce(allowance), [])
  {
    SomethingTodo(tasks, reps);
    hide Todo, Matrix;
    assert Billed([]) == 0 && [] + Records(world, []) == [];
  }

  lemma NothingMoreRecorded(tasks: seq<Task>, reps: nat, world: World, stops: seq<nat>)
    requires Evidence(tasks, reps, world, stops) == []
    ensures Evidence(tasks, reps, world, stops + [0]) == []
  {
    assert (stops + [0])[..|stops|] == stops;
  }

  lemma SomethingTodo(tasks: seq<Task>, reps: nat)
    requires tasks != [] && reps > 0
    ensures Todo(Matrix(tasks, reps), Keys([])) != []
  {
    var first := Rows(tasks, 1, reps)[0];
    assert Rows(tasks, 1, reps) == Row(tasks, 1) + Rows(tasks, 2, reps);
  }
}
