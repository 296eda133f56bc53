/**
  The totals and the pass decision of the provider acceptance
  (scripts/run_w5_provider_acceptance.py: compute_category_totals).

  Cases and categories are numbered; a task or run without a category has been given the
  number of "unknown". Rates are exact reals, rounded to four digits with ties to even.
*/
module ProviderGate {
  import opened Basics

  datatype Task = Task(id: nat, category: nat)

  datatype Run = Run(caseId: nat, repeat: int, category: nat, passed: bool, violation: bool,
                     completed: bool, validated: bool)

  datatype Stats = Stats(attempted: nat, passed: nat, failed: nat, expected: nat, rate: real, threshold: bool)

  datatype Summary = Summary(gatePassed: bool, expected: nat, attempted: nat, passed: nat, failed: int,
                             rate: real, overall: bool, categories: map<nat, Stats>,
                             violations: nat, falseCompletions: nat)

  type Key = (nat, int)

  function KeyOf(r: Run): Key {
    (r.caseId, r.repeat)
  }

  // ---------------------------------------------------------------- counting

  function Count(runs: seq<Run>, p: Run -> bool): nat {
    if runs == [] then 0
    else Count(runs[..|runs| - 1], p) + (if p(runs[|runs| - 1]) then 1 else 0)
  }

  function Tasks(tasks: seq<Task>, p: nat -> bool): nat {
    if tasks == [] then 0
    else Tasks(tasks[..|tasks| - 1], p) + (if p(tasks[|tasks| - 1].category) then 1 else 0)
  }

  function Is(c: nat): nat -> bool {
    (d: nat) => d == c
  }

  function Among(cs: set<nat>): nat -> bool {
    (d: nat) => d in cs
  }

  function Attempt(p: nat -> bool): Run -> bool {
    (r: Run) => p(r.category)
  }

  function Pass(p: nat -> bool): Run -> bool {
    (r: Run) => p(r.category) && r.passed
  }

  function Failure(p: nat -> bool): Run -> bool {
    (r: Run) => p(r.category) && !r.passed
  }

  predicate Passed(r: Run) {
    r.passed
  }

  predicate Violated(r: Run) {
    r.violation
  }

  predicate FalselyCompleted(r: Run) {
    r.completed && !r.validated
  }

  predicate Unique(runs: seq<Run>) {
    forall i, j :: 0 <= i < j < |runs| ==> KeyOf(runs[i]) != KeyOf(runs[j])
  }

  /** Two attempts of one case in one repeat. */
  predicate Repeated(runs: seq<Run>, i: nat, j: nat, key: Key)
    requires i < |runs| && j < |runs|
  {
    runs[i].caseId == runs[j].caseId == key.0 && runs[i].repeat == runs[j].repeat == key.1
  }

  // ---------------------------------------------------------------- rounding

  /** round(x, 4): the nearest multiple of 0.0001, the even one of two. */
  function Round4(x: real): real {
    var whole := (x * 10000.0).Floor;
    var over := x * 10000.0 - whole as real;
    var up := over > 0.5 || (over == 0.5 && whole % 2 != 0);
    (if up then whole + 1 else whole) as real / 10000.0
  }

  /** n is a nearest whole number to x, the even one of two. */
  predicate NearestEven(n: int, x: real) {
    n as real - 0.5 <= x <= n as real + 0.5 && (x == n as real - 0.5 || x == n as real + 0.5 ==> n % 2 == 0)
  }

  /** The result is in whole ten-thousandths, the nearest to x. */
  lemma RoundingMeaning(x: real) returns (n: int)
    ensures NearestEven(n, x * 10000.0) && Round4(x) == n as real / 10000.0
  {
    var whole := (x * 10000.0).Floor;
    var over := x * 10000.0 - whole as real;
    n := if over > 0.5 || (over == 0.5 && whole % 2 != 0) then whole + 1 else whole;
  }

  /** A rounded rate reaches nine tenths, or four fifths, half a unit of the last digit early. */
  lemma RoundingReach(x: real)
    ensures Round4(x) >= 0.90 <==> x >= 0.89995
    ensures Round4(x) >= 0.80 <==> x >= 0.79995
  {
    var whole := (x * 10000.0).Floor;
    assert Round4(x) >= 0.90 <==> Round4(x) * 10000.0 >= 9000.0;
    assert Round4(x) >= 0.80 <==> Round4(x) * 10000.0 >= 8000.0;
  }

  function Rate(part: nat, whole: nat): real
    requires whole > 0
  {
    Round4(part as real / whole as real)
  }

  lemma RateReach(part: nat, whole: nat)
    requires whole > 0
    ensures Rate(part, whole) >= 0.90 <==> part as real >= 0.89995 * whole as real
    ensures Rate(part, whole) >= 0.80 <==> part as real >= 0.79995 * whole as real
  {
    var p, w := part as real, whole as real;
    var q := p / w;
    RoundingReach(q);
    assert Rate(part, whole) == Round4(q);
    hide Round4, Rate;
    Crossing(p, w, 0.89995);
    Crossing(p, w, 0.79995);
  }

  lemma Crossing(p: real, w: real, bound: real)
    requires w > 0.0
    ensures p / w >= bound <==> p >= bound * w
  {
    var q := p / w;
    assert q * w == p;
    if q >= bound {
      assert (q - bound) * w >= 0.0;
    } else {
      assert (bound - q) * w > 0.0;
    }
  }

  // ---------------------------------------------------------------- the totals

  /** The attempts expected of some number of tasks. */
  function Expected(reps: nat, tasks: nat): nat {
    reps * tasks
  }

  lemma ExpectedAdds(reps: nat, a: nat, b: nat)
    ensures Expected(reps, a + b) == Expected(reps, a) + Expected(reps, b)
    ensures Expected(reps, 0) == 0 && Expected(reps, 1) == reps
  {
  }

  /** A category's row of the summary, in terms of the whole run list. */
  function Row(tasks: seq<Task>, reps: nat, runs: seq<Run>, c: nat): Stats {
    var expected := Expected(reps, Tasks(tasks, Is(c)));
    var attempted, passed := Count(runs, Attempt(Is(c))), Count(runs, Pass(Is(c)));
    var rate := if expected > 0 then Rate(passed, expected) else 0.0;
    Stats(attempted, passed, Count(runs, Failure(Is(c))), expected, rate,
          expected > 0 && rate >= 0.80 && attempted == expected)
  }

  function Categories(tasks: seq<Task>): set<nat> {
    set t | t in tasks :: t.category
  }

  lemma OneMoreRun(runs: seq<Run>, i: nat, p: Run -> bool)
    requires i < |runs|
    ensures Count(runs[..i + 1], p) == Count(runs[..i], p) + (if p(runs[i]) then 1 else 0)
  {
    assert runs[..i + 1][..i] == runs[..i];
  }

  function Tally(runs: seq<Run>, expected: nat, c: nat): Stats {
    Stats(Count(runs, Attempt(Is(c))), Count(runs, Pass(Is(c))), Count(runs, Failure(Is(c))), expected, 0.0, false)
  }

  function Bumped(s: Stats, passed: bool): Stats {
    if passed then s.(attempted := s.attempted + 1, passed := s.passed + 1)
    else s.(attempted := s.attempted + 1, failed := s.failed + 1)
  }

  lemma TallyStep(runs: seq<Run>, i: nat, expected: nat, c: nat)
    requires i < |runs|
    ensures Tally(runs[..i + 1], expected, c)
         == if runs[i].category != c then Tally(runs[..i], expected, c)
            else Bumped(Tally(runs[..i], expected, c), runs[i].passed)
  {
    OneMoreRun(runs, i, Attempt(Is(c)));
    OneMoreRun(runs, i, Pass(Is(c)));
    OneMoreRun(runs, i, Failure(Is(c)));
  }

  lemma TasksStep(tasks: seq<Task>, i: nat, c: nat)
    requires i < |tasks|
    ensures Tasks(tasks[..i + 1], Is(c)) == Tasks(tasks[..i], Is(c)) + (if tasks[i].category == c then 1 else 0)
    ensures Categories(tasks[..i + 1]) == Categories(tasks[..i]) + {tasks[i].category}
  {
    assert tasks[..i + 1][..i] == tasks[..i];
    assert tasks[..i + 1] == tasks[..i] + [tasks[i]];
  }

  method ExpectedCounts(tasks: seq<Task>, reps: nat) returns (expected: map<nat, nat>)
    ensures expected.Keys == Categories(tasks)
    ensures forall c :: c in expected ==> expected[c] == Expected(reps, Tasks(tasks, Is(c)))
  {
    expected := map[];
    for i := 0 to |tasks|
      invariant expected.Keys == Categories(tasks[..i])
      invariant forall c :: (if c in expected then expected[c] else 0) == Expected(reps, Tasks(tasks[..i], Is(c)))
    {
      hide Expected, Tasks, Categories, Is;
      var cat := tasks[i].category;
      forall c
        ensures Expected(reps, Tasks(tasks[..i + 1], Is(c)))
             == Expected(reps, Tasks(tasks[..i], Is(c))) + (if c == cat then reps else 0)
      {
        TasksStep(tasks, i, c);
        ExpectedAdds(reps, Tasks(tasks[..i], Is(c)), 1);
      }
      TasksStep(tasks, i, cat);
      expected := expected[cat := (if cat in expected then expected[cat] else 0) + reps];
    }
    assert tasks[..|tasks|] == tasks;
  }

  function Seen(runs: seq<Run>): set<Key> {
    set r | r in runs :: KeyOf(r)
  }

  lemma UniqueStep(runs: seq<Run>, i: nat)
    requires i < |runs|
    ensures Seen(runs[..i + 1]) == Seen(runs[..i]) + {KeyOf(runs[i])}
    ensures Unique(runs[..i + 1]) <==> Unique(runs[..i]) && KeyOf(runs[i]) !in Seen(runs[..i])
    ensures Unique(runs) ==> Unique(runs[..i + 1])
  {
    var before := runs[..i];
    assert runs[..i + 1] == before + [runs[i]];
    assert forall r :: r in before ==> exists j :: 0 <= j < i && runs[j] == r;
    assert forall j :: 0 <= j < i ==> runs[j] in before;
  }

  lemma SeenBefore(runs: seq<Run>, i: nat)
    requires i < |runs| && KeyOf(runs[i]) in Seen(runs[..i])
    ensures exists j :: 0 <= j < i && Repeated(runs, j, i, KeyOf(runs[i]))
  {
    var r :| r in runs[..i] && KeyOf(r) == KeyOf(runs[i]);
    var j :| 0 <= j < i && runs[j] == r;
    assert Repeated(runs, j, i, KeyOf(runs[i]));
  }

  lemma NothingCounted(runs: seq<Run>)
    requires runs == []
    ensures forall expected, c :: Tally(runs, expected, c) == Stats(0, 0, 0, expected, 0.0, false)
    ensures forall p: Run -> bool :: Count(runs, p) == 0
    ensures Seen(runs) == {} && Unique(runs)
  {
  }

  /** The loop over the run list: raises on a repeated attempt, otherwise counts every category. */
  method TallyRuns(expected: map<nat, nat>, runs: seq<Run>)
      returns (categories: Result<map<nat, Stats>, Key>, violations: nat, falseCompletions: nat, passed: nat)
    ensures categories.Returned? <==> Unique(runs)
    ensures categories.Raised? ==> exists i, j :: 0 <= i < j < |runs| && Repeated(runs, i, j, categories.error)
    ensures categories.Returned? ==>
      && categories.value.Keys == expected.Keys
      && (forall c :: c in expected ==> categories.value[c] == Tally(runs, expected[c], c))
      && violations == Count(runs, Violated) && falseCompletions == Count(runs, FalselyCompleted)
      && passed == Count(runs, Passed)
  {
    hide Tally, Count, Unique, Seen, KeyOf;
    NothingCounted(runs[..0]);
    var rows := map c | c in expected :: Stats(0, 0, 0, expected[c], 0.0, false);
    violations, falseCompletions, passed := 0, 0, 0;
    var seen: set<Key> := {};
    for i := 0 to |runs|
      invariant rows.Keys == expected.Keys
      invariant forall c :: c in expected ==> rows[c] == Tally(runs[..i], expected[c], c)
      invariant violations == Count(runs[..i], Violated)
      invariant falseCompletions == Count(runs[..i], FalselyCompleted) && passed == Count(runs[..i], Passed)
      invariant seen == Seen(runs[..i]) && Unique(runs[..i])
    {
      var r := runs[i];
      UniqueStep(runs, i);
      if KeyOf(r) in seen {
        SeenBefore(runs, i);
        return Raised(KeyOf(r)), violations, falseCompletions, passed;
      }
      seen := seen + {KeyOf(r)};
      forall c | c in expected {
        TallyStep(runs, i, expected[c], c);
      }
      OneMoreRun(runs, i, Violated);
      OneMoreRun(runs, i, FalselyCompleted);
      OneMoreRun(runs, i, Passed);
      var cat := r.category;
      if cat in rows {
        ghost var row := rows[cat];
        rows := rows[cat := rows[cat].(attempted := rows[cat].attempted + 1)];
        if r.passed {
          rows := rows[cat := rows[cat].(passed := rows[cat].passed + 1)];
        } else {
          rows := rows[cat := rows[cat].(failed := rows[cat].failed + 1)];
        }
        assert rows[cat] == Bumped(row, r.passed);
      }
      if r.violation {
        violations := violations + 1;
      }
      if r.completed && !r.validated {
        falseCompletions := falseCompletions + 1;
      }
      if r.passed {
        passed := passed + 1;
      }
    }
    assert runs[..|runs|] == runs;
    return Returned(rows), violations, falseCompletions, passed;
  }

  /** The categories of the summary, each in terms of the whole run list. */
  function Rows(tasks: seq<Task>, reps: nat, runs: seq<Run>): map<nat, Stats> {
    map c | c in Categories(tasks) :: Row(tasks, reps, runs, c)
  }

  function GradeAll(categories: map<nat, Stats>): map<nat, Stats> {
    map c | c in categories :: Graded(categories[c])
  }

  predicate AllReached(categories: map<nat, Stats>) {
    |categories| > 0 && forall c :: c in categories ==> categories[c].threshold
  }

  lemma GradedTally(tasks: seq<Task>, reps: nat, runs: seq<Run>, tallied: map<nat, Stats>)
    requires tallied.Keys == Categories(tasks)
    requires forall c :: c in tallied ==> tallied[c] == Tally(runs, Expected(reps, Tasks(tasks, Is(c))), c)
    ensures GradeAll(tallied) == Rows(tasks, reps, runs)
  {
    hide Tally, Graded, Row;
    forall c | c in Categories(tasks) {
      RowIsGraded(tasks, reps, runs, c);
    }
  }

  method ComputeCategoryTotals(tasks: seq<Task>, reps: nat, runs: seq<Run>, complete: bool)
      returns (summary: Result<Summary, Key>)
    ensures summary.Returned? <==> Unique(runs)
    ensures summary.Returned? ==>
      var s := summary.value;
      && s.expected == Expected(reps, |tasks|) && s.attempted == |runs|
      && s.passed == Count(runs, Passed) && s.failed == |runs| - s.passed
      && s.rate == (if s.expected > 0 then Rate(s.passed, s.expected) else 0.0)
      && s.overall == (s.rate >= 0.90 && |runs| == s.expected)
      && s.categories == Rows(tasks, reps, runs)
      && s.violations == Count(runs, Violated) && s.falseCompletions == Count(runs, FalselyCompleted)
    ensures summary.Returned? ==> summary.value.gatePassed == GatePassed(tasks, reps, runs, complete)
  {
    hide Tasks, Count, Rate, Expected, Unique, Tally, GradeAll, Rows, Categories, AllReached;
    var expected := ExpectedCounts(tasks, reps);
    var totalExpected := Expected(reps, |tasks|);
    var tallied, violations, falseCompletions, passed := TallyRuns(expected, runs);
    if tallied.Raised? {
      return Raised(tallied.error);
    }
    var categories := GradeAll(tallied.value);
    var rate := if totalExpected > 0 then Rate(passed, totalExpected) else 0.0;
    var overall := rate >= 0.90 && |runs| == totalExpected;
    var all := AllReached(categories);
    GradedTally(tasks, reps, runs, tallied.value);
    if totalExpected > 0 {
      SomeCategory(tasks, reps, runs);
    }
    var gatePassed := |runs| == totalExpected && totalExpected > 0 && overall && all
                      && violations == 0 && falseCompletions == 0 && complete;
    return Returned(Summary.Summary(gatePassed, totalExpected, |runs|, passed, |runs| - passed, rate, overall,
                                    categories, violations, falseCompletions));
  }

  lemma RowIsGraded(tasks: seq<Task>, reps: nat, runs: seq<Run>, c: nat)
    ensures Row(tasks, reps, runs, c) == Graded(Tally(runs, Expected(reps, Tasks(tasks, Is(c))), c))
  {
  }

  lemma SomeCategory(tasks: seq<Task>, reps: nat, runs: seq<Run>)
    requires Expected(reps, |tasks|) > 0
    ensures AllReached(Rows(tasks, reps, runs))
            <==> forall c :: c in Categories(tasks) ==> Row(tasks, reps, runs, c).threshold
  {
    hide Row;
    var rows := Rows(tasks, reps, runs);
    assert tasks != [];
    assert tasks[0].category in rows;
    assert |rows| > 0;
    forall c | c in Categories(tasks)
      ensures c in rows && rows[c] == Row(tasks, reps, runs, c)
    {
    }
  }

  /** A category's counts with its rate and threshold filled in. */
  function Graded(s: Stats): Stats {
    if s.expected > 0 then
      var rate := Rate(s.passed, s.expected);
      s.(rate := rate, threshold := rate >= 0.80 && s.attempted == s.expected)
    else s
  }

  /** The decision as the code combines it. */
  predicate GatePassed(tasks: seq<Task>, reps: nat, runs: seq<Run>, complete: bool) {
    && complete && |runs| == Expected(reps, |tasks|) > 0
    && Rate(Count(runs, Passed), Expected(reps, |tasks|)) >= 0.90
    && (forall c :: c in Categories(tasks) ==> Row(tasks, reps, runs, c).threshold)
    && Count(runs, Violated) == 0 && Count(runs, FalselyCompleted) == 0
  }

  // ---------------------------------------------------------------- what the gate means

  lemma Members(runs: seq<Run>, n: nat)
    requires n == |runs| - 1
    ensures forall r :: r in runs <==> r in runs[..n] || r == runs[n]
  {
    assert runs == runs[..n] + [runs[n]];
  }

  lemma {:induction false} CountNone(runs: seq<Run>, p: Run -> bool)
    ensures Count(runs, p) <= |runs|
    ensures Count(runs, p) == 0 <==> forall r :: r in runs ==> !p(r)
    ensures Count(runs, p) == |runs| <==> forall r :: r in runs ==> p(r)
    decreases |runs|
  {
    if runs != [] {
      var n := |runs| - 1;
      CountNone(runs[..n], p);
      Members(runs, n);
    }
  }

  lemma {:induction false} CountAdds(runs: seq<Run>, cs: set<nat>, c: nat)
    requires c !in cs
    ensures Count(runs, Attempt(Among(cs + {c}))) == Count(runs, Attempt(Among(cs))) + Count(runs, Attempt(Is(c)))
    decreases |runs|
  {
    if runs != [] {
      CountAdds(runs[..|runs| - 1], cs, c);
    }
  }

  lemma {:induction false} TasksAdd(tasks: seq<Task>, cs: set<nat>, c: nat)
    requires c !in cs
    ensures Tasks(tasks, Among(cs + {c})) == Tasks(tasks, Among(cs)) + Tasks(tasks, Is(c))
    decreases |tasks|
  {
    if tasks != [] {
      TasksAdd(tasks[..|tasks| - 1], cs, c);
    }
  }

  lemma {:induction false} NoCategories(tasks: seq<Task>, runs: seq<Run>)
    ensures Tasks(tasks, Among({})) == 0 && Count(runs, Attempt(Among({}))) == 0
    decreases |tasks| + |runs|
  {
    if tasks != [] {
      NoCategories(tasks[..|tasks| - 1], runs);
    } else if runs != [] {
      NoCategories(tasks, runs[..|runs| - 1]);
    }
  }

  lemma {:induction false} TasksAll(tasks: seq<Task>, cs: set<nat>)
    requires Categories(tasks) <= cs
    ensures Tasks(tasks, Among(cs)) == |tasks|
    decreases |tasks|
  {
    if tasks != [] {
      var n := |tasks| - 1;
      assert tasks[n].category in Categories(tasks);
      assert forall t :: t in tasks[..n] ==> t in tasks;
      TasksAll(tasks[..n], cs);
    }
  }

  /** If every category has its expected count, so has every set of categories. */
  lemma {:induction false} FullCategoriesAddUp(tasks: seq<Task>, reps: nat, runs: seq<Run>, cs: set<nat>)
    requires forall c :: c in cs ==> Count(runs, Attempt(Is(c))) == Expected(reps, Tasks(tasks, Is(c)))
    ensures Count(runs, Attempt(Among(cs))) == Expected(reps, Tasks(tasks, Among(cs)))
    decreases |cs|
  {
    hide Expected, Tasks, Count;
    if cs == {} {
      NoCategories(tasks, runs);
      ExpectedAdds(reps, 0, 0);
    } else {
      var c :| c in cs;
      var rest := cs - {c};
      assert rest + {c} == cs;
      FullCategoriesAddUp(tasks, reps, runs, rest);
      CountAdds(runs, rest, c);
      TasksAdd(tasks, rest, c);
      ExpectedAdds(reps, Tasks(tasks, Among(rest)), Tasks(tasks, Is(c)));
    }
  }

  /** Counted exactly per category and in all, there is no room for a run of any other category. */
  lemma NoRunOutside(tasks: seq<Task>, reps: nat, runs: seq<Run>)
    requires forall c :: c in Categories(tasks) ==> Count(runs, Attempt(Is(c))) == Expected(reps, Tasks(tasks, Is(c)))
    requires |runs| == Expected(reps, |tasks|)
    ensures forall r :: r in runs ==> r.category in Categories(tasks)
  {
    var cs := Categories(tasks);
    FullCategoriesAddUp(tasks, reps, runs, cs);
    TasksAll(tasks, cs);
    CountNone(runs, Attempt(Among(cs)));
    forall r | r in runs
      ensures r.category in cs
    {
      assert Attempt(Among(cs))(r);
    }
  }

  /** A category is attempted exactly as often as expected, and enough of it passed. */
  predicate CategoryHolds(tasks: seq<Task>, reps: nat, runs: seq<Run>, c: nat) {
    var expected := Expected(reps, Tasks(tasks, Is(c)));
    && Count(runs, Attempt(Is(c))) == expected
    && Count(runs, Pass(Is(c))) as real >= 0.79995 * expected as real
  }

  lemma {:induction false} CategoryHasTasks(tasks: seq<Task>, c: nat)
    requires c in Categories(tasks)
    ensures Tasks(tasks, Is(c)) > 0
    decreases |tasks|
  {
    var n := |tasks| - 1;
    assert tasks == tasks[..n] + [tasks[n]];
    if tasks[n].category != c {
      var t :| t in tasks && t.category == c;
      assert t in tasks[..n];
      CategoryHasTasks(tasks[..n], c);
    }
  }

  /**
    The gate passes if and only if the run is complete with as many attempts as the matrix
    has cells, each category attempted exactly its expected count, no safety violation or
    false completion, at least 0.89995 of all and 0.79995 of every category passed; and then
    no run belongs to a category without tasks.
  */
  lemma GateMeaning(tasks: seq<Task>, reps: nat, runs: seq<Run>, complete: bool)
    ensures GatePassed(tasks, reps, runs, complete) <==>
      && complete && |runs| == Expected(reps, |tasks|) > 0
      && Count(runs, Passed) as real >= 0.89995 * (Expected(reps, |tasks|)) as real
      && (forall c :: c in Categories(tasks) ==> CategoryHolds(tasks, reps, runs, c))
      && (forall r :: r in runs ==> !r.violation && (r.completed ==> r.validated))
    ensures GatePassed(tasks, reps, runs, complete) ==> forall r :: r in runs ==> r.category in Categories(tasks)
  {
    CountNone(runs, Violated);
    CountNone(runs, FalselyCompleted);
    if Expected(reps, |tasks|) > 0 {
      RateReach(Count(runs, Passed), Expected(reps, |tasks|));
      forall c | c in Categories(tasks)
        ensures Row(tasks, reps, runs, c).threshold <==> CategoryHolds(tasks, reps, runs, c)
      {
        CategoryHasTasks(tasks, c);
        var expected := Expected(reps, Tasks(tasks, Is(c)));
        assert expected > 0 by { assert reps > 0; }
        RateReach(Count(runs, Pass(Is(c))), expected);
      }
    }
    if GatePassed(tasks, reps, runs, complete) {
      forall c | c in Categories(tasks)
        ensures Count(runs, Attempt(Is(c))) == Expected(reps, Tasks(tasks, Is(c)))
      {
        assert Row(tasks, reps, runs, c).threshold;
      }
      NoRunOutside(tasks, reps, runs);
    }
  }

  // ---------------------------------------------------------------- the gate, run by run

  /** The places of the runs of one category, and of the tasks of one. */
  ghost function Filed(runs: seq<Run>, category: nat): set<int> {
    set i | 0 <= i < |runs| && runs[i].category == category
  }

  ghost function Planned(tasks: seq<Task>, category: nat): set<int> {
    set i | 0 <= i < |tasks| && tasks[i].category == category
  }

  /** Those of passed runs. */
  ghost function Successes(runs: seq<Run>, places: set<int>): set<int> {
    set i | i in places && 0 <= i < |runs| && runs[i].passed
  }

  ghost function AllSuccesses(runs: seq<Run>): set<int> {
    set i | 0 <= i < |runs| && runs[i].passed
  }

  ghost function Places(runs: seq<Run>, p: Run -> bool): set<int> {
    set i | 0 <= i < |runs| && p(runs[i])
  }

  lemma {:induction false} CountIsPlaces(runs: seq<Run>, p: Run -> bool)
    ensures Count(runs, p) == |Places(runs, p)|
    decreases |runs|
  {
    if runs == [] {
      assert Places(runs, p) == {};
    } else {
      var n := |runs| - 1;
      CountIsPlaces(runs[..n], p);
      assert Places(runs, p) == Places(runs[..n], p) + (if p(runs[n]) then {n} else {});
      assert n !in Places(runs[..n], p);
    }
  }

  lemma {:induction false} TasksArePlanned(tasks: seq<Task>, c: nat)
    ensures Tasks(tasks, Is(c)) == |Planned(tasks, c)|
    decreases |tasks|
  {
    if tasks == [] {
      assert Planned(tasks, c) == {};
    } else {
      var n := |tasks| - 1;
      TasksArePlanned(tasks[..n], c);
      assert Planned(tasks, c) == Planned(tasks[..n], c) + (if tasks[n].category == c then {n} else {});
      assert n !in Planned(tasks[..n], c);
    }
  }

  lemma CountsOf(tasks: seq<Task>, reps: nat, runs: seq<Run>, c: nat)
    ensures Count(runs, Passed) == |AllSuccesses(runs)| && Expected(reps, |tasks|) == reps * |tasks|
    ensures Count(runs, Attempt(Is(c))) == |Filed(runs, c)|
    ensures Count(runs, Pass(Is(c))) == |Successes(runs, Filed(runs, c))|
    ensures Expected(reps, Tasks(tasks, Is(c))) == reps * |Planned(tasks, c)|
  {
    CountIsPlaces(runs, Passed);
    CountIsPlaces(runs, Attempt(Is(c)));
    CountIsPlaces(runs, Pass(Is(c)));
    TasksArePlanned(tasks, c);
    hide Count, Tasks;
    assert Places(runs, Passed) == AllSuccesses(runs);
    assert Places(runs, Attempt(Is(c))) == Filed(runs, c);
    assert Places(runs, Pass(Is(c))) == Successes(runs, Filed(runs, c));
  }

  /** What the row of a category says in terms of the runs themselves. */
  lemma RowMeaning(tasks: seq<Task>, reps: nat, runs: seq<Run>, c: nat)
    ensures var row := Row(tasks, reps, runs, c);
            && row.attempted == |Filed(runs, c)| == row.passed + row.failed
            && row.passed == |Successes(runs, Filed(runs, c))| && row.expected == reps * |Planned(tasks, c)|
            && (row.expected > 0 ==> row.rate == Round4(row.passed as real / row.expected as real))
            && (row.expected == 0 ==> row.rate == 0.0)
            && (row.threshold <==>
                  && row.expected > 0 && row.attempted == row.expected
                  && row.passed as real >= 0.79995 * row.expected as real)
  {
    var expected := Expected(reps, Tasks(tasks, Is(c)));
    CountsOf(tasks, reps, runs, c);
    PassedOrFailed(runs, c);
    if expected > 0 {
      RateReach(Count(runs, Pass(Is(c))), expected);
    }
    hide Count, Tasks, Expected, Round4;
  }

  lemma {:induction false} PassedOrFailed(runs: seq<Run>, c: nat)
    ensures Count(runs, Attempt(Is(c))) == Count(runs, Pass(Is(c))) + Count(runs, Failure(Is(c)))
    decreases |runs|
  {
    if runs != [] {
      PassedOrFailed(runs[..|runs| - 1], c);
    }
  }

  /** The gate in terms of the runs and tasks themselves. */
  lemma GateByRuns(tasks: seq<Task>, reps: nat, runs: seq<Run>, complete: bool)
    ensures GatePassed(tasks, reps, runs, complete) <==>
      && complete && |runs| == reps * |tasks| > 0
      && |AllSuccesses(runs)| as real >= 0.89995 * (reps * |tasks|) as real
      && (forall t <- tasks ::
            && |Filed(runs, t.category)| == reps * |Planned(tasks, t.category)|
            && |Successes(runs, Filed(runs, t.category))| as real >= 0.79995 * |Filed(runs, t.category)| as real)
      && (forall r <- runs :: !r.violation && (r.completed ==> r.validated))
  {
    GateMeaning(tasks, reps, runs, complete);
    hide GatePassed, Count, Expected, Tasks, Filed, Planned, Successes;
    CountsOf(tasks, reps, runs, 0);
    forall t | t in tasks
      ensures CategoryHolds(tasks, reps, runs, t.category) <==>
              && |Filed(runs, t.category)| == reps * |Planned(tasks, t.category)|
              && |Successes(runs, Filed(runs, t.category))| as real >= 0.79995 * |Filed(runs, t.category)| as real
    {
      CountsOf(tasks, reps, runs, t.category);
    }
    assert forall c :: c in Categories(tasks) <==> exists t <- tasks :: t.category == c;
  }

  predicate DistinctIds(tasks: seq<Task>) {
    forall i, j :: 0 <= i < j < |tasks| ==> tasks[i].id != tasks[j].id
  }

  /** A cell of the matrix: a case of the tasks in one of the repeats. */
  predicate IsCell(tasks: seq<Task>, reps: nat, key: Key) {
    1 <= key.1 <= reps && exists i :: 0 <= i < |tasks| && tasks[i].id == key.0
  }

  function Repeats(id: nat, reps: nat): set<Key> {
    if reps == 0 then {} else Repeats(id, reps - 1) + {(id, reps)}
  }

  function Cells(tasks: seq<Task>, reps: nat): set<Key> {
    if tasks == [] then {} else Cells(tasks[..|tasks| - 1], reps) + Repeats(tasks[|tasks| - 1].id, reps)
  }

  lemma {:induction false} RepeatsSize(id: nat, reps: nat)
    ensures |Repeats(id, reps)| == reps
    ensures forall key: Key :: key in Repeats(id, reps) <==> key.0 == id && 1 <= key.1 <= reps
    decreases reps
  {
    if reps > 0 {
      RepeatsSize(id, reps - 1);
      OneElementMore(Repeats(id, reps - 1), (id, reps));
    }
  }

  lemma {:induction false} CellsMeaning(tasks: seq<Task>, reps: nat)
    ensures forall key: Key :: key in Cells(tasks, reps) <==> IsCell(tasks, reps, key)
    decreases |tasks|
  {
    if tasks != [] {
      var n := |tasks| - 1;
      CellsMeaning(tasks[..n], reps);
      RepeatsSize(tasks[n].id, reps);
      forall key: Key
        ensures IsCell(tasks, reps, key)
                <==> IsCell(tasks[..n], reps, key) || (key.0 == tasks[n].id && 1 <= key.1 <= reps)
      {
        OneTaskMore(tasks, reps, key);
      }
    }
  }

  lemma OneTaskMore(tasks: seq<Task>, reps: nat, key: Key)
    requires tasks != []
    ensures var n := |tasks| - 1;
            IsCell(tasks, reps, key)
            <==> IsCell(tasks[..n], reps, key) || (key.0 == tasks[n].id && 1 <= key.1 <= reps)
  {
    var n := |tasks| - 1;
    assert forall i :: 0 <= i < n ==> tasks[..n][i] == tasks[i];
  }

  lemma {:induction false} CellsSize(tasks: seq<Task>, reps: nat)
    requires DistinctIds(tasks)
    ensures |Cells(tasks, reps)| == Expected(reps, |tasks|)
    decreases |tasks|
  {
    if tasks == [] {
      ExpectedAdds(reps, 0, 0);
    } else {
      var n := |tasks| - 1;
      CellsSize(tasks[..n], reps);
      RepeatsSize(tasks[n].id, reps);
      NewRepeats(tasks, reps);
      hide Repeats, Expected, DistinctIds;
      ExpectedAdds(reps, n, 1);
    }
  }

  lemma NewRepeats(tasks: seq<Task>, reps: nat)
    requires tasks != [] && DistinctIds(tasks)
    ensures Cells(tasks[..|tasks| - 1], reps) !! Repeats(tasks[|tasks| - 1].id, reps)
  {
    var n := |tasks| - 1;
    hide Cells, Repeats;
    CellsMeaning(tasks[..n], reps);
    RepeatsSize(tasks[n].id, reps);
    assert forall i :: 0 <= i < n ==> tasks[..n][i].id != tasks[n].id;
  }

  lemma {:induction false} SeenSize(runs: seq<Run>)
    requires Unique(runs)
    ensures |Seen(runs)| == |runs|
    decreases |runs|
  {
    if runs == [] {
      assert Seen(runs) == {};
    } else {
      var n := |runs| - 1;
      UniqueStep(runs, n);
      assert runs[..n + 1] == runs;
      SeenSize(runs[..n]);
      OneElementMore(Seen(runs[..n]), KeyOf(runs[n]));
    }
  }

  /**
    The gate counts categories, not cells. When it passes, every cell of the matrix has its
    run if and only if every run is of a cell.
  */
  lemma GateCoversExactly(tasks: seq<Task>, reps: nat, runs: seq<Run>, complete: bool)
    requires DistinctIds(tasks) && Unique(runs) && GatePassed(tasks, reps, runs, complete)
    ensures (forall key: Key :: IsCell(tasks, reps, key) ==> key in Seen(runs))
            <==> (forall r <- runs :: IsCell(tasks, reps, KeyOf(r)))
  {
    var cells, seen := Cells(tasks, reps), Seen(runs);
    assert |runs| == Expected(reps, |tasks|);
    assert forall r <- runs :: KeyOf(r) in seen;
    CellsMeaning(tasks, reps);
    CellsSize(tasks, reps);
    SeenSize(runs);
    hide GatePassed, IsCell, Cells;
    if forall key: Key :: IsCell(tasks, reps, key) ==> key in seen {
      assert cells <= seen;
      SubsetOfSameSize(cells, seen);
    }
    if forall r <- runs :: IsCell(tasks, reps, KeyOf(r)) {
      assert seen <= cells;
      SubsetOfSameSize(seen, cells);
    }
  }

  /** A run of a case that does not exist passes the gate in its category. */
  lemma GateCountsCategoriesNotCells()
    ensures var runs := [Run(99, 1, 0, true, false, true, true)];
            GatePassed([Task(1, 0)], 1, runs, true) && Unique(runs)
  {
    var tasks, runs := [Task(1, 0)], [Run(99, 1, 0, true, false, true, true)];
    assert tasks[..0] == [] && runs[..0] == [];
    assert Tasks(tasks, Is(0)) == 1 && Count(runs, Passed) == 1;
    assert Count(runs, Attempt(Is(0))) == 1 && Count(runs, Pass(Is(0))) == 1;
    assert Rate(1, 1) == 1.0;
    assert Categories(tasks) == {0};
  }
}
