/**
  The sandbox job-claim protocol (server/sandbox/runner.py: serve, execute).

  Runners share a directory of jobs. Creating the `taken` directory of a job is the only
  atomic lock. `Next` is one atomic step of any runner, or of the server that submits
  jobs; a runner may stop for good after any step.
*/
module SandboxRunner {
  import opened Basics

  datatype Outcome = Completed | RunnerError

  /** The marker files of one job directory. */
  datatype Job = Job(ready: bool, taken: bool, result: Option<Outcome>)

  /** Job directories are numbered; their names are unique and never reused. */
  type JobId = nat

  type Jobs = map<JobId, Job>

  predicate Open(job: Job) {
    job.ready && job.result.None?
  }

  // ---------------------------------------------------------------- many runners

  /** Where a runner stands in its pass; `rest` is what it listed and has not looked at. */
  datatype Runner =
    | Idle
    | Scanning(rest: seq<JobId>)
    | Claiming(job: JobId, rest: seq<JobId>)
    | Holding(job: JobId, rest: seq<JobId>)
    | Executing(job: JobId, rest: seq<JobId>)
    | Dead

  predicate Owns(r: Runner, j: JobId) {
    (r.Holding? || r.Executing?) && r.job == j
  }

  /** The directory, the runners, and every start of `execute` so far. */
  datatype World = World(jobs: Jobs, runners: seq<Runner>, executed: seq<JobId>)

  datatype Event =
    | Submit(j: JobId)
    | MakeReady(j: JobId)
    | Spawn
    | List(r: nat, listing: seq<JobId>)
    | Look(r: nat)
    | Claim(r: nat)
    | Execute(r: nat)
    | Finish(r: nat, raises: bool)
    | Stop(r: nat)

  function Become(w: World, r: nat, runner: Runner): World
    requires r < |w.runners|
  {
    w.(runners := w.runners[r := runner])
  }

  /** One step; a step that does not fit the state changes nothing. */
  function Next(w: World, e: Event): World {
    match e
    case Submit(j) =>
      if j in w.jobs then w else w.(jobs := w.jobs[j := Job(false, false, None)])
    case MakeReady(j) =>
      if j in w.jobs then w.(jobs := w.jobs[j := w.jobs[j].(ready := true)]) else w
    case Spawn => w.(runners := w.runners + [Idle])
    case List(r, listing) =>
      if r < |w.runners| && w.runners[r].Idle? && (forall j :: j in listing ==> j in w.jobs) then
        Become(w, r, Scanning(listing))
      else w
    case Look(r) =>
      if r < |w.runners| && w.runners[r].Scanning? then
        var rest := w.runners[r].rest;
        if rest == [] then Become(w, r, Idle)
        else if rest[0] in w.jobs && Open(w.jobs[rest[0]]) then Become(w, r, Claiming(rest[0], rest[1..]))
        else Become(w, r, Scanning(rest[1..]))
      else w
    case Claim(r) =>
      if r < |w.runners| && w.runners[r].Claiming? && w.runners[r].job in w.jobs then
        var Claiming(j, rest) := w.runners[r];
        if w.jobs[j].taken then Become(w, r, Scanning(rest))
        else Become(w.(jobs := w.jobs[j := w.jobs[j].(taken := true)]), r, Holding(j, rest))
      else w
    case Execute(r) =>
      if r < |w.runners| && w.runners[r].Holding? then
        var Holding(j, rest) := w.runners[r];
        Become(w.(executed := w.executed + [j]), r, Executing(j, rest))
      else w
    case Finish(r, raises) =>
      if r < |w.runners| && w.runners[r].Executing? && w.runners[r].job in w.jobs then
        var Executing(j, rest) := w.runners[r];
        var outcome := if raises then RunnerError else Completed;
        Become(w.(jobs := w.jobs[j := w.jobs[j].(result := Some(outcome))]), r, Scanning(rest))
      else w
    case Stop(r) =>
      if r < |w.runners| then Become(w, r, Dead) else w
  }

  function After(w: World, events: seq<Event>): World
    decreases |events|
  {
    if events == [] then w else After(Next(w, events[0]), events[1..])
  }

  const Empty := World(map[], [], [])

  /** Ownership is exclusive and marked, and every start of a job is behind its marker. */
  ghost predicate Exclusive(w: World) {
    && (forall j :: j in w.executed ==> j in w.jobs && w.jobs[j].taken)
    && (forall j :: j in w.jobs && w.jobs[j].result.Some? ==> j in w.executed)
    && (forall i, k :: 0 <= i < k < |w.executed| ==> w.executed[i] != w.executed[k])
    && (forall r :: 0 <= r < |w.runners| && w.runners[r].Holding? ==>
          var j := w.runners[r].job; j in w.jobs && w.jobs[j].taken && j !in w.executed)
    && (forall r :: 0 <= r < |w.runners| && w.runners[r].Executing? ==>
          w.runners[r].job in w.executed && w.runners[r].job in w.jobs && w.jobs[w.runners[r].job].result.None?)
    && (forall r, q, j ::
          0 <= r < |w.runners| && 0 <= q < |w.runners| && Owns(w.runners[r], j) && Owns(w.runners[q], j) ==> r == q)
  }

  lemma StepExclusive(w: World, e: Event)
    requires Exclusive(w)
    ensures Exclusive(Next(w, e))
  {
    match e
    case Claim(r) => ClaimsOnce(w, r);
    case Execute(r) => StartsOnce(w, r);
    case Finish(r, raises) => FinishesOwn(w, r, raises);
    case _ => MovesNothing(w, e);
  }

  /** Nothing is claimed, started or finished: at most new jobs, new readiness and runners that own less. */
  ghost predicate Calm(w: World, v: World) {
    && v.executed == w.executed
    && (forall j :: j in w.jobs ==>
          j in v.jobs && v.jobs[j].taken == w.jobs[j].taken && v.jobs[j].result == w.jobs[j].result)
    && (forall j :: j in v.jobs && j !in w.jobs ==> v.jobs[j].result.None?)
    && (forall q, k :: 0 <= q < |v.runners| && Owns(v.runners[q], k) ==>
          q < |w.runners| && v.runners[q] == w.runners[q])
  }

  lemma MovesNothing(w: World, e: Event)
    requires Exclusive(w) && !e.Claim? && !e.Execute? && !e.Finish?
    ensures Exclusive(Next(w, e))
  {
    var v := Next(w, e);
    assert Calm(w, v) by { hide Exclusive; }
    hide Next;
    CalmIsExclusive(w, v);
  }

  lemma CalmIsExclusive(w: World, v: World)
    requires Exclusive(w) && Calm(w, v)
    ensures Exclusive(v)
  {
    assert forall r :: 0 <= r < |v.runners| && (v.runners[r].Holding? || v.runners[r].Executing?) ==>
             Owns(v.runners[r], v.runners[r].job);
  }

  lemma ClaimsOnce(w: World, r: nat)
    requires Exclusive(w)
    ensures Exclusive(Next(w, Claim(r)))
  {
    var v := Next(w, Claim(r));
    if v != w {
      var j := w.runners[r].job;
      assert forall q :: 0 <= q < |w.runners| && q != r ==> v.runners[q] == w.runners[q];
      if !w.jobs[j].taken {
        assert forall q :: 0 <= q < |w.runners| ==> !Owns(w.runners[q], j);
      }
    }
  }

  lemma FinishesOwn(w: World, r: nat, raises: bool)
    requires Exclusive(w)
    ensures Exclusive(Next(w, Finish(r, raises)))
  {
    var v := Next(w, Finish(r, raises));
    if v != w {
      assert v.executed == w.executed && Owns(w.runners[r], w.runners[r].job);
      assert forall q :: 0 <= q < |w.runners| && q != r ==>
               v.runners[q] == w.runners[q] && !Owns(w.runners[q], w.runners[r].job);
    }
  }

  lemma StartsOnce(w: World, r: nat)
    requires Exclusive(w)
    ensures Exclusive(Next(w, Execute(r)))
  {
    var v := Next(w, Execute(r));
    if r < |w.runners| && w.runners[r].Holding? {
      var j := w.runners[r].job;
      assert Owns(w.runners[r], j);
      assert forall k :: k in v.executed <==> k == j || k in w.executed;
      assert forall q, k :: 0 <= q < |w.runners| ==> Owns(v.runners[q], k) == Owns(w.runners[q], k);
    }
  }

  /**
    For any number of runners, any interleaving and any stops, no job is executed twice,
    no two runners own the same job, and only executed jobs have a result.
  */
  lemma {:induction false} ExecutedAtMostOnce(w: World, events: seq<Event>)
    requires Exclusive(w)
    ensures var v := After(w, events);
            && Exclusive(v)
            && (forall j :: multiset(v.executed)[j] <= 1)
            && w.executed <= v.executed
    decreases |events|
  {
    if events == [] {
      DistinctCounts(w.executed);
    } else {
      StepExclusive(w, events[0]);
      ExecutedAtMostOnce(Next(w, events[0]), events[1..]);
    }
  }

  lemma {:induction false} DistinctCounts(xs: seq<JobId>)
    requires forall i, k :: 0 <= i < k < |xs| ==> xs[i] != xs[k]
    ensures forall j :: multiset(xs)[j] <= 1
  {
    if xs != [] {
      var n := |xs| - 1;
      DistinctCounts(xs[..n]);
      assert xs == xs[..n] + [xs[n]];
      assert xs[n] !in xs[..n];
    }
  }

  /** In every run from an empty directory. */
  lemma NoJobTwice(events: seq<Event>)
    ensures Exclusive(After(Empty, events))
    ensures forall j :: multiset(After(Empty, events).executed)[j] <= 1
  {
    EmptyIsExclusive();
    ExecutedAtMostOnce(Empty, events);
  }

  lemma EmptyIsExclusive()
    ensures Exclusive(Empty)
  {
  }

  /** Whoever has looked at a job has found it ready, and so was every job that was claimed, started or finished. */
  ghost predicate OnlyReady(w: World) {
    && (forall j <- w.jobs :: w.jobs[j].taken || w.jobs[j].result.Some? ==> w.jobs[j].ready)
    && (forall j <- w.executed :: j in w.jobs && w.jobs[j].ready)
    && (forall r <- w.runners :: r.Claiming? || r.Holding? || r.Executing? ==> r.job in w.jobs && w.jobs[r.job].ready)
  }

  lemma StepOnlyReady(w: World, e: Event)
    requires OnlyReady(w)
    ensures OnlyReady(Next(w, e))
  {
  }

  lemma {:induction false} RunOnlyReady(w: World, events: seq<Event>)
    requires OnlyReady(w)
    ensures OnlyReady(After(w, events))
    decreases |events|
  {
    hide OnlyReady, Next;
    if events != [] {
      StepOnlyReady(w, events[0]);
      RunOnlyReady(Next(w, events[0]), events[1..]);
    }
  }

  /** In every run from an empty directory no job is claimed, started or given a result before it is ready. */
  lemma UnreadyIsLeftAlone(events: seq<Event>)
    ensures var w := After(Empty, events);
            && (forall j <- w.executed :: j in w.jobs && w.jobs[j].ready)
            && (forall j <- w.jobs :: w.jobs[j].taken || w.jobs[j].result.Some? ==> w.jobs[j].ready)
  {
    RunOnlyReady(Empty, events);
  }

  lemma {:induction false} ReadyMeansMade(w: World, events: seq<Event>, j: JobId)
    requires j in After(w, events).jobs && After(w, events).jobs[j].ready && !(j in w.jobs && w.jobs[j].ready)
    ensures MakeReady(j) in events && (j in w.jobs || Submit(j) in events)
    decreases |events|
  {
    if events != [] {
      var v := Next(w, events[0]);
      assert forall e <- events[1..] :: e in events;
      OneStepReady(w, events[0], j);
      hide Next;
      if !(j in v.jobs && v.jobs[j].ready) {
        ReadyMeansMade(v, events[1..], j);
      }
    }
  }

  lemma OneStepReady(w: World, e: Event, j: JobId)
    ensures var v := Next(w, e);
            && (j in v.jobs && v.jobs[j].ready && !(j in w.jobs && w.jobs[j].ready) ==>
                  e == MakeReady(j) && j in w.jobs)
            && (j in v.jobs && j !in w.jobs ==> e == Submit(j))
  {
  }

  /** So nothing is started that was not submitted and then made ready by its submitter. */
  lemma StartsWereAsked(events: seq<Event>, j: JobId)
    requires j in After(Empty, events).executed
    ensures Submit(j) in events && MakeReady(j) in events
  {
    UnreadyIsLeftAlone(events);
    ReadyMeansMade(Empty, events, j);
  }

  /** A claimed job whose owner is gone: its marker stays, and nobody owns it. */
  ghost predicate Orphaned(w: World, j: JobId) {
    && j in w.jobs && w.jobs[j].taken && w.jobs[j].result.None?
    && forall r :: 0 <= r < |w.runners| ==> !Owns(w.runners[r], j)
  }

  /** Claims are never taken back: a job whose owner stopped never gets a result from any runner. */
  lemma {:induction false} OrphanNeverFinishes(w: World, events: seq<Event>, j: JobId)
    requires Orphaned(w, j)
    ensures Orphaned(After(w, events), j)
    ensures multiset(After(w, events).executed)[j] == multiset(w.executed)[j]
    decreases |events|
  {
    if events != [] {
      OrphanNeverFinishes(Next(w, events[0]), events[1..], j);
    }
  }

  /** The step stops the runner that owns the job. */
  predicate StopsOwner(w: World, e: Event, j: JobId) {
    e.Stop? && e.r < |w.runners| && Owns(w.runners[e.r], j)
  }

  /** A step orphans a job exactly when it stops the job's owner. */
  lemma StopOrphansWhatItOwned(w: World, e: Event, j: JobId)
    requires Exclusive(w) && !Orphaned(w, j)
    ensures Orphaned(Next(w, e), j) <==> StopsOwner(w, e, j)
  {
    var v := Next(w, e);
    if StopsOwner(w, e, j) {
      assert w.jobs[j].taken && w.jobs[j].result.None?;
    } else if Orphaned(v, j) {
      ClaimersKeepTheirs(w, e, j);
    }
  }

  /** No other step makes an owner let go of an unfinished job, or leaves a fresh claim without an owner. */
  lemma ClaimersKeepTheirs(w: World, e: Event, j: JobId)
    requires Exclusive(w) && !StopsOwner(w, e, j) && !Orphaned(w, j)
    ensures !Orphaned(Next(w, e), j)
  {
    var v := Next(w, e);
    if j in w.jobs && w.jobs[j].taken && w.jobs[j].result.None? {
      var q :| 0 <= q < |w.runners| && Owns(w.runners[q], j);
      assert Owns(v.runners[q], j) || v.jobs[j].result.Some?;
    } else if e.Claim? && e.r < |w.runners| && v != w {
      assert Owns(v.runners[e.r], w.runners[e.r].job) || v.jobs == w.jobs;
    }
  }

  /** Somewhere in the run the job's owner is stopped. */
  predicate OwnerStopped(w: World, events: seq<Event>, j: JobId)
    decreases |events|
  {
    events != [] && (StopsOwner(w, events[0], j) || OwnerStopped(Next(w, events[0]), events[1..], j))
  }

  /** In any run a job is orphaned exactly when its owner was stopped before finishing it. */
  lemma {:induction false} OrphanedExactly(w: World, events: seq<Event>, j: JobId)
    requires Exclusive(w) && !Orphaned(w, j)
    ensures Orphaned(After(w, events), j) <==> OwnerStopped(w, events, j)
    decreases |events|
  {
    hide Exclusive, Orphaned, StopsOwner;
    if events == [] {
      assert After(w, events) == w;
    } else {
      StepExclusive(w, events[0]);
      StopOrphansWhatItOwned(w, events[0], j);
      if StopsOwner(w, events[0], j) {
        OrphanNeverFinishes(Next(w, events[0]), events[1..], j);
      } else {
        OrphanedExactly(Next(w, events[0]), events[1..], j);
      }
    }
  }

  /** The steps by which an owner comes to the end of its job. */
  function ToTheEnd(w: World, r: nat, raises: bool): seq<Event>
    requires r < |w.runners|
  {
    (if w.runners[r].Holding? then [Execute(r)] else []) + [Finish(r, raises)]
  }

  /** However execute ends, the owner's own steps give the job its result. */
  lemma OwnerCanFinish(w: World, r: nat, j: JobId, raises: bool)
    requires Exclusive(w) && r < |w.runners| && Owns(w.runners[r], j)
    ensures var v := After(w, ToTheEnd(w, r, raises));
            j in v.jobs && v.jobs[j].result == Some(if raises then RunnerError else Completed)
  {
    assert j in w.jobs;
    hide Exclusive, Next, After;
    AfterTwo(w, Execute(r), Finish(r, raises));
    AfterTwo(w, Finish(r, raises), Finish(r, raises));
    if w.runners[r].Holding? {
      ExecuteStarts(w, r);
      FinishGives(Next(w, Execute(r)), r, raises);
    } else {
      FinishGives(w, r, raises);
      assert ToTheEnd(w, r, raises) == [Finish(r, raises)];
    }
  }

  lemma ExecuteStarts(w: World, r: nat)
    requires r < |w.runners| && w.runners[r].Holding?
    ensures var v := Next(w, Execute(r));
            && v.jobs == w.jobs && |v.runners| == |w.runners|
            && v.runners[r] == Executing(w.runners[r].job, w.runners[r].rest)
  {
  }

  lemma FinishGives(w: World, r: nat, raises: bool)
    requires r < |w.runners| && w.runners[r].Executing? && w.runners[r].job in w.jobs
    ensures var j, v := w.runners[r].job, Next(w, Finish(r, raises));
            j in v.jobs && v.jobs[j].result == Some(if raises then RunnerError else Completed)
  {
  }

  lemma AfterTwo(w: World, a: Event, b: Event)
    ensures After(w, [a]) == Next(w, a) && After(w, [a] + [b]) == Next(Next(w, a), b)
  {
    hide Next;
    assert [a][1..] == [] && ([a] + [b])[1..] == [b] && [b][1..] == [];
    assert After(Next(w, a), [b]) == Next(Next(w, a), b);
  }

  /**
    What becomes of a claimed job in any run from an empty directory: it has no result and
    nobody left to give it one if and only if its owner was stopped; otherwise it has its
    result, or a living owner whose own steps finish it.
  */
  lemma EveryClaimedJob(events: seq<Event>, j: JobId)
    requires var v := After(Empty, events); j in v.jobs && v.jobs[j].taken
    ensures var v := After(Empty, events);
            && (Orphaned(v, j) <==> OwnerStopped(Empty, events, j))
            && (!OwnerStopped(Empty, events, j) ==>
                  v.jobs[j].result.Some? || exists r: nat :: r < |v.runners| && Owns(v.runners[r], j))
            && (forall r: nat, raises ::
                  r < |v.runners| && Owns(v.runners[r], j) ==>
                  j in After(v, ToTheEnd(v, r, raises)).jobs && After(v, ToTheEnd(v, r, raises)).jobs[j].result.Some?)
  {
    var v := After(Empty, events);
    NoJobTwice(events);
    OrphanedExactly(Empty, events, j);
    hide After, Exclusive;
    forall r: nat, raises: bool | r < |v.runners| && Owns(v.runners[r], j)
      ensures j in After(v, ToTheEnd(v, r, raises)).jobs && After(v, ToTheEnd(v, r, raises)).jobs[j].result.Some?
    {
      OwnerCanFinish(v, r, j, raises);
    }
  }

  // ---------------------------------------------------------------- one pass

  /** A job after a pass of a lone runner over it. */
  function Served(job: Job, raises: bool): Job {
    if Open(job) && !job.taken then
      job.(taken := true, result := Some(if raises then RunnerError else Completed))
    else job
  }

  function ServeOne(jobs: Jobs, j: JobId, raises: set<JobId>): Jobs {
    if j in jobs then jobs[j := Served(jobs[j], j in raises)] else jobs
  }

  /** The directory after a lone runner went through a listing; `raises` says for which jobs execute raises. */
  function ServeAll(jobs: Jobs, listing: seq<JobId>, raises: set<JobId>): Jobs
    decreases |listing|
  {
    if listing == [] then jobs else ServeAll(ServeOne(jobs, listing[0], raises), listing[1..], raises)
  }

  predicate Starts(jobs: Jobs, j: JobId) {
    j in jobs && Open(jobs[j]) && !jobs[j].taken
  }

  /** The jobs a lone runner executes in that pass, in order. */
  function ExecutedBy(jobs: Jobs, listing: seq<JobId>, raises: set<JobId>): seq<JobId>
    decreases |listing|
  {
    if listing == [] then []
    else
      (if Starts(jobs, listing[0]) then [listing[0]] else [])
      + ExecutedBy(ServeOne(jobs, listing[0], raises), listing[1..], raises)
  }

  /** A job that waits for a runner: ready, claimed by nobody, without a result. */
  predicate Waits(jobs: Jobs, j: JobId) {
    j in jobs && jobs[j] == Job(true, false, None)
  }

  /**
    What a pass does, job by job: a listed job that waits is claimed and has its outcome, and
    every other job is as it was, unready and claimed ones too.
  */
  lemma PassMeaning(jobs: Jobs, listing: seq<JobId>, raises: set<JobId>)
    ensures var after := ServeAll(jobs, listing, raises);
            && after.Keys == jobs.Keys
            && forall j :: j in jobs ==>
                 after[j] == if j in listing && Waits(jobs, j)
                             then Job(true, true, Some(if j in raises then RunnerError else Completed))
                             else jobs[j]
  {
    PassJobByJob(jobs, listing, raises);
    hide ServeAll;
  }

  lemma ServeOneKeeps(jobs: Jobs, j: JobId, raises: set<JobId>)
    ensures forall k :: k != j ==> Waits(ServeOne(jobs, j, raises), k) == Waits(jobs, k)
    ensures !Waits(ServeOne(jobs, j, raises), j) && (Starts(jobs, j) <==> Waits(jobs, j))
  {
  }

  /** The jobs a pass starts are the listed ones that wait, each once. */
  lemma {:induction false} ExecutedMeaning(jobs: Jobs, listing: seq<JobId>, raises: set<JobId>)
    ensures var started := ExecutedBy(jobs, listing, raises);
            && (forall j :: j in started <==> j in listing && Waits(jobs, j))
            && (forall i, k :: 0 <= i < k < |started| ==> started[i] != started[k])
    decreases |listing|
  {
    if listing != [] {
      var j := listing[0];
      ServeOneKeeps(jobs, j, raises);
      hide Starts, Waits, ServeOne;
      ExecutedMeaning(ServeOne(jobs, j, raises), listing[1..], raises);
      assert forall k :: k in listing <==> k == j || k in listing[1..];
    }
  }

  /** What a pass leaves behind: every visited open unclaimed job has a result, everything else is untouched. */
  lemma {:induction false} PassJobByJob(jobs: Jobs, listing: seq<JobId>, raises: set<JobId>)
    ensures var after := ServeAll(jobs, listing, raises);
            && after.Keys == jobs.Keys
            && forall j :: j in jobs ==> after[j] == if j in listing then Served(jobs[j], j in raises) else jobs[j]
    decreases |listing|
  {
    if listing != [] {
      var j := listing[0];
      PassJobByJob(ServeOne(jobs, j, raises), listing[1..], raises);
      assert forall k :: k in listing <==> k == j || k in listing[1..];
    }
  }

  class JobsDirectory {
    var jobs: Jobs
    var executed: seq<JobId>

    constructor (jobs: Jobs)
      ensures this.jobs == jobs && executed == []
    {
      this.jobs, executed := jobs, [];
    }

    /** One round of the serving loop. `listing` is the sorted directory listing. */
    method ServePass(listing: seq<JobId>, raises: set<JobId>)
      modifies this
      ensures jobs == ServeAll(old(jobs), listing, raises)
      ensures executed == old(executed) + ExecutedBy(old(jobs), listing, raises)
      ensures jobs.Keys == old(jobs).Keys
      ensures forall j <- jobs ::
                jobs[j] == if j in listing && Waits(old(jobs), j)
                           then Job(true, true, Some(if j in raises then RunnerError else Completed))
                           else old(jobs)[j]
      ensures var started := executed[|old(executed)|..];
              forall j :: j in started <==> j in listing && Waits(old(jobs), j)
    {
      ghost var start := jobs;
      for i := 0 to |listing|
        invariant ServeAll(jobs, listing[i..], raises) == ServeAll(old(jobs), listing, raises)
        invariant executed + ExecutedBy(jobs, listing[i..], raises)
               == old(executed) + ExecutedBy(old(jobs), listing, raises)
      {
        var d := listing[i];
        ghost var before := jobs;
        assert listing[i..][1..] == listing[i + 1..];
        assert !Starts(jobs, d) ==> ServeOne(jobs, d, raises) == jobs;
        if d in jobs && jobs[d].ready && jobs[d].result.None? {
          if jobs[d].taken {
            assert executed + ([] + ExecutedBy(jobs, listing[i + 1..], raises))
                == executed + ExecutedBy(jobs, listing[i..], raises);
            continue;
          }
          jobs := jobs[d := jobs[d].(taken := true)];
          executed := executed + [d];
          if d in raises {
            jobs := jobs[d := jobs[d].(result := Some(RunnerError))];
          } else {
            jobs := jobs[d := jobs[d].(result := Some(Completed))];
          }
          assert jobs == ServeOne(before, d, raises);
        }
      }
      hide ServeAll, ExecutedBy, Waits;
      PassMeaning(start, listing, raises);
      ExecutedMeaning(start, listing, raises);
    }
  }

  /** The steps a lone runner takes over one listed job, and over a whole listing. */
  function StepsFor(jobs: Jobs, r: nat, j: JobId, raises: set<JobId>): seq<Event> {
    if j in jobs && Open(jobs[j]) then
      if jobs[j].taken then [Look(r), Claim(r)]
      else [Look(r), Claim(r), Execute(r), Finish(r, j in raises)]
    else [Look(r)]
  }

  function PassSteps(jobs: Jobs, r: nat, listing: seq<JobId>, raises: set<JobId>): seq<Event>
    decreases |listing|
  {
    if listing == [] then [Look(r)]
    else
      StepsFor(jobs, r, listing[0], raises)
      + PassSteps(ServeOne(jobs, listing[0], raises), r, listing[1..], raises)
  }

  lemma {:induction false} AfterConcat(w: World, a: seq<Event>, b: seq<Event>)
    ensures After(w, a + b) == After(After(w, a), b)
    decreases |a|
  {
    if a == [] {
      assert a + b == b;
    } else {
      assert (a + b)[0] == a[0] && (a + b)[1..] == a[1..] + b;
      AfterConcat(Next(w, a[0]), a[1..], b);
    }
  }

  /** A pass of a lone runner is a run of the protocol. */
  lemma {:induction false} PassIsARun(w: World, r: nat, listing: seq<JobId>, raises: set<JobId>)
    requires r < |w.runners| && w.runners[r] == Scanning(listing)
    ensures After(w, PassSteps(w.jobs, r, listing, raises))
         == World(ServeAll(w.jobs, listing, raises), w.runners[r := Idle],
                  w.executed + ExecutedBy(w.jobs, listing, raises))
    decreases |listing|
  {
    hide StepsFor, ServeOne, Starts;
    if listing == [] {
      assert PassSteps(w.jobs, r, listing, raises)[1..] == [];
    } else {
      var steps := StepsFor(w.jobs, r, listing[0], raises);
      var v := After(w, steps);
      OneJob(w, r, listing, raises);
      PassIsARun(v, r, listing[1..], raises);
      AfterConcat(w, steps, PassSteps(v.jobs, r, listing[1..], raises));
      assert v.runners[r := Idle] == w.runners[r := Idle];
      assert v.executed + ExecutedBy(v.jobs, listing[1..], raises)
          == w.executed + ExecutedBy(w.jobs, listing, raises);
    }
  }

  lemma AfterOne(w: World, steps: seq<Event>)
    requires steps != []
    ensures After(w, steps) == After(Next(w, steps[0]), steps[1..])
  {
  }

  lemma OneJob(w: World, r: nat, listing: seq<JobId>, raises: set<JobId>)
    requires r < |w.runners| && w.runners[r] == Scanning(listing) && listing != []
    ensures After(w, StepsFor(w.jobs, r, listing[0], raises))
         == World(ServeOne(w.jobs, listing[0], raises), w.runners[r := Scanning(listing[1..])],
                  w.executed + (if Starts(w.jobs, listing[0]) then [listing[0]] else []))
  {
    var j, rest := listing[0], listing[1..];
    var steps := StepsFor(w.jobs, r, j, raises);
    var w1 := Next(w, Look(r));
    AfterOne(w, steps);
    assert w.executed + [] == w.executed;
    if j in w.jobs && Open(w.jobs[j]) {
      assert w1 == Become(w, r, Claiming(j, rest));
      var w2 := Next(w1, Claim(r));
      AfterOne(w1, steps[1..]);
      if w.jobs[j].taken {
        assert steps[1..][1..] == [];
        assert w2.runners == w.runners[r := Scanning(rest)];
        assert ServeOne(w.jobs, j, raises) == w.jobs;
      } else {
        var w3 := Next(w2, Execute(r));
        var w4 := Next(w3, Finish(r, j in raises));
        AfterOne(w2, steps[1..][1..]);
        AfterOne(w3, steps[1..][1..][1..]);
        assert steps[1..][1..][1..][1..] == [];
        assert w4.runners == w.runners[r := Scanning(rest)];
        assert w4.jobs == ServeOne(w.jobs, j, raises);
      }
    } else {
      assert steps[1..] == [];
      assert ServeOne(w.jobs, j, raises) == w.jobs;
    }
  }

  // ---------------------------------------------------------------- capped outputs

  /** What an entry of the work directory is: the file RESULT is written to, another file, or no file. */
  datatype Kind = ResultFile | OutputFile | NotAFile

  datatype File = File(name: nat, size: nat, kind: Kind)

  const MAX_OUT_FILES := 10
  const MAX_OUT_BYTES := 10000000

  predicate Returnable(f: File) {
    f.kind != NotAFile && f.kind != ResultFile
  }

  /** The files that may be returned at all. */
  function Eligible(files: seq<File>): seq<File> {
    if files == [] then []
    else
      var f := files[|files| - 1];
      if f.kind.OutputFile? then Eligible(files[..|files| - 1]) + [f]
      else Eligible(files[..|files| - 1])
  }

  lemma {:induction false} EligibleMeaning(files: seq<File>)
    ensures forall f :: f in Eligible(files) <==> f in files && f.kind == OutputFile
    decreases |files|
  {
    if files != [] {
      var n := |files| - 1;
      EligibleMeaning(files[..n]);
      assert files == files[..n] + [files[n]];
    }
  }

  function Bytes(files: seq<File>): nat {
    if files == [] then 0 else Bytes(files[..|files| - 1]) + files[|files| - 1].size
  }

  lemma {:induction false} BytesOfPrefix(files: seq<File>, k: nat)
    requires k <= |files|
    ensures Bytes(files[..k]) <= Bytes(files)
    decreases |files|
  {
    if k == |files| {
      assert files[..k] == files;
    } else {
      BytesOfPrefix(files[..|files| - 1], k);
      assert files[..|files| - 1][..k] == files[..k];
    }
  }

  /** The returned outputs are the longest run of eligible files, in order, that fits both caps. */
  ghost predicate LongestFit(eligible: seq<File>, k: nat) {
    && k <= |eligible| && k <= MAX_OUT_FILES && Bytes(eligible[..k]) <= MAX_OUT_BYTES
    && (k == |eligible| || k == MAX_OUT_FILES || Bytes(eligible[..k + 1]) > MAX_OUT_BYTES)
  }

  lemma ReturnedWithin(files: seq<File>, k: nat)
    requires LongestFit(Eligible(files), k)
    ensures var outputs := Eligible(files)[..k];
            && |outputs| <= 10 && Bytes(outputs) <= 10000000
            && forall f <- outputs :: f in files && f.kind == OutputFile
  {
    EligibleMeaning(files);
    hide Eligible;
  }

  lemma FitGoesOn(seen: seq<File>, f: File, k: nat)
    requires LongestFit(seen, k)
    ensures Bytes(seen + [f]) == Bytes(seen) + f.size
    ensures if k < MAX_OUT_FILES && Bytes(seen) + f.size <= MAX_OUT_BYTES
            then LongestFit(seen + [f], k + 1) && (seen + [f])[..k + 1] == seen[..k] + [f]
            else LongestFit(seen + [f], k) && (seen + [f])[..k] == seen[..k]
  {
    var now := seen + [f];
    assert now[..|seen|] == seen && now[..|now|] == now;
    assert now[..k] == seen[..k];
    if k < |seen| {
      assert now[..k + 1] == seen[..k + 1];
      BytesOfPrefix(seen, k + 1);
    }
  }

  lemma EligibleStep(files: seq<File>, i: nat)
    requires i < |files|
    ensures Eligible(files[..i + 1])
         == if files[i].kind.OutputFile? then Eligible(files[..i]) + [files[i]]
            else Eligible(files[..i])
  {
    assert files[..i + 1][..i] == files[..i];
  }

  method CollectOutputs(files: seq<File>) returns (outputs: seq<File>)
    ensures exists k: nat :: LongestFit(Eligible(files), k) && outputs == Eligible(files)[..k]
    ensures |outputs| <= 10 && Bytes(outputs) <= 10000000 && forall f <- outputs :: f in files && f.kind == OutputFile
  {
    outputs := [];
    var total := 0;
    assert LongestFit([], 0) && Bytes([]) == 0 && Eligible(files[..0]) == [];
    ghost var seen: seq<File> := [];
    hide LongestFit, Bytes, Eligible, Returnable;
    for i := 0 to |files|
      invariant seen == Eligible(files[..i])
      invariant |outputs| <= |seen| && |outputs| <= MAX_OUT_FILES
      invariant LongestFit(seen, |outputs|) && outputs == seen[..|outputs|]
      invariant |outputs| < MAX_OUT_FILES ==> total == Bytes(seen)
    {
      var f := files[i];
      EligibleStep(files, i);
      if Returnable(f) && |outputs| < MAX_OUT_FILES {
        FitGoesOn(seen, f, |outputs|);
        total := total + f.size;
        if total <= MAX_OUT_BYTES {
          outputs := outputs + [f];
        }
        seen := seen + [f];
      } else if Returnable(f) {
        FitGoesOn(seen, f, |outputs|);
        seen := seen + [f];
      }
    }
    assert files[..|files|] == files;
    ReturnedWithin(files, |outputs|);
  }
}
