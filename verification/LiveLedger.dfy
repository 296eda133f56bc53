/**
  The persisted spend ledger of live evaluations
  (scripts/run_native_outcome_suite.py: LiveBudget, saved_continuation).

  A process counts a request, saves the ledger and only then sends it; a later process
  may carry the ledger on under new ceilings. `Next` is one atomic step of a world in
  which processes may stop at any point; the ledger file is replaced atomically.
  Rupees are exact reals. The chain of carried ledgers is linear.
*/
module LiveLedger {
  import opened Basics

  datatype Ledger = Ledger(requests: int, ceiling: int, reserved: real, rupees: real)

  // ---------------------------------------------------------------- the carry check

  /** A value found in a ledger file, or its absence. Text stands for anything that is not a number. */
  datatype Json =
    | Absent | Text | Boolean(b: bool) | Integer(n: int) | Float(x: real)
    | NotANumber | Infinity | MinusInfinity

  datatype Document = Document(requests: Json, ceiling: Json, reserved: Json, rupees: Json)

  /** Whether `value > limit` is evaluated, and is false. */
  predicate NotAbove(value: Json, limit: real) {
    match value
    case Absent => false
    case Text => false
    case Boolean(b) => (if b then 1.0 else 0.0) <= limit
    case Integer(n) => n as real <= limit
    case Float(x) => x <= limit
    case NotANumber => true
    case Infinity => false
    case MinusInfinity => true
  }

  /** What the constructor reads from a previous ledger, unless it raises. */
  function Carry(previous: Document, requests: int, rupees: real): Option<(int, real)> {
    if !NotAbove(previous.ceiling, requests as real) || !NotAbove(previous.rupees, rupees) then None
    else if !previous.requests.Integer? || !(0 <= previous.requests.n <= requests) then None
    else match previous.reserved
      case Integer(n) => if 0.0 <= n as real <= rupees then Some((previous.requests.n, n as real)) else None
      case Float(x) => if 0.0 <= x <= rupees then Some((previous.requests.n, x)) else None
      case _ => None
  }

  function Written(l: Ledger): Document {
    Document(Integer(l.requests), Integer(l.ceiling), Float(l.reserved), Float(l.rupees))
  }

  function Renewed(l: Ledger, requests: int, rupees: real): Ledger {
    l.(ceiling := requests, rupees := rupees)
  }

  ghost predicate Within(l: Ledger) {
    0 <= l.requests <= l.ceiling && 0.0 <= l.reserved <= l.rupees
  }

  /** A ledger is carried, with nothing reset, exactly under ceilings that do not shrink and still cover it. */
  lemma CarryExactly(l: Ledger, requests: int, rupees: real)
    ensures Carry(Written(l), requests, rupees).Some? <==>
            l.ceiling <= requests && l.rupees <= rupees && Within(Renewed(l, requests, rupees))
    ensures Carry(Written(l), requests, rupees).Some? ==>
            Carry(Written(l), requests, rupees).value == (l.requests, l.reserved)
  {
  }

  /** No file authorizes a budget unless its counts are finite numbers within the new ceilings. */
  lemma MalformedNeverCarried(d: Document, requests: int, rupees: real)
    ensures Carry(d, requests, rupees).Some? ==>
      var (count, reserved) := Carry(d, requests, rupees).value;
      && d.requests == Integer(count) && 0 <= count <= requests
      && (d.reserved == Float(reserved) || (d.reserved.Integer? && d.reserved.n as real == reserved))
      && 0.0 <= reserved <= rupees
  {
  }

  /** What a ceiling in a file must be not to bar a new one: a number up to it, or one of the odd values of Python. */
  predicate CoveredBy(ceiling: Json, limit: real) {
    match ceiling
    case Integer(n) => !(n as real > limit)
    case Float(x) => !(x > limit)
    case Boolean(b) => if b then !(1.0 > limit) else !(0.0 > limit)
    case other => other in {NotANumber, MinusInfinity}
  }

  /** The file is carried exactly when it covers this. */
  lemma CarriedExactly(d: Document, requests: int, rupees: real)
    ensures Carry(d, requests, rupees).Some? <==>
            && CoveredBy(d.ceiling, requests as real) && CoveredBy(d.rupees, rupees)
            && (exists count: nat :: d.requests == Integer(count) && count <= requests)
            && (|| (d.reserved.Float? && 0.0 <= d.reserved.x <= rupees)
                || (d.reserved.Integer? && 0 <= d.reserved.n && d.reserved.n as real <= rupees))
  {
    if d.requests.Integer? && d.requests.n >= 0 {
      var count: nat := d.requests.n;
      assert d.requests == Integer(count);
    }
  }

  // ---------------------------------------------------------------- processes

  /** A request that is to be sent: the bytes of its payload and the tokens it allows for the answer. */
  datatype Request = Request(inputBytes: nat, maxTokens: int)

  /** Rupees reserved for one request. */
  function Cost(inputBytes: nat, maxTokens: int): real {
    (inputBytes + maxTokens + 1024) as real * 396.0 / 1000000.0
  }

  predicate ValidAllowance(maxTokens: int) {
    1 <= maxTokens <= 1000000
  }

  predicate Admits(l: Ledger, cost: real) {
    !(l.requests >= l.ceiling || l.reserved + cost > l.rupees)
  }

  function Charged(l: Ledger, cost: real): Ledger {
    l.(requests := l.requests + 1, reserved := l.reserved + cost)
  }

  /** `saving` is the request a lock holder has counted but not saved; `cleared` are saved and may be sent. */
  datatype Process = Process(memory: Ledger, saving: Option<Request>, cleared: seq<Request>)

  /** The newest ledger file, the process that owns it if one is alive, and everything ever sent. */
  datatype World = World(disk: Ledger, process: Option<Process>, sent: seq<Request>)

  datatype Event =
    | Count(inputBytes: nat, maxTokens: int)
    | Save(succeeds: bool)
    | Send(i: nat)
    | Abandon(i: nat)
    | Crash
    | Restart(requests: int, rupees: real, saves: bool)

  function Without(xs: seq<Request>, i: nat): seq<Request>
    requires i < |xs|
  {
    xs[..i] + xs[i + 1..]
  }

  /** One step; a step that cannot happen in this world changes nothing. */
  function Next(w: World, e: Event): World {
    match e
    case Restart(requests, rupees, saves) =>
      if w.process.None? && Carry(Written(w.disk), requests, rupees).Some? && saves then
        var l := Renewed(w.disk, requests, rupees);
        World(l, Some(Process(l, None, [])), w.sent)
      else w
    case Crash => w.(process := None)
    case Count(inputBytes, maxTokens) =>
      if w.process.Some? && w.process.value.saving.None? && ValidAllowance(maxTokens)
         && Admits(w.process.value.memory, Cost(inputBytes, maxTokens)) then
        var p := w.process.value;
        w.(process := Some(p.(memory := Charged(p.memory, Cost(inputBytes, maxTokens)),
                              saving := Some(Request(inputBytes, maxTokens)))))
      else w
    case Save(succeeds) =>
      if w.process.Some? && w.process.value.saving.Some? then
        var p := w.process.value;
        if succeeds then
          World(p.memory, Some(p.(saving := None, cleared := p.cleared + [p.saving.value])), w.sent)
        else w.(process := Some(p.(saving := None)))
      else w
    case Send(i) =>
      if w.process.Some? && i < |w.process.value.cleared| then
        var p := w.process.value;
        World(w.disk, Some(p.(cleared := Without(p.cleared, i))), w.sent + [p.cleared[i]])
      else w
    case Abandon(i) =>
      if w.process.Some? && i < |w.process.value.cleared| then
        var p := w.process.value;
        w.(process := Some(p.(cleared := Without(p.cleared, i))))
      else w
  }

  function After(w: World, events: seq<Event>): World
    decreases |events|
  {
    if events == [] then w else Next(After(w, events[..|events| - 1]), events[|events| - 1])
  }

  /** A first process, with nothing carried. */
  function Begin(requests: int, rupees: real): World {
    var l := Ledger(0, requests, 0.0, rupees);
    World(l, Some(Process(l, None, [])), [])
  }

  function CostOf(r: Request): real {
    Cost(r.inputBytes, r.maxTokens)
  }

  function Sum(xs: seq<Request>): real {
    if xs == [] then 0.0 else Sum(xs[..|xs| - 1]) + CostOf(xs[|xs| - 1])
  }

  lemma SumSnoc(xs: seq<Request>, x: Request)
    ensures Sum(xs + [x]) == Sum(xs) + CostOf(x)
  {
    assert (xs + [x])[..|xs|] == xs;
  }

  lemma {:induction false} SumWithout(xs: seq<Request>, i: nat)
    requires i < |xs|
    ensures Sum(Without(xs, i)) == Sum(xs) - CostOf(xs[i])
    decreases |xs|
  {
    var n := |xs| - 1;
    if i == n {
      assert Without(xs, i) == xs[..n];
    } else {
      SumWithout(xs[..n], i);
      assert Without(xs, i) == Without(xs[..n], i) + [xs[n]];
      SumSnoc(Without(xs[..n], i), xs[n]);
    }
  }

  function Saving(p: Process): real {
    if p.saving.Some? then CostOf(p.saving.value) else 0.0
  }

  /** The ledger on disk covers everything sent and everything about to be sent. */
  ghost predicate Covered(w: World) {
    && Within(w.disk)
    && |w.sent| <= w.disk.requests && Sum(w.sent) <= w.disk.reserved
    && (w.process.Some? ==>
         var p := w.process.value;
         && Within(p.memory) && p.memory.ceiling == w.disk.ceiling && p.memory.rupees == w.disk.rupees
         && |w.sent| + |p.cleared| <= w.disk.requests
         && Sum(w.sent) + Sum(p.cleared) <= w.disk.reserved
         && (forall i :: 0 <= i < |p.cleared| ==> CostOf(p.cleared[i]) >= 0.0)
         && Saving(p) >= 0.0
         && w.disk.requests + (if p.saving.Some? then 1 else 0) <= p.memory.requests
         && w.disk.reserved + Saving(p) <= p.memory.reserved)
  }

  lemma StepCovered(w: World, e: Event)
    requires Covered(w)
    ensures Covered(Next(w, e))
  {
    match e
    case Send(i) => SendCovered(w, i);
    case Abandon(i) => AbandonCovered(w, i);
    case Save(succeeds) => SaveCovered(w, succeeds);
    case _ =>
      hide Sum;
      NothingToSum();
  }

  lemma NothingToSum()
    ensures Sum([]) == 0.0
  {
  }

  lemma SaveCovered(w: World, succeeds: bool)
    requires Covered(w)
    ensures Covered(Next(w, Save(succeeds)))
  {
    hide Sum;
    if w.process.Some? && w.process.value.saving.Some? {
      var p := w.process.value;
      SumNonnegative(p.cleared);
      SumSnoc(p.cleared, p.saving.value);
    }
  }

  lemma SendCovered(w: World, i: nat)
    requires Covered(w)
    ensures Covered(Next(w, Send(i)))
  {
    hide Sum;
    if w.process.Some? && i < |w.process.value.cleared| {
      var p := w.process.value;
      SumWithout(p.cleared, i);
      SumSnoc(w.sent, p.cleared[i]);
      SumNonnegative(Without(p.cleared, i));
    }
  }

  lemma AbandonCovered(w: World, i: nat)
    requires Covered(w)
    ensures Covered(Next(w, Abandon(i)))
  {
    hide Sum;
    if w.process.Some? && i < |w.process.value.cleared| {
      var p := w.process.value;
      SumWithout(p.cleared, i);
    }
  }

  lemma {:induction false} SumNonnegative(xs: seq<Request>)
    requires forall i :: 0 <= i < |xs| ==> CostOf(xs[i]) >= 0.0
    ensures Sum(xs) >= 0.0
    decreases |xs|
  {
    if xs != [] {
      SumNonnegative(xs[..|xs| - 1]);
    }
  }

  /** Tokens a provider can really count for some requests: each within its bytes, its allowance and the framing. */
  ghost predicate Countable(requests: seq<Request>, billed: seq<int>) {
    && |billed| == |requests|
    && forall i :: 0 <= i < |requests| ==> billed[i] <= requests[i].inputBytes + requests[i].maxTokens + 1024
  }

  function Tokens(billed: seq<int>): int {
    if billed == [] then 0 else Tokens(billed[..|billed| - 1]) + billed[|billed| - 1]
  }

  lemma {:induction false} BillWithinSum(requests: seq<Request>, billed: seq<int>)
    requires Countable(requests, billed)
    ensures Tokens(billed) as real * 396.0 / 1000000.0 <= Sum(requests)
    decreases |requests|
  {
    if requests != [] {
      var n := |requests| - 1;
      BillWithinSum(requests[..n], billed[..n]);
    }
  }

  /** The cost is no more than it has to be: some countable bill reaches it. */
  lemma {:induction false} SumIsReached(requests: seq<Request>) returns (billed: seq<int>)
    ensures Countable(requests, billed) && Tokens(billed) as real * 396.0 / 1000000.0 == Sum(requests)
    decreases |requests|
  {
    billed := [];
    if requests != [] {
      var n := |requests| - 1;
      var before := SumIsReached(requests[..n]);
      billed := before + [requests[n].inputBytes + requests[n].maxTokens + 1024];
      assert billed[..n] == before;
    }
  }

  /** The ceilings of the last process that was started and saved its ledger. */
  function LastApproved(w: World, events: seq<Event>): (int, real)
    decreases |events|
  {
    if events == [] then (w.disk.ceiling, w.disk.rupees)
    else
      var prior := events[..|events| - 1];
      var e := events[|events| - 1];
      if e.Restart? && e.saves && After(w, prior).process.None?
         && Carry(Written(After(w, prior).disk), e.requests, e.rupees).Some?
      then (e.requests, e.rupees)
      else LastApproved(w, prior)
  }

  /**
    Over any chain of processes, with a stop at any point between counting, saving and
    sending, the file never under-counts what was sent; so all requests and all their cost
    stay within the ceilings that were approved last.
  */
  lemma {:induction false} SentWithinApproval(requests: int, rupees: real, events: seq<Event>)
    requires requests >= 0 && rupees >= 0.0
    ensures var start := Begin(requests, rupees);
            var w := After(start, events);
            && Covered(w)
            && (w.disk.ceiling, w.disk.rupees) == LastApproved(start, events)
            && |w.sent| <= w.disk.requests <= LastApproved(start, events).0
            && Sum(w.sent) <= w.disk.reserved <= LastApproved(start, events).1
            && (forall billed :: Countable(w.sent, billed) ==>
                  Tokens(billed) as real * 396.0 / 1000000.0 <= w.disk.reserved)
    decreases |events|
  {
    var start := Begin(requests, rupees);
    forall billed | Countable(After(start, events).sent, billed)
      ensures Tokens(billed) as real * 396.0 / 1000000.0 <= Sum(After(start, events).sent)
    {
      BillWithinSum(After(start, events).sent, billed);
    }
    if events != [] {
      var n := |events| - 1;
      var w := After(start, events[..n]);
      SentWithinApproval(requests, rupees, events[..n]);
      hide Next, Covered, Sum;
      StepCovered(w, events[n]);
      StepApproves(w, events[n]);
      CoveredMeans(After(start, events));
    }
  }

  /** Only a process that starts and saves its ledger changes the approval, to its own ceilings. */
  lemma StepApproves(w: World, e: Event)
    requires Covered(w)
    ensures var v := Next(w, e);
            (v.disk.ceiling, v.disk.rupees)
            == if e.Restart? && e.saves && w.process.None? && Carry(Written(w.disk), e.requests, e.rupees).Some?
               then (e.requests, e.rupees) else (w.disk.ceiling, w.disk.rupees)
  {
    hide Sum, Cost, Carry;
  }

  lemma CoveredMeans(w: World)
    requires Covered(w)
    ensures |w.sent| <= w.disk.requests <= w.disk.ceiling && Sum(w.sent) <= w.disk.reserved <= w.disk.rupees
  {
    hide Sum;
  }

  lemma StepOnlyGrows(w: World, e: Event)
    requires Covered(w)
    ensures var v := Next(w, e);
            w.disk.ceiling <= v.disk.ceiling && w.disk.rupees <= v.disk.rupees && w.sent <= v.sent
  {
    hide Sum, Cost;
  }

  /** Neither approval ever shrinks, and nothing that was sent is forgotten. */
  lemma {:induction false} ApprovalsOnlyGrow(w: World, events: seq<Event>)
    requires Covered(w)
    ensures var v := After(w, events);
            Covered(v) && w.disk.ceiling <= v.disk.ceiling && w.disk.rupees <= v.disk.rupees && w.sent <= v.sent
    decreases |events|
  {
    if events != [] {
      var n := |events| - 1;
      hide Covered, Next;
      ApprovalsOnlyGrow(w, events[..n]);
      StepCovered(After(w, events[..n]), events[n]);
      StepOnlyGrows(After(w, events[..n]), events[n]);
    }
  }

  /** Everything but a stop, a failed save and a request given up before it is sent. */
  predicate Smooth(e: Event) {
    !e.Crash? && !e.Abandon? && e != Save(false)
  }

  /** A new process goes on exactly under ceilings that cover the file, with all its counts and nothing to send. */
  lemma CarriesOn(w: World, requests: int, rupees: real)
    requires Within(w.disk)
    ensures var v := Next(Next(w, Crash), Restart(requests, rupees, true));
            if w.disk.ceiling <= requests && w.disk.rupees <= rupees then
              var l := Ledger(w.disk.requests, requests, w.disk.reserved, rupees);
              v == World(l, Some(Process(l, None, [])), w.sent)
            else v == World(w.disk, None, w.sent)
  {
    CarryExactly(w.disk, requests, rupees);
  }

  /** On a smooth run the file counts exactly the requests sent or cleared for sending, and exactly their cost. */
  lemma {:induction false} SmoothRunsAreExact(requests: int, rupees: real, events: seq<Event>)
    requires forall i :: 0 <= i < |events| ==> Smooth(events[i])
    ensures var w := After(Begin(requests, rupees), events);
            && w.process.Some?
            && w.disk.requests == |w.sent| + |w.process.value.cleared|
            && w.disk.reserved == Sum(w.sent) + Sum(w.process.value.cleared)
            && w.process.value.memory.requests
               == w.disk.requests + (if w.process.value.saving.Some? then 1 else 0)
            && w.process.value.memory.reserved == w.disk.reserved + Saving(w.process.value)
    decreases |events|
  {
    if events != [] {
      var n := |events| - 1;
      SmoothRunsAreExact(requests, rupees, events[..n]);
      var w := After(Begin(requests, rupees), events[..n]);
      var p := w.process.value;
      assert Smooth(events[n]);
      match events[n]
      case Save(_) => if p.saving.Some? { SumSnoc(p.cleared, p.saving.value); }
      case Send(i) => if i < |p.cleared| { SumWithout(p.cleared, i); SumSnoc(w.sent, p.cleared[i]); }
      case _ =>
    }
  }

  /** So on a smooth run a countable bill for those requests comes to exactly what the file reserves. */
  lemma SmoothRunsAreTight(requests: int, rupees: real, events: seq<Event>) returns (sent: seq<int>, cleared: seq<int>)
    requires forall i :: 0 <= i < |events| ==> Smooth(events[i])
    ensures var w := After(Begin(requests, rupees), events);
            && w.process.Some?
            && Countable(w.sent, sent) && Countable(w.process.value.cleared, cleared)
            && (Tokens(sent) + Tokens(cleared)) as real * 396.0 / 1000000.0 == w.disk.reserved
  {
    SmoothRunsAreExact(requests, rupees, events);
    hide Sum, Next;
    var w := After(Begin(requests, rupees), events);
    sent := SumIsReached(w.sent);
    cleared := SumIsReached(w.process.value.cleared);
  }

  // ---------------------------------------------------------------- the object

  datatype Refusal = CeilingReached | InvalidAllowance | SaveFailed

  class LiveBudget {
    var state: Ledger
    var file: Ledger

    constructor (requests: int, rupees: real)
      ensures World(file, Some(Process(state, None, [])), []) == Begin(requests, rupees)
    {
      state := Ledger(0, requests, 0.0, rupees);
      file := Ledger(0, requests, 0.0, rupees);
    }

    constructor Holding(l: Ledger)
      ensures state == file == l
    {
      state, file := l, l;
    }

    /** A process that carries a previous ledger, unless the carry check refuses it. */
    static method Continue(previous: Document, requests: int, rupees: real) returns (budget: LiveBudget?)
      ensures budget == null <==> Carry(previous, requests, rupees).None?
      ensures budget != null ==>
        && fresh(budget) && budget.file == budget.state
        && budget.state == Ledger(Carry(previous, requests, rupees).value.0, requests,
                                  Carry(previous, requests, rupees).value.1, rupees)
    {
      var carried := Carry(previous, requests, rupees);
      if carried.None? {
        return null;
      }
      budget := new LiveBudget.Holding(Ledger(carried.value.0, requests, carried.value.1, rupees));
    }

    /** Counts a request and saves the ledger, both under the lock; only then may the caller send it. */
    method Reserve(inputBytes: nat, maxTokens: int, saveSucceeds: bool) returns (cleared: Result<Request, Refusal>)
      modifies this
      ensures forall others: seq<Request>, sent: seq<Request> ::
                var before := World(old(file), Some(Process(old(state), None, others)), sent);
                var after := Next(Next(before, Count(inputBytes, maxTokens)), Save(saveSucceeds));
                && after.disk == file && after.process.value.memory == state && after.sent == sent
                && after.process.value.cleared == if cleared.Returned? then others + [cleared.value] else others
      ensures cleared == Raised(InvalidAllowance) <==> !(1 <= maxTokens <= 1000000)
      ensures var cost := (inputBytes + maxTokens + 1024) as real * 396.0 / 1000000.0;
              && (cleared == Raised(CeilingReached) <==>
                    && 1 <= maxTokens <= 1000000
                    && (old(state).requests >= state.ceiling || old(state).reserved + cost > state.rupees))
              && state == if cleared == Raised(InvalidAllowance) || cleared == Raised(CeilingReached) then old(state)
                          else old(state).(requests := old(state).requests + 1, reserved := old(state).reserved + cost)
      ensures cleared.Returned? ==> cleared.value == Request(inputBytes, maxTokens) && saveSucceeds
      ensures file == if cleared.Returned? then state else old(file)
      ensures saveSucceeds ==> cleared != Raised(SaveFailed)
    {
      if !(1 <= maxTokens <= 1000000) {
        return Raised(InvalidAllowance);
      }
      var cost := Cost(inputBytes, maxTokens);
      if state.requests >= state.ceiling || state.reserved + cost > state.rupees {
        return Raised(CeilingReached);
      }
      state := state.(requests := state.requests + 1);
      state := state.(reserved := state.reserved + cost);
      if !saveSucceeds {
        return Raised(SaveFailed);
      }
      file := state;
      return Returned(Request(inputBytes, maxTokens));
    }
  }

  // ---------------------------------------------------------------- the ledger chain

  /** Ledger files by number, each with the file it carried, if any. */
  type Links = map<nat, Option<nat>>

  /** The file reached from the carried one in some number of hops. */
  function Hop(links: Links, carry: nat, hops: nat): nat {
    if hops == 0 then carry
    else
      var here := Hop(links, carry, hops - 1);
      if here in links && links[here].Some? then links[here].value else here
  }

  ghost predicate Distinct(links: Links, carry: nat, hops: nat) {
    forall i, j :: 0 <= i < j < hops ==> Hop(links, carry, i) != Hop(links, carry, j)
  }

  /** The first files of the walk are distinct and readable, and each carries another. */
  ghost predicate Linked(links: Links, carry: nat, hops: nat) {
    Distinct(links, carry, hops) &&
    forall i :: 0 <= i < hops ==> Hop(links, carry, i) in links && links[Hop(links, carry, i)].Some?
  }

  /** After some hops over distinct files the walk is at the root's own ledger, which carried nothing. */
  ghost predicate EndsAt(links: Links, carry: nat, root: nat, hops: nat) {
    && Linked(links, carry, hops) && Distinct(links, carry, hops + 1)
    && Hop(links, carry, hops) == root && root in links && links[root].None?
  }

  const MAX_HOPS := 20

  /** The chain ends at the root's ledger, or the walk is cut at the hop limit while standing on it. */
  ghost predicate Accepts(links: Links, carry: nat, root: nat) {
    || (exists hops: nat :: hops < MAX_HOPS && EndsAt(links, carry, root, hops))
    || (Linked(links, carry, MAX_HOPS) && Hop(links, carry, MAX_HOPS) == root)
  }

  lemma NotLinkedBeyond(links: Links, carry: nat, hops: nat, more: nat)
    requires hops <= more && !Linked(links, carry, hops)
    ensures !Linked(links, carry, more)
  {
    hide Hop;
  }

  lemma NotLinkedHere(links: Links, carry: nat, hops: nat)
    requires || !Distinct(links, carry, hops + 1) || Hop(links, carry, hops) !in links
             || links[Hop(links, carry, hops)].None?
    ensures !Linked(links, carry, hops + 1)
  {
    hide Hop, Distinct;
  }

  lemma LinkedBefore(links: Links, carry: nat, hops: nat, i: nat)
    requires i < hops && Linked(links, carry, hops)
    ensures Hop(links, carry, i) in links && links[Hop(links, carry, i)].Some?
  {
    hide Hop, Distinct;
  }

  /** A walk that cannot go on ends nowhere else. */
  lemma EndsHereOnly(links: Links, carry: nat, root: nat, hops: nat, h: nat)
    requires Linked(links, carry, hops) && !Linked(links, carry, hops + 1) && h != hops
    ensures !EndsAt(links, carry, root, h)
  {
    if h > hops {
      NotLinkedBeyond(links, carry, hops + 1, h);
    } else {
      LinkedBefore(links, carry, hops, h);
    }
    hide Hop, Linked, Distinct;
  }

  /** A walk that comes back to a file, or to a file that is not there, is not accepted. */
  lemma DeadEnd(links: Links, carry: nat, root: nat, hops: nat)
    requires hops < MAX_HOPS && Linked(links, carry, hops)
    requires !Distinct(links, carry, hops + 1) || Hop(links, carry, hops) !in links
    ensures !Accepts(links, carry, root)
  {
    hide Hop, Linked, Distinct;
    NotLinkedHere(links, carry, hops);
    NotLinkedBeyond(links, carry, hops + 1, MAX_HOPS);
    forall h: nat | h < MAX_HOPS
      ensures !EndsAt(links, carry, root, h)
    {
      if h != hops {
        EndsHereOnly(links, carry, root, hops, h);
      }
    }
  }

  /** A walk that comes to a file without a predecessor is accepted exactly if that is the root's. */
  lemma TrueEnd(links: Links, carry: nat, root: nat, hops: nat)
    requires hops < MAX_HOPS && Linked(links, carry, hops) && Distinct(links, carry, hops + 1)
    requires Hop(links, carry, hops) in links && links[Hop(links, carry, hops)].None?
    ensures Accepts(links, carry, root) <==> Hop(links, carry, hops) == root
  {
    hide Hop, Linked, Distinct;
    NotLinkedHere(links, carry, hops);
    NotLinkedBeyond(links, carry, hops + 1, MAX_HOPS);
    forall h: nat | h < MAX_HOPS && h != hops
      ensures !EndsAt(links, carry, root, h)
    {
      EndsHereOnly(links, carry, root, hops, h);
    }
    assert EndsAt(links, carry, root, hops) <==> Hop(links, carry, hops) == root;
  }

  /** After twenty hops over distinct files only the place of the walk counts. */
  lemma CutShort(links: Links, carry: nat, root: nat)
    requires Linked(links, carry, MAX_HOPS)
    ensures Accepts(links, carry, root) <==> Hop(links, carry, MAX_HOPS) == root
  {
    hide Hop;
  }

  /** Accepts exactly the chains that end at the root's ledger, and walks cut at the hop limit while standing on it. */
  method WalkChain(links: Links, carry: nat, root: nat) returns (accepted: bool)
    ensures accepted <==> Accepts(links, carry, root)
  {
    hide Accepts;
    var cursor, seen := carry, {};
    var hops := 0;
    while hops < MAX_HOPS
      invariant 0 <= hops <= MAX_HOPS
      invariant cursor == Hop(links, carry, hops) && Linked(links, carry, hops)
      invariant forall x :: x in seen <==> exists i :: 0 <= i < hops && x == Hop(links, carry, i)
    {
      if cursor in seen {
        DeadEnd(links, carry, root, hops);
        return false;
      }
      seen := seen + {cursor};
      if cursor !in links {
        DeadEnd(links, carry, root, hops);
        return false;
      }
      if links[cursor].None? {
        TrueEnd(links, carry, root, hops);
        return cursor == root;
      }
      cursor := links[cursor].value;
      hops := hops + 1;
    }
    CutShort(links, carry, root);
    return cursor == root;
  }

  /** The files 0, 1, ..., n - 1, each carrying the next; file 19 carries file 1 again. */
  function Ring(n: nat): (links: Links)
    ensures forall i: nat :: i in links <==> i < n
    ensures forall i: nat :: i < n ==> links[i] == Some(if i == 19 then 1 else i + 1)
  {
    if n == 0 then map[] else Ring(n - 1)[n - 1 := Some(if n == 20 then 1 else n)]
  }

  /** A cycle is accepted when the hop limit happens to fall on the root's ledger inside it. */
  lemma CycleCanBeAccepted()
    ensures Linked(Ring(20), 0, MAX_HOPS) && Hop(Ring(20), 0, MAX_HOPS) == 1 && Ring(20)[1] == Some(2)
    ensures Accepts(Ring(20), 0, 1)
  {
    hide Ring;
    var links := Ring(20);
    forall i: nat | i < MAX_HOPS
      ensures Hop(links, 0, i) == i
    {
      HopsInOrder(links, i);
    }
    assert links[Hop(links, 0, 19)] == Some(1);
  }

  lemma {:induction false} HopsInOrder(links: Links, hops: nat)
    requires forall i: nat :: i < hops ==> i in links && links[i] == Some(i + 1)
    ensures Hop(links, 0, hops) == hops
    decreases hops
  {
    if hops > 0 {
      HopsInOrder(links, hops - 1);
    }
  }

  /** A straight chain of n hops to the root's ledger. */
  function Line(n: nat): (links: Links)
    ensures forall i: nat :: i in links <==> i <= n
    ensures forall i: nat :: i <= n ==> links[i] == if i < n then Some(i + 1) else None
  {
    if n == 0 then map[0 := None] else Line(n - 1)[n - 1 := Some(n)][n := None]
  }

  /** A true chain is accepted exactly up to twenty hops. */
  lemma StraightChainsAccepted(n: nat)
    ensures Accepts(Line(n), 0, n) <==> n <= 20
  {
    var links := Line(n);
    forall h: nat | h <= n
      ensures Hop(links, 0, h) == h
    {
      HopsInOrder(links, h);
    }
    hide Hop, Line;
    if n < MAX_HOPS {
      assert EndsAt(links, 0, n, n);
    } else if n == MAX_HOPS {
      assert Linked(links, 0, MAX_HOPS);
    } else {
      assert Hop(links, 0, MAX_HOPS) == MAX_HOPS;
    }
  }
}
