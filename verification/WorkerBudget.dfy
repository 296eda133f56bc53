/**
  The shared spend ceiling of concurrent model streams
  (scripts/run_native_live_workers_browser.py: BudgetClient, UsageResponse,
  complete_ledger_usage).

  Every stream is a thread that reserves its worst case under the lock, opens the
  provider response, observes its lines, and settles under the lock when it ends.
  `Next` is one such atomic step; a run is any sequence of steps of any number of
  streams. Rupees are exact reals.
*/
module WorkerBudget {
  import opened Basics

  /** Rupees for some number of tokens at the highest rate. */
  function Price(tokens: int): real {
    tokens as real * 396.0 / 1000000.0
  }

  // ---------------------------------------------------------------- usage reports

  datatype Field = Missing | NotNumber | Fractional(x: real) | Whole(n: int)

  datatype Usage = Usage(input: Field, output: Field, total: Field)

  /** All three counts are nonnegative integers and the total covers both parts. */
  predicate Valid(u: Usage) {
    && u.input.Whole? && u.output.Whole? && u.total.Whole?
    && u.input.n >= 0 && u.output.n >= 0 && u.total.n >= 0
    && u.total.n >= u.input.n + u.output.n
  }

  /** Three whole counts, none negative, the third at least the first two together. */
  predicate Coherent(u: Usage) {
    match u
    case Usage(Whole(i), Whole(o), Whole(t)) => i >= 0 && o >= 0 && i + o <= t
    case _ => false
  }

  lemma ValidIsCoherent(u: Usage)
    ensures Valid(u) <==> Coherent(u)
  {
    match u
    case Usage(Whole(_), Whole(_), Whole(_)) =>
    case _ =>
  }

  /** A line of the response: not data, the end marker, unreadable data, or a chunk with or without usage. */
  datatype Line = Other | Done | Unreadable | Chunk(usage: Option<Usage>)

  datatype Probe = Probe(tokens: Option<nat>, complete: bool)

  const Unobserved := Probe(None, false)

  predicate Reports(line: Line) {
    line.Chunk? && line.usage.Some? && Valid(line.usage.value)
  }

  function Observe(p: Probe, line: Line): Probe {
    if line.Done? then p.(complete := true)
    else if Reports(line) then p.(tokens := Some(line.usage.value.total.n))
    else p
  }

  function ObserveAll(p: Probe, lines: seq<Line>): Probe {
    if lines == [] then p else Observe(ObserveAll(p, lines[..|lines| - 1]), lines[|lines| - 1])
  }

  /** The line reports a coherent usage of that many tokens. */
  predicate Says(line: Line, tokens: int) {
    line.Chunk? && line.usage.Some? && Coherent(line.usage.value) && line.usage.value.total == Whole(tokens)
  }

  ghost predicate Silent(line: Line) {
    forall tokens :: !Says(line, tokens)
  }

  ghost predicate IsLastReport(lines: seq<Line>, i: int, tokens: int) {
    0 <= i < |lines| && Says(lines[i], tokens) && forall j :: i < j < |lines| ==> Silent(lines[j])
  }

  lemma ReportsAreSaid(line: Line)
    ensures Reports(line) <==> !Silent(line)
    ensures Reports(line) ==> Says(line, line.usage.value.total.n)
  {
    if line.Chunk? && line.usage.Some? {
      ValidIsCoherent(line.usage.value);
      if Reports(line) {
        assert Says(line, line.usage.value.total.n);
      }
    }
  }

  /** A probe ends complete exactly when the end marker came, and holds the last valid report. */
  lemma {:induction false} ObserveMeaning(lines: seq<Line>)
    ensures var p := ObserveAll(Unobserved, lines);
            && p.complete == (Done in lines)
            && (p.tokens.None? <==> forall i :: 0 <= i < |lines| ==> Silent(lines[i]))
            && (p.tokens.Some? ==> exists i :: IsLastReport(lines, i, p.tokens.value))
  {
    if lines != [] {
      var n := |lines| - 1;
      ObserveMeaning(lines[..n]);
      ReportsAreSaid(lines[n]);
      assert lines == lines[..n] + [lines[n]];
      var before := ObserveAll(Unobserved, lines[..n]).tokens;
      if Reports(lines[n]) {
        assert IsLastReport(lines, n, lines[n].usage.value.total.n);
      } else if before.Some? {
        var i :| IsLastReport(lines[..n], i, before.value);
        assert IsLastReport(lines, i, before.value);
      } else {
        assert forall i :: 0 <= i < n ==> lines[i] == lines[..n][i];
      }
    }
  }

  class UsageResponse {
    var tokens: Option<nat>
    var complete: bool

    constructor ()
      ensures View() == Unobserved
    {
      tokens, complete := None, false;
    }

    function View(): Probe
      reads this
    {
      Probe(tokens, complete)
    }

    /** Passes every line on unchanged and keeps account of the usage reports among them. */
    method IterLines(lines: seq<Line>) returns (yielded: seq<Line>)
      modifies this
      ensures yielded == lines
      ensures View() == ObserveAll(old(View()), lines)
    {
      yielded := [];
      for i := 0 to |lines|
        invariant yielded == lines[..i]
        invariant View() == ObserveAll(old(View()), lines[..i])
      {
        assert lines[..i + 1][..i] == lines[..i];
        match lines[i] {
          case Done => complete := true;
          case Chunk(usage) =>
            if usage.Some? && Valid(usage.value) {
              tokens := Some(usage.value.total.n);
            }
          case _ =>
        }
        yielded := yielded + [lines[i]];
      }
      assert lines[..|lines|] == lines;
    }
  }

  // ---------------------------------------------------------------- one budget

  datatype Limits = Limits(rupees: real, ceiling: int, outputTokens: int)

  predicate Authorized(l: Limits) {
    0.0 < l.rupees <= 300.0 && 1 <= l.ceiling <= 32 && 1 <= l.outputTokens <= 8192
  }

  datatype Budget = Budget(limits: Limits, requests: int, reserved: real, active: int, peak: int,
                           blocked: int, exhausted: bool, reportedRequests: int, reportedTokens: int)

  function NewBudget(l: Limits): Budget {
    Budget(l, 0, 0.0, 0, 0, 0, false, 0, 0)
  }

  /** The output cap a request is sent with: an absent or zero allowance means the full cap. */
  function Capped(l: Limits, asked: Option<int>): int {
    var wanted := if asked.None? || asked.value == 0 then l.outputTokens else asked.value;
    if wanted <= l.outputTokens then wanted else l.outputTokens
  }

  function Reservation(inputBytes: nat, maxTokens: int): real {
    Price(inputBytes + 1024 + maxTokens)
  }

  function Settlement(tokens: nat): real {
    Price(tokens + 1024)
  }

  predicate Admits(b: Budget, reserve: real) {
    !(b.requests >= b.limits.ceiling || b.reserved + reserve > b.limits.rupees)
  }

  function AfterReserve(b: Budget, reserve: real): Budget {
    if Admits(b, reserve) then b.(requests := b.requests + 1, reserved := b.reserved + reserve)
    else b.(blocked := b.blocked + 1, exhausted := true)
  }

  function AfterOpened(b: Budget): Budget {
    b.(active := b.active + 1, peak := MaxInt(b.peak, b.active + 1))
  }

  function AfterFinished(b: Budget, reserve: real, p: Probe): Budget {
    var idle := b.(active := b.active - 1);
    if p.complete && p.tokens.Some? then
      var reserved := b.reserved + (Settlement(p.tokens.value) - reserve);
      idle.(reserved := reserved,
            reportedRequests := b.reportedRequests + 1,
            reportedTokens := b.reportedTokens + p.tokens.value,
            exhausted := b.exhausted || reserved > b.limits.rupees)
    else idle
  }

  // ---------------------------------------------------------------- interleavings

  datatype Phase = Reserved | Streaming | Refused | Closed

  datatype Call = Call(inputBytes: nat, maxTokens: int, phase: Phase, probe: Probe) {
    function Reserve(): real {
      Reservation(inputBytes, maxTokens)
    }

    /** A complete stream that reported its usage. */
    predicate Settled() {
      phase == Closed && probe.complete && probe.tokens.Some?
    }

    function Cost(): real {
      if Settled() then Settlement(probe.tokens.value) else Reserve()
    }
  }

  /** The admitted calls in the order of their admission, beside the shared counters. */
  datatype System = System(budget: Budget, calls: seq<Call>)

  datatype Event =
    | Begin(inputBytes: nat, asked: Option<int>)
    | Open(i: nat)
    | Refuse(i: nat)
    | See(i: nat, line: Line)
    | Finish(i: nat)

  /** One atomic step. A step whose stream is not where the step starts changes nothing. */
  function Next(s: System, e: Event): System {
    match e
    case Begin(inputBytes, asked) =>
      var call := Call(inputBytes, Capped(s.budget.limits, asked), Reserved, Unobserved);
      System(AfterReserve(s.budget, call.Reserve()),
             if Admits(s.budget, call.Reserve()) then s.calls + [call] else s.calls)
    case Open(i) =>
      if i < |s.calls| && s.calls[i].phase == Reserved then
        System(AfterOpened(s.budget), s.calls[i := s.calls[i].(phase := Streaming)])
      else s
    case Refuse(i) =>
      if i < |s.calls| && s.calls[i].phase == Reserved then
        s.(calls := s.calls[i := s.calls[i].(phase := Refused)])
      else s
    case See(i, line) =>
      if i < |s.calls| && s.calls[i].phase == Streaming then
        s.(calls := s.calls[i := s.calls[i].(probe := Observe(s.calls[i].probe, line))])
      else s
    case Finish(i) =>
      if i < |s.calls| && s.calls[i].phase == Streaming then
        System(AfterFinished(s.budget, s.calls[i].Reserve(), s.calls[i].probe),
               s.calls[i := s.calls[i].(phase := Closed)])
      else s
  }

  function After(s: System, events: seq<Event>): System
    decreases |events|
  {
    if events == [] then s else Next(After(s, events[..|events| - 1]), events[|events| - 1])
  }

  function Total(calls: seq<Call>): real {
    if calls == [] then 0.0 else Total(calls[..|calls| - 1]) + calls[|calls| - 1].Cost()
  }

  function StreamingCount(calls: seq<Call>): nat {
    if calls == [] then 0
    else StreamingCount(calls[..|calls| - 1]) + (if calls[|calls| - 1].phase == Streaming then 1 else 0)
  }

  function SettledCount(calls: seq<Call>): nat {
    if calls == [] then 0
    else SettledCount(calls[..|calls| - 1]) + (if calls[|calls| - 1].Settled() then 1 else 0)
  }

  function SettledTokens(calls: seq<Call>): nat {
    if calls == [] then 0
    else
      var last := calls[|calls| - 1];
      SettledTokens(calls[..|calls| - 1]) + (if last.Settled() then last.probe.tokens.value else 0)
  }

  /** The most streams that were open at once at any moment of the run. */
  function MostOpen(s: System, events: seq<Event>): int
    decreases |events|
  {
    if events == [] then s.budget.peak
    else MaxInt(MostOpen(s, events[..|events| - 1]), StreamingCount(After(s, events).calls))
  }

  lemma {:induction false} TotalsOfUpdate(calls: seq<Call>, i: nat, c: Call)
    requires i < |calls|
    ensures Total(calls[i := c]) == Total(calls) - calls[i].Cost() + c.Cost()
    ensures StreamingCount(calls[i := c]) == StreamingCount(calls)
        - (if calls[i].phase == Streaming then 1 else 0) + (if c.phase == Streaming then 1 else 0)
    ensures SettledCount(calls[i := c]) == SettledCount(calls)
        - (if calls[i].Settled() then 1 else 0) + (if c.Settled() then 1 else 0)
    ensures SettledTokens(calls[i := c]) == SettledTokens(calls)
        - (if calls[i].Settled() then calls[i].probe.tokens.value else 0)
        + (if c.Settled() then c.probe.tokens.value else 0)
    decreases |calls|
  {
    var n := |calls| - 1;
    if i == n {
      assert calls[i := c][..n] == calls[..n];
    } else {
      assert calls[i := c][..n] == calls[..n][i := c];
      TotalsOfUpdate(calls[..n], i, c);
    }
  }

  /** The counters say exactly what the calls say, on top of what the budget started with. */
  ghost predicate Accounted(start: Budget, s: System) {
    && s.budget.limits == start.limits
    && s.budget.requests == start.requests + |s.calls|
    && s.budget.reserved == start.reserved + Total(s.calls)
    && s.budget.active == start.active + StreamingCount(s.calls)
    && s.budget.reportedRequests == start.reportedRequests + SettledCount(s.calls)
    && s.budget.reportedTokens == start.reportedTokens + SettledTokens(s.calls)
    && s.budget.requests <= MaxInt(start.requests, start.limits.ceiling)
  }

  lemma StepAccounted(start: Budget, s: System, e: Event)
    requires Accounted(start, s)
    ensures Accounted(start, Next(s, e))
  {
    hide Settlement, Reservation;
    var t := Next(s, e);
    if e.Begin? {
      if |t.calls| > |s.calls| {
        assert t.calls[..|t.calls| - 1] == s.calls;
      }
    } else if e.i < |s.calls| {
      TotalsOfUpdate(s.calls, e.i, t.calls[e.i]);
      assert s.calls[e.i := t.calls[e.i]] == t.calls;
    }
  }

  lemma {:induction false} RunAccounted(start: Budget, events: seq<Event>)
    ensures Accounted(start, After(System(start, []), events))
    decreases |events|
  {
    if events != [] {
      var n := |events| - 1;
      RunAccounted(start, events[..n]);
      StepAccounted(start, After(System(start, []), events[..n]), events[n]);
    }
  }

  /** The peak counter is the largest number of streams that were ever open together. */
  lemma {:induction false} PeakIsMostOpen(start: Budget, events: seq<Event>)
    requires start.active == 0 <= start.peak
    ensures var s := After(System(start, []), events);
            s.budget.peak == MostOpen(System(start, []), events) >= s.budget.active
    decreases |events|
  {
    hide Settlement, Reservation;
    RunAccounted(start, events);
    if events != [] {
      PeakIsMostOpen(start, events[..|events| - 1]);
    }
  }

  /**
    In every interleaving of any number of streams, the reservation is the sum over the
    admitted requests of the settled cost, or else of the full reservation, and the request
    count is the number of admitted requests and stays within the ceiling.
  */
  lemma EveryRunAccounted(l: Limits, events: seq<Event>)
    requires Authorized(l)
    ensures var s := After(System(NewBudget(l), []), events);
            && s.budget.reserved == Total(s.calls) == ChargedTokens(s.calls) as real * 396.0 / 1000000.0
            && s.budget.requests == |s.calls| <= l.ceiling
            && s.budget.active == StreamingCount(s.calls)
            && s.budget.peak == MostOpen(System(NewBudget(l), []), events)
            && s.budget.reportedRequests == SettledCount(s.calls)
            && s.budget.reportedTokens == SettledTokens(s.calls)
  {
    RunAccounted(NewBudget(l), events);
    PeakIsMostOpen(NewBudget(l), events);
    TotalIsPriced(After(System(NewBudget(l), []), events).calls);
  }

  /** How many streams were begun, admitted or not. */
  function Begun(events: seq<Event>): nat {
    if events == [] then 0 else Begun(events[..|events| - 1]) + if events[|events| - 1].Begin? then 1 else 0
  }

  /** At some point of the run the reservation was above the ceiling. */
  ghost predicate Overspent(s: System, events: seq<Event>) {
    exists k :: 0 <= k <= |events| && After(s, events[..k]).budget.reserved > s.budget.limits.rupees
  }

  lemma OverspentLater(s: System, events: seq<Event>)
    requires events != [] && Overspent(s, events[..|events| - 1])
    ensures Overspent(s, events)
  {
    hide After;
    var n := |events| - 1;
    var k :| 0 <= k <= n && After(s, events[..n][..k]).budget.reserved > s.budget.limits.rupees;
    assert events[..n][..k] == events[..k];
  }

  /**
    Each stream that was begun is admitted or counted as blocked, and the exhausted flag is
    raised only by blocking a stream or by a settlement above the ceiling.
  */
  lemma {:induction false} BlockedExactly(start: Budget, events: seq<Event>)
    requires !start.exhausted
    ensures var s := After(System(start, []), events);
            && s.budget.blocked - start.blocked + |s.calls| == Begun(events)
            && s.budget.blocked >= start.blocked
            && (s.budget.exhausted ==> s.budget.blocked > start.blocked || Overspent(System(start, []), events))
    decreases |events|
  {
    if events != [] {
      var n := |events| - 1;
      var s := System(start, []);
      BlockedExactly(start, events[..n]);
      RunAccounted(start, events);
      if Overspent(s, events[..n]) {
        OverspentLater(s, events);
      }
      assert events[..n + 1] == events;
    }
  }

  // ---------------------------------------------------------------- caps and prices

  /** The output cap a request is sent with: what it asks for up to the limit, otherwise the limit. */
  predicate AsAsked(l: Limits, asked: Option<int>, cap: int) {
    if asked.Some? && asked.value != 0 && asked.value <= l.outputTokens then cap == asked.value
    else cap == l.outputTokens
  }

  lemma CappedAsAsked(l: Limits, asked: Option<int>)
    ensures AsAsked(l, asked, Capped(l, asked)) && Capped(l, asked) <= l.outputTokens
  {
  }

  /** A call of that size was begun, and is sent with the cap it was begun for. */
  ghost predicate BegunAs(l: Limits, e: Event, c: Call) {
    e.Begin? && e.inputBytes == c.inputBytes && AsAsked(l, e.asked, c.maxTokens)
  }

  /** In every run each admitted call has the bytes and the cap of a call that was begun, and no cap above the limit. */
  lemma {:induction false} EveryCallCapped(start: Budget, events: seq<Event>)
    ensures forall c <- After(System(start, []), events).calls ::
              c.maxTokens <= start.limits.outputTokens && exists e <- events :: BegunAs(start.limits, e, c)
    decreases |events|
  {
    if events != [] {
      var n := |events| - 1;
      var before := After(System(start, []), events[..n]);
      EveryCallCapped(start, events[..n]);
      RunAccounted(start, events[..n]);
      assert forall e <- events[..n] :: e in events;
      assert events[n] in events;
      if events[n].Begin? {
        CappedAsAsked(start.limits, events[n].asked);
      }
      hide Capped, AsAsked, After, Accounted;
      StepKeepsSizes(before, events[n]);
    }
  }

  /** What authorized limits come to: at most 32 calls, none for more than 8192 tokens, for 300 rupees. */
  lemma AuthorizedRuns(l: Limits, events: seq<Event>)
    requires Authorized(l)
    ensures var s := After(System(NewBudget(l), []), events);
            && |s.calls| <= 32 && (forall c <- s.calls :: c.maxTokens <= 8192)
            && (Modest(s.calls) ==> s.budget.reserved <= 300.0)
  {
    EveryRunAccounted(l, events);
    EveryCallCapped(NewBudget(l), events);
    if Modest(After(System(NewBudget(l), []), events).calls) {
      SpendStaysWithin(NewBudget(l), events, []);
    }
  }

  /** A step changes the size of no call. */
  lemma StepKeepsSizes(s: System, e: Event)
    ensures var t := Next(s, e);
            && |s.calls| <= |t.calls| <= |s.calls| + 1
            && (forall i :: 0 <= i < |s.calls| ==>
                  t.calls[i].inputBytes == s.calls[i].inputBytes && t.calls[i].maxTokens == s.calls[i].maxTokens)
            && (|t.calls| > |s.calls| ==>
                  && e.Begin? && t.calls[|s.calls|].inputBytes == e.inputBytes
                  && t.calls[|s.calls|].maxTokens == Capped(s.budget.limits, e.asked))
  {
    hide Reservation, Settlement, Capped;
  }

  /** The tokens a call is charged for: those it reported when it settled, else its whole worst case, with framing. */
  function ChargedTokens(calls: seq<Call>): int {
    if calls == [] then 0
    else
      var c := calls[|calls| - 1];
      ChargedTokens(calls[..|calls| - 1])
      + match c
        case Call(_, _, Closed, Probe(Some(tokens), true)) => tokens + 1024
        case Call(bytes, cap, _, _) => bytes + cap + 1024
  }

  lemma {:induction false} TotalIsPriced(calls: seq<Call>)
    ensures Total(calls) == ChargedTokens(calls) as real * 396.0 / 1000000.0
    decreases |calls|
  {
    if calls != [] {
      TotalIsPriced(calls[..|calls| - 1]);
    }
  }

  /** No stream reported more tokens than the bytes it sent plus its output cap. */
  ghost predicate Modest(calls: seq<Call>) {
    forall i :: 0 <= i < |calls| && calls[i].Settled()
      ==> calls[i].probe.tokens.value <= calls[i].inputBytes + calls[i].maxTokens
  }

  /** Tokens the provider really counted: within the reserved worst case, and within any settled report. */
  ghost predicate Plausible(calls: seq<Call>, billed: seq<int>) {
    && |billed| == |calls|
    && forall i :: 0 <= i < |calls| ==>
         && billed[i] <= calls[i].inputBytes + 1024 + calls[i].maxTokens
         && (calls[i].Settled() ==> billed[i] <= calls[i].probe.tokens.value + 1024)
  }

  function Bill(billed: seq<int>): real {
    if billed == [] then 0.0 else Bill(billed[..|billed| - 1]) + Price(billed[|billed| - 1])
  }

  function TokensOf(billed: seq<int>): int {
    if billed == [] then 0 else TokensOf(billed[..|billed| - 1]) + billed[|billed| - 1]
  }

  lemma {:induction false} BillIsPriced(billed: seq<int>)
    ensures Bill(billed) == TokensOf(billed) as real * 396.0 / 1000000.0
    decreases |billed|
  {
    if billed != [] {
      BillIsPriced(billed[..|billed| - 1]);
    }
  }

  /** The reservation is no more than it has to be: with modest reports a plausible bill reaches it. */
  lemma {:induction false} WorstBillReached(calls: seq<Call>) returns (billed: seq<int>)
    requires Modest(calls)
    ensures Plausible(calls, billed) && TokensOf(billed) as real * 396.0 / 1000000.0 == Total(calls)
    decreases |calls|
  {
    billed := [];
    if calls != [] {
      var n := |calls| - 1;
      var before := WorstBillReached(calls[..n]);
      var c := calls[n];
      billed := before + [if c.Settled() then c.probe.tokens.value + 1024 else c.inputBytes + 1024 + c.maxTokens];
      assert billed[..n] == before;
    }
  }

  lemma {:induction false} BillWithinTotal(calls: seq<Call>, billed: seq<int>)
    requires Plausible(calls, billed)
    ensures Bill(billed) <= Total(calls)
    ensures TokensOf(billed) as real * 396.0 / 1000000.0 <= Total(calls)
    decreases |calls|
  {
    BillIsPriced(billed);
    if calls != [] {
      var n := |calls| - 1;
      assert Plausible(calls[..n], billed[..n]);
      BillWithinTotal(calls[..n], billed[..n]);
    }
  }

  /** A closed call stays as it is, so a modest state has only modest states before it. */
  lemma ModestBefore(s: System, e: Event)
    requires Modest(Next(s, e).calls)
    ensures Modest(s.calls)
  {
    forall i | 0 <= i < |s.calls| && s.calls[i].Settled()
      ensures s.calls[i].probe.tokens.value <= s.calls[i].inputBytes + s.calls[i].maxTokens
    {
      assert Next(s, e).calls[i] == s.calls[i];
    }
  }

  /** With modest reports a run never takes the reservation above the ceiling, or above where it started. */
  lemma {:induction false} ReservedStaysWithin(start: Budget, events: seq<Event>, bound: real)
    requires start.reserved <= bound && start.limits.rupees <= bound
    requires Modest(After(System(start, []), events).calls)
    ensures After(System(start, []), events).budget.reserved <= bound
    decreases |events|
  {
    var s := After(System(start, []), events);
    RunAccounted(start, events);
    if events != [] {
      var n := |events| - 1;
      var before := After(System(start, []), events[..n]);
      ModestBefore(before, events[n]);
      ReservedStaysWithin(start, events[..n], bound);
      RunAccounted(start, events[..n]);
      if events[n].Finish? && events[n].i < |before.calls| {
        assert s == before || s.calls[events[n].i].phase == Closed;
      }
    }
  }

  /**
    The money theorem. If no stream reports more than its worst case, then at every point
    of every run neither the reservation nor what was spent before plus any plausible bill
    exceeds the approved rupees.
  */
  lemma SpendStaysWithin(start: Budget, events: seq<Event>, billed: seq<int>)
    requires start.reserved <= start.limits.rupees
    requires Modest(After(System(start, []), events).calls)
    ensures After(System(start, []), events).budget.reserved <= start.limits.rupees
    ensures Plausible(After(System(start, []), events).calls, billed)
            ==> start.reserved + TokensOf(billed) as real * 396.0 / 1000000.0 <= start.limits.rupees
  {
    var s := After(System(start, []), events);
    RunAccounted(start, events);
    ReservedStaysWithin(start, events, start.limits.rupees);
    if Plausible(s.calls, billed) {
      BillWithinTotal(s.calls, billed);
      BillIsPriced(billed);
    }
  }

  /** Without any assumption about the reports: an overspent budget is always flagged as exhausted. */
  lemma {:induction false} OverspendIsFlagged(s: System, events: seq<Event>)
    requires s.budget.reserved > s.budget.limits.rupees ==> s.budget.exhausted
    ensures var t := After(s, events);
            t.budget.reserved > t.budget.limits.rupees ==> t.budget.exhausted
    ensures s.budget.exhausted ==> After(s, events).budget.exhausted
    decreases |events|
  {
    if events != [] {
      OverspendIsFlagged(s, events[..|events| - 1]);
    }
  }

  /** A new budget after one request that was admitted, streamed and reported its tokens. */
  function AfterOneRequest(l: Limits, reserve: real, tokens: nat): Budget {
    AfterFinished(AfterOpened(AfterReserve(NewBudget(l), reserve)), reserve, Probe(Some(tokens), true))
  }

  /**
    One request that settles stays within every authorized ceiling that admits it if and only
    if it reports no more tokens than its payload bytes plus its output cap.
  */
  lemma ModestExactly(inputBytes: nat, maxTokens: nat, tokens: nat)
    requires Reservation(inputBytes, maxTokens) <= 300.0
    ensures (forall l: Limits :: Authorized(l) && Admits(NewBudget(l), Reservation(inputBytes, maxTokens)) ==>
               AfterOneRequest(l, Reservation(inputBytes, maxTokens), tokens).reserved <= l.rupees)
            <==> tokens <= inputBytes + maxTokens
  {
    var reserve := Reservation(inputBytes, maxTokens);
    assert Settlement(tokens) <= reserve <==> tokens <= inputBytes + maxTokens;
    var tight := Limits(reserve, 1, 1);
    assert reserve > 0.0;
    assert Authorized(tight) && Admits(NewBudget(tight), reserve);
    assert AfterOneRequest(tight, reserve, tokens).reserved == Settlement(tokens);
  }

  /** Overspending needs a report above the worst case: this one costs more than the ceiling. */
  lemma ImmodestReportOverspends()
    ensures var l := Limits(1.0, 1, 1);
            var usage := Usage(Whole(10000), Whole(0), Whole(10000));
            var s := After(System(NewBudget(l), []),
                           [Begin(0, None), Open(0), See(0, Chunk(Some(usage))), See(0, Done), Finish(0)]);
            s.budget.reserved > l.rupees && s.budget.exhausted
  {
    var l := Limits(1.0, 1, 1);
    var usage := Usage(Whole(10000), Whole(0), Whole(10000));
    var es := [Begin(0, None), Open(0), See(0, Chunk(Some(usage))), See(0, Done), Finish(0)];
    var s0 := System(NewBudget(l), []);
    assert es[..4] == [Begin(0, None), Open(0), See(0, Chunk(Some(usage))), See(0, Done)];
    assert es[..4][..3] == [Begin(0, None), Open(0), See(0, Chunk(Some(usage)))];
    assert es[..4][..3][..2] == [Begin(0, None), Open(0)];
    assert es[..4][..3][..2][..1] == [Begin(0, None)];
    assert After(s0, [Begin(0, None)]).calls == [Call(0, 1, Reserved, Unobserved)];
    assert After(s0, es[..4][..3][..2]).calls == [Call(0, 1, Streaming, Unobserved)];
    assert After(s0, es[..4][..3]).calls == [Call(0, 1, Streaming, Probe(Some(10000), false))];
    assert After(s0, es[..4]).calls == [Call(0, 1, Streaming, Probe(Some(10000), true))];
  }

  // ---------------------------------------------------------------- continuation

  /** What a run's report keeps of its budget. */
  datatype Report = Report(requests: int, reservedEstimate: real, peak: int)

  predicate WholePaise(rupees: real) {
    rupees * 100.0 == (rupees * 100.0).Floor as real
  }

  function Summarize(b: Budget): Report {
    Report(b.requests, Ceiling(b.reserved * 100.0) as real / 100.0, b.peak)
  }

  /** The estimate is the least number of whole paise that covers the reservation. */
  lemma SummaryCovers(b: Budget, paise: int)
    ensures var estimate := Summarize(b).reservedEstimate;
            && b.reserved <= estimate < b.reserved + 0.01 && WholePaise(estimate)
            && (b.reserved <= paise as real / 100.0 ==> estimate <= paise as real / 100.0)
  {
    var c := Ceiling(b.reserved * 100.0);
    PaiseAreWhole(c);
    if b.reserved <= paise as real / 100.0 {
      assert c as real < (paise + 1) as real;
      assert c <= paise;
    }
  }

  lemma PaiseAreWhole(c: int)
    ensures WholePaise(c as real / 100.0)
  {
    assert c as real / 100.0 * 100.0 == c as real;
  }

  datatype Ledger = Ledger(requests: int, tokens: nat)

  function Carried(blank: Budget, previous: Report, ledger: Option<Ledger>): Result<Budget, ()> {
    if !(0 <= previous.requests < blank.limits.ceiling)
       || !(0.0 <= previous.reservedEstimate < blank.limits.rupees) then
      Raised(())
    else
      var b := blank.(requests := previous.requests,
                      reserved := previous.reservedEstimate + 0.01,
                      peak := previous.peak);
      if ledger.Some? && ledger.value.requests == previous.requests then
        Returned(b.(reportedRequests := previous.requests,
                    reportedTokens := ledger.value.tokens,
                    reserved := Price(ledger.value.tokens + 1024 * previous.requests)))
      else Returned(b)
  }

  /** A continuation without a ledger starts with the request count and more than the charge of its predecessor. */
  lemma CarryKeepsTheCharge(b: Budget, blank: Budget)
    ensures var r := Carried(blank, Summarize(b), None);
            r.Returned? ==> r.value.requests == b.requests && r.value.reserved >= b.reserved + 0.01
                            && r.value.peak == b.peak && r.value.limits == blank.limits
  {
    var c := Ceiling(b.reserved * 100.0) as real;
    assert c / 100.0 >= b.reserved;
  }

  /** A ledger replaces the estimate when it accounts for every earlier request. */
  predicate Accepted(previous: Report, ledger: Option<Ledger>) {
    ledger.Some? && ledger.value.requests == previous.requests
  }

  /**
    The restored reservation can exceed the new ceiling without the budget being flagged. A
    continuation with an accepted ledger never does so exactly when all the ledger's tokens
    with their framing fit under the ceiling, one without exactly when the estimate is at
    least a paisa below it.
  */
  lemma CarryFlaggedExactly(blank: Budget, previous: Report, ledger: Option<Ledger>)
    requires !blank.exhausted
    ensures var r := Carried(blank, previous, ledger);
            r.Returned? ==>
              ((r.value.reserved > r.value.limits.rupees ==> r.value.exhausted)
               <==> if Accepted(previous, ledger)
                    then Price(ledger.value.tokens + 1024 * previous.requests) <= blank.limits.rupees
                    else previous.reservedEstimate + 0.01 <= blank.limits.rupees)
  {
    hide Price;
  }

  /** A report's estimate is in whole paise, so without a ledger it never does so under a ceiling in whole paise. */
  lemma WholePaiseCarryWithin(b: Budget, blank: Budget, ledger: Option<Ledger>)
    requires WholePaise(blank.limits.rupees)
    ensures var r := Carried(blank, Summarize(b), ledger);
            r.Returned? ==>
              (r.value.reserved <= r.value.limits.rupees
               <==> !Accepted(Summarize(b), ledger)
                    || Price(ledger.value.tokens + 1024 * b.requests) <= blank.limits.rupees)
  {
    var c := Ceiling(b.reserved * 100.0);
    assert Summarize(b).reservedEstimate == c as real / 100.0 && Summarize(b).requests == b.requests;
    hide Summarize, WholePaise, Price;
    if c as real / 100.0 < blank.limits.rupees {
      NextPaisa(c, blank.limits.rupees);
    }
  }

  lemma NextPaisa(c: int, rupees: real)
    requires WholePaise(rupees) && c as real / 100.0 < rupees
    ensures c as real / 100.0 + 0.01 <= rupees
  {
    var n := (rupees * 100.0).Floor;
    assert rupees * 100.0 == n as real;
    hide WholePaise;
    OneMore(c, n);
  }

  lemma OneMore(c: int, n: int)
    requires c as real < n as real
    ensures c as real + 1.0 <= n as real
  {
    assert c + 1 <= n;
  }

  lemma CarryCanExceedUnflagged()
    ensures var r := Carried(NewBudget(Limits(300.0, 26, 8192)), Report(1, 299.995, 1), None);
            r.Returned? && r.value.reserved > r.value.limits.rupees && !r.value.exhausted
  {
  }

  /** A million tokens of one request, accepted after an estimate of half a rupee. */
  lemma LedgerCanExceedUnflagged()
    ensures var r := Carried(NewBudget(Limits(300.0, 26, 8192)), Report(1, 0.5, 1), Some(Ledger(1, 1000000)));
            r.Returned? && r.value.reserved > r.value.limits.rupees && !r.value.exhausted
  {
  }

  // ---------------------------------------------------------------- the client

  /** One stream from start to end with nothing else running. */
  function StreamAlone(b: Budget, inputBytes: nat, asked: Option<int>, opens: bool, lines: seq<Line>): Budget {
    var reserve := Reservation(inputBytes, Capped(b.limits, asked));
    if Admits(b, reserve) && opens then
      AfterFinished(AfterOpened(AfterReserve(b, reserve)), reserve, ObserveAll(Unobserved, lines))
    else AfterReserve(b, reserve)
  }

  /**
    What one stream by itself does to the shared counters, field by field: it is blocked, or
    charged `reserve`, and settled at its reported tokens when it came to its end marker.
  */
  ghost predicate Streamed(b: Budget, a: Budget, reserve: real, opens: bool, lines: seq<Line>) {
    && a.limits == b.limits && a.active == b.active
    && if b.requests >= b.limits.ceiling || b.reserved + reserve > b.limits.rupees then
         a == b.(blocked := b.blocked + 1, exhausted := true)
       else
         && a.requests == b.requests + 1 && a.blocked == b.blocked
         && a.peak == (if opens && b.peak <= b.active then b.active + 1 else b.peak)
         && (!opens || Done !in lines || (forall i :: 0 <= i < |lines| ==> Silent(lines[i])) ==>
               && a.reserved == b.reserved + reserve && a.exhausted == b.exhausted
               && a.reportedRequests == b.reportedRequests && a.reportedTokens == b.reportedTokens)
         && (opens && Done in lines ==> forall i, tokens :: IsLastReport(lines, i, tokens) ==>
               && a.reserved == b.reserved + (tokens + 1024) as real * 396.0 / 1000000.0
               && a.reportedRequests == b.reportedRequests + 1 && a.reportedTokens == b.reportedTokens + tokens
               && a.exhausted == (b.exhausted || a.reserved > b.limits.rupees))
  }

  lemma OnlyOneLastReport(lines: seq<Line>, i: int, tokens: int, k: int, more: int)
    requires IsLastReport(lines, i, tokens) && IsLastReport(lines, k, more)
    ensures tokens == more
  {
    assert !Silent(lines[i]) && !Silent(lines[k]);
  }

  /** What the reference run of a lone stream does, field by field. */
  lemma StreamAloneMeaning(b: Budget, inputBytes: nat, asked: Option<int>, opens: bool, lines: seq<Line>)
    ensures exists cap :: AsAsked(b.limits, asked, cap)
              && Streamed(b, StreamAlone(b, inputBytes, asked, opens, lines),
                          (inputBytes + cap + 1024) as real * 396.0 / 1000000.0, opens, lines)
  {
    var cap := Capped(b.limits, asked);
    var a := StreamAlone(b, inputBytes, asked, opens, lines);
    var p := ObserveAll(Unobserved, lines);
    CappedAsAsked(b.limits, asked);
    ObserveMeaning(lines);
    forall i, tokens | IsLastReport(lines, i, tokens)
      ensures p.tokens == Some(tokens)
    {
      assert !Silent(lines[i]);
      var k :| IsLastReport(lines, k, p.tokens.value);
      OnlyOneLastReport(lines, i, tokens, k, p.tokens.value);
    }
    hide ObserveAll, IsLastReport, Capped, AsAsked, Silent;
    assert Streamed(b, a, (inputBytes + cap + 1024) as real * 396.0 / 1000000.0, opens, lines);
  }

  function StreamEvents(inputBytes: nat, asked: Option<int>, lines: seq<Line>): seq<Event> {
    [Begin(inputBytes, asked), Open(0)] + seq(|lines|, k requires 0 <= k < |lines| => See(0, lines[k]))
  }

  /** A stream alone is a run of the interleaving model. */
  lemma StreamAloneIsARun(b: Budget, inputBytes: nat, asked: Option<int>, lines: seq<Line>)
    ensures StreamAlone(b, inputBytes, asked, true, lines)
         == After(System(b, []), StreamEvents(inputBytes, asked, lines) + [Finish(0)]).budget
    ensures StreamAlone(b, inputBytes, asked, false, lines)
         == After(System(b, []), [Begin(inputBytes, asked), Refuse(0)]).budget
  {
    var s := System(b, []);
    StreamObserves(b, inputBytes, asked, lines);
    AfterSnoc(s, StreamEvents(inputBytes, asked, lines), Finish(0));
    AfterSnoc(s, [], Begin(inputBytes, asked));
    AfterSnoc(s, [Begin(inputBytes, asked)], Refuse(0));
    assert [Begin(inputBytes, asked)] + [Refuse(0)] == [Begin(inputBytes, asked), Refuse(0)];
  }

  lemma AfterSnoc(s: System, events: seq<Event>, e: Event)
    ensures After(s, events + [e]) == Next(After(s, events), e)
  {
    assert (events + [e])[..|events|] == events;
  }

  lemma {:induction false} StreamObserves(b: Budget, inputBytes: nat, asked: Option<int>, lines: seq<Line>)
    ensures var s := After(System(b, []), StreamEvents(inputBytes, asked, lines));
            var reserve := Reservation(inputBytes, Capped(b.limits, asked));
            if Admits(b, reserve) then
              s == System(AfterOpened(AfterReserve(b, reserve)),
                          [Call(inputBytes, Capped(b.limits, asked), Streaming, ObserveAll(Unobserved, lines))])
            else s == System(AfterReserve(b, reserve), [])
    decreases |lines|
  {
    var s := System(b, []);
    var es := StreamEvents(inputBytes, asked, lines);
    if lines == [] {
      AfterSnoc(s, [], Begin(inputBytes, asked));
      AfterSnoc(s, [Begin(inputBytes, asked)], Open(0));
      assert es == [Begin(inputBytes, asked)] + [Open(0)];
    } else {
      var n := |lines| - 1;
      StreamObserves(b, inputBytes, asked, lines[..n]);
      AfterSnoc(s, StreamEvents(inputBytes, asked, lines[..n]), See(0, lines[n]));
      assert es == StreamEvents(inputBytes, asked, lines[..n]) + [See(0, lines[n])];
    }
  }

  /** The shared client. The bodies of Reserve, Opened and Finished run under its lock. */
  class BudgetClient {
    const limits: Limits
    var requests: int
    var reserved: real
    var active: int
    var peak: int
    var blocked: int
    var exhausted: bool
    var reportedRequests: int
    var reportedTokens: int

    constructor (limits: Limits)
      requires Authorized(limits)
      ensures View() == NewBudget(limits)
    {
      this.limits := limits;
      requests, reserved, active, peak, blocked := 0, 0.0, 0, 0, 0;
      exhausted, reportedRequests, reportedTokens := false, 0, 0;
    }

    function View(): Budget
      reads this
    {
      Budget(limits, requests, reserved, active, peak, blocked, exhausted, reportedRequests, reportedTokens)
    }

    method Reserve(reserve: real) returns (admitted: bool)
      modifies this
      ensures View() == AfterReserve(old(View()), reserve)
      ensures admitted == Admits(old(View()), reserve)
    {
      if requests >= limits.ceiling || reserved + reserve > limits.rupees {
        blocked := blocked + 1;
        exhausted := true;
        return false;
      }
      requests := requests + 1;
      reserved := reserved + reserve;
      return true;
    }

    method Opened()
      modifies this
      ensures View() == AfterOpened(old(View()))
    {
      active := active + 1;
      peak := MaxInt(peak, active);
    }

    method Finished(reserve: real, probe: UsageResponse)
      modifies this
      ensures View() == AfterFinished(old(View()), reserve, old(probe.View()))
    {
      active := active - 1;
      if probe.complete && probe.tokens.Some? {
        var settled := Settlement(probe.tokens.value);
        reserved := reserved + (settled - reserve);
        reportedRequests := reportedRequests + 1;
        reportedTokens := reportedTokens + probe.tokens.value;
        if reserved > limits.rupees {
          exhausted := true;
        }
      }
    }

    /** `opens` and `lines` are the provider's part: whether the response opens, and the lines read from it. */
    method Stream(inputBytes: nat, asked: Option<int>, opens: bool, lines: seq<Line>)
        returns (answer: Result<seq<Line>, ()>)
      modifies this
      ensures View() == StreamAlone(old(View()), inputBytes, asked, opens, lines)
      ensures exists cap :: AsAsked(limits, asked, cap)
                && Streamed(old(View()), View(), (inputBytes + cap + 1024) as real * 396.0 / 1000000.0, opens, lines)
      ensures answer == if opens && requests > old(requests) then Returned(lines) else Raised(())
    {
      StreamAloneMeaning(View(), inputBytes, asked, opens, lines);
      var reserve := Reservation(inputBytes, Capped(limits, asked));
      var admitted := Reserve(reserve);
      if !admitted || !opens {
        return Raised(());
      }
      Opened();
      var probe := new UsageResponse();
      var yielded := probe.IterLines(lines);
      Finished(reserve, probe);
      return Returned(yielded);
    }

    method Summary() returns (report: Report)
      ensures report.requests == requests && report.peak == peak
      ensures WholePaise(report.reservedEstimate) && reserved <= report.reservedEstimate < reserved + 0.01
      ensures report == Summarize(View())
    {
      SummaryCovers(View(), 0);
      report := Report(requests, Ceiling(reserved * 100.0) as real / 100.0, peak);
    }

    method CarryForward(previous: Report, ledger: Option<Ledger>) returns (ok: bool)
      modifies this
      ensures ok <==> 0 <= previous.requests < limits.ceiling && 0.0 <= previous.reservedEstimate < limits.rupees
      ensures ok == Carried(old(View()), previous, ledger).Returned?
      ensures View() == if ok then Carried(old(View()), previous, ledger).value else old(View())
      ensures ok ==> requests == previous.requests && peak == previous.peak
      ensures ok && ledger.Some? && ledger.value.requests == requests ==>
                && reportedRequests == requests && reportedTokens == ledger.value.tokens
                && reserved == (ledger.value.tokens + 1024 * requests) as real * 396.0 / 1000000.0
      ensures ok && !(ledger.Some? && ledger.value.requests == requests) ==>
                && reserved == previous.reservedEstimate + 0.01
                && reportedRequests == old(reportedRequests) && reportedTokens == old(reportedTokens)
    {
      var count, estimate := previous.requests, previous.reservedEstimate;
      if !(0 <= count < limits.ceiling) || !(0.0 <= estimate < limits.rupees) {
        return false;
      }
      requests := count;
      reserved := estimate + 0.01;
      peak := previous.peak;
      if ledger.Some? && ledger.value.requests == count {
        reportedRequests := count;
        reportedTokens := ledger.value.tokens;
        reserved := Price(ledger.value.tokens + 1024 * count);
      }
      return true;
    }
  }

  // ---------------------------------------------------------------- rollout accounting

  /** A line of a rollout: anything else, or the last increment with the running total beside it. */
  datatype Record = Unrelated | TokenCount(last: Usage, cumulative: Field)

  predicate Equals(f: Field, n: int) {
    match f
    case Whole(m) => m == n
    case Fractional(x) => x == n as real
    case _ => false
  }

  /** The valid increments of a rollout, in order. */
  function Increments(rollout: seq<Record>): seq<nat> {
    if rollout == [] then []
    else
      var n := |rollout| - 1;
      if rollout[n].TokenCount? && Coherent(rollout[n].last)
      then Increments(rollout[..n]) + [rollout[n].last.total.n]
      else Increments(rollout[..n])
  }

  function AllIncrements(rollouts: seq<seq<Record>>): seq<nat> {
    if rollouts == [] then [] else AllIncrements(rollouts[..|rollouts| - 1]) + Increments(rollouts[|rollouts| - 1])
  }

  function Sum(xs: seq<nat>): nat {
    if xs == [] then 0 else Sum(xs[..|xs| - 1]) + xs[|xs| - 1]
  }

  lemma {:induction false} SumAppend(a: seq<nat>, b: seq<nat>)
    ensures Sum(a + b) == Sum(a) + Sum(b)
    decreases |b|
  {
    if b == [] {
      assert a + b == a;
    } else {
      assert (a + b)[..|a + b| - 1] == a + b[..|b| - 1];
      SumAppend(a, b[..|b| - 1]);
    }
  }

  lemma OneMoreRecord(rollout: seq<Record>, i: nat)
    requires i < |rollout|
    ensures var before, after := Increments(rollout[..i]), Increments(rollout[..i + 1]);
            if rollout[i].TokenCount? && Coherent(rollout[i].last) then
              |after| == |before| + 1 && Sum(after) == Sum(before) + rollout[i].last.total.n
            else after == before
  {
    assert rollout[..i + 1][..i] == rollout[..i];
    var after := Increments(rollout[..i + 1]);
    if rollout[i].TokenCount? && Coherent(rollout[i].last) {
      assert after[..|after| - 1] == Increments(rollout[..i]);
    }
  }

  /** The record is no usage record, or a coherent one whose running total is the sum of the increments up to it. */
  predicate AddsUp(rollout: seq<Record>, i: nat)
    requires i < |rollout|
  {
    rollout[i].TokenCount? ==>
      var sum := Sum(Increments(rollout[..i + 1]));
      Coherent(rollout[i].last) && rollout[i].cumulative in {Whole(sum), Fractional(sum as real)}
  }

  /** Every usage record is coherent and its running total is the sum of the increments so far. */
  ghost predicate Consistent(rollout: seq<Record>) {
    forall i :: 0 <= i < |rollout| ==> AddsUp(rollout, i)
  }

  /** The requests and tokens of one rollout, unless it is inconsistent. */
  method LocalUsage(rollout: seq<Record>) returns (usage: Option<Ledger>)
    ensures usage.Some? <==> Consistent(rollout)
    ensures usage.Some? ==> usage.value == Ledger(|Increments(rollout)|, Sum(Increments(rollout)))
  {
    var localRequests, localTokens := 0, 0;
    for i := 0 to |rollout|
      invariant localRequests == |Increments(rollout[..i])| && localTokens == Sum(Increments(rollout[..i]))
      invariant forall j :: 0 <= j < i ==> AddsUp(rollout, j)
    {
      OneMoreRecord(rollout, i);
      if rollout[i].TokenCount? {
        ValidIsCoherent(rollout[i].last);
      }
      if rollout[i].Unrelated? {
        continue;
      }
      if !Valid(rollout[i].last) {
        assert !AddsUp(rollout, i);
        return None;
      }
      localRequests := localRequests + 1;
      localTokens := localTokens + rollout[i].last.total.n;
      if !Equals(rollout[i].cumulative, localTokens) {
        assert !AddsUp(rollout, i);
        return None;
      }
    }
    assert rollout[..|rollout|] == rollout;
    return Some(Ledger(localRequests, localTokens));
  }

  /** The accounting is accepted exactly when every rollout is consistent and no request is missing. */
  method CompleteLedgerUsage(rollouts: seq<seq<Record>>, expected: int) returns (usage: Option<Ledger>)
    ensures usage.Some? <==>
      (forall k :: 0 <= k < |rollouts| ==> Consistent(rollouts[k])) && |AllIncrements(rollouts)| == expected
    ensures usage.Some? ==> usage.value == Ledger(expected, Sum(AllIncrements(rollouts)))
  {
    hide Consistent, Increments, Sum;
    var requests, tokens := 0, 0;
    SumOfNone();
    for k := 0 to |rollouts|
      invariant forall j :: 0 <= j < k ==> Consistent(rollouts[j])
      invariant requests == |AllIncrements(rollouts[..k])| && tokens == Sum(AllIncrements(rollouts[..k]))
    {
      var local := LocalUsage(rollouts[k]);
      if local.None? {
        return None;
      }
      assert rollouts[..k + 1][..k] == rollouts[..k];
      SumAppend(AllIncrements(rollouts[..k]), Increments(rollouts[k]));
      requests := requests + local.value.requests;
      tokens := tokens + local.value.tokens;
    }
    assert rollouts[..|rollouts|] == rollouts;
    return if requests == expected then Some(Ledger(requests, tokens)) else None;
  }

  lemma SumOfNone()
    ensures Sum([]) == 0
  {
  }

  function SettleAll(increments: seq<nat>): real {
    if increments == [] then 0.0
    else SettleAll(increments[..|increments| - 1]) + Settlement(increments[|increments| - 1])
  }

  /** A continuation with an accepted ledger holds exactly the settled cost of every request. */
  lemma LedgerSettlesEveryRequest(blank: Budget, previous: Report, increments: seq<nat>)
    requires |increments| == previous.requests
    ensures var r := Carried(blank, previous, Some(Ledger(|increments|, Sum(increments))));
            r.Returned? ==> r.value.reserved == SettleAll(increments) && r.value.requests == |increments|
                            && r.value.limits == blank.limits
  {
    SettleAllIsLinear(increments);
    hide Price;
  }

  lemma {:induction false} SettleAllIsLinear(increments: seq<nat>)
    ensures SettleAll(increments) == Price(Sum(increments) + 1024 * |increments|)
    decreases |increments|
  {
    if increments != [] {
      SettleAllIsLinear(increments[..|increments| - 1]);
    }
  }

  // ---------------------------------------------------------------- chains of continued runs

  /**
    One process of a chain. `saved` is how many of its steps its last saved report knows of,
    None if it saved none. `increments` is what the rollouts of earlier runs account for when
    that is complete; it is accepted when it has as many requests as the continued report.
  */
  datatype Session = Session(limits: Limits, events: seq<Event>, saved: Option<nat>, increments: Option<seq<nat>>)

  /** What a budget stands for: the increments of the last accepted ledger and the calls since. */
  datatype Account = Account(ledgered: seq<nat>, calls: seq<Call>)

  /** A budget, what it stands for, and how many reports were carried without a ledger since. */
  datatype Standing = Standing(budget: Budget, account: Account, carries: nat)

  /**
    The end of a chain. `now` is what the last process knows; `missed` are the calls of
    earlier runs that it does not know of, `made` counts the calls of all runs. A next run
    starts from `report`; `lost` are the calls that report does not know of, `unsaved` how
    many of them are the last run's own.
  */
  datatype Chained =
    Chained(now: Standing, missed: seq<Call>, made: nat, report: Option<Standing>, lost: seq<Call>, unsaved: nat)

  /** A first run stands for nothing. */
  function Fresh(limits: Limits): Standing {
    Standing(NewBudget(limits), Account([], []), 0)
  }

  function LedgerOf(increments: Option<seq<nat>>): Option<Ledger> {
    match increments
    case Some(xs) => Some(Ledger(|xs|, Sum(xs)))
    case None => None
  }

  function Upto(events: seq<Event>, k: nat): seq<Event> {
    if k <= |events| then events[..k] else events
  }

  /** Where a budget stands after some steps of a run that starts with it. */
  function Onward(start: Standing, events: seq<Event>): Standing {
    var end := After(System(start.budget, []), events);
    start.(budget := end.budget, account := start.account.(calls := start.account.calls + end.calls))
  }

  /** The calls of a run. */
  function Own(start: Standing, events: seq<Event>): seq<Call> {
    After(System(start.budget, []), events).calls
  }

  lemma {:induction false} CallsOnlyGrow(s: System, events: seq<Event>, k: nat)
    ensures |After(s, Upto(events, k)).calls| <= |After(s, events).calls|
    decreases |events|
  {
    hide Reservation, Settlement;
    if k < |events| {
      var n := |events| - 1;
      assert Upto(events, k) == Upto(events[..n], k);
      CallsOnlyGrow(s, events[..n], k);
    } else {
      assert Upto(events, k) == events;
    }
  }

  /** One process, from where it starts, with the calls its start does not know of, beside the report it continues. */
  function Run(start: Standing, missed: seq<Call>, made: nat, report: Option<Standing>, session: Session): Chained {
    var own := Own(start, session.events);
    match session.saved
    case None =>
      Chained(Onward(start, session.events), missed, made + |own|, report, missed + own, |own|)
    case Some(k) =>
      CallsOnlyGrow(System(start.budget, []), session.events, k);
      var known := |Own(start, Upto(session.events, k))|;
      Chained(Onward(start, session.events), missed, made + |own|,
              Some(Onward(start, Upto(session.events, k))), missed + own[known..], |own| - known)
  }

  /** Where a continuation of a report starts; raised when it refuses to. */
  function Resumed(report: Standing, session: Session): Result<Standing, ()> {
    var ledger := LedgerOf(session.increments);
    match Carried(NewBudget(session.limits), Summarize(report.budget), ledger)
    case Raised(e) => Raised(e)
    case Returned(b) =>
      if Accepted(Summarize(report.budget), ledger) then
        Returned(Standing(b, Account(session.increments.value, []), 0))
      else Returned(Standing(b, report.account, report.carries + 1))
  }

  /** One run after another; each continues the last report there is. */
  function Chain(sessions: seq<Session>): Result<Chained, ()>
    decreases |sessions|
  {
    if sessions == [] then Raised(())
    else
      var n := |sessions| - 1;
      var session := sessions[n];
      if !Authorized(session.limits) then Raised(())
      else if n == 0 then
        Returned(Run(Fresh(session.limits), [], 0, None, session))
      else
        match Chain(sessions[..n])
        case Raised(e) => Raised(e)
        case Returned(before) =>
          if before.report.None? then Raised(())
          else
            match Resumed(before.report.value, session)
            case Raised(e) => Raised(e)
            case Returned(start) => Returned(Run(start, before.lost, before.made, before.report, session))
  }

  /** What the requests of an account are known to have cost at most. */
  function Charge(a: Account): real {
    SettleAll(a.ledgered) + Total(a.calls)
  }

  /** A paisa for each report carried without a ledger. */
  function Paise(carries: nat): real {
    carries as real * 0.01
  }

  /** The count is the account's, and the reservation its charge and one to two paise for each carried report. */
  ghost predicate Sound(s: Standing) {
    && s.budget.requests == |s.account.ledgered| + |s.account.calls| <= s.budget.limits.ceiling
    && Paise(s.carries) <= s.budget.reserved - Charge(s.account) <= Paise(2 * s.carries)
  }

  ghost predicate Kept(c: Chained) {
    && Sound(c.now) && c.made == c.now.budget.requests + |c.missed|
    && (c.report.Some? ==> Sound(c.report.value) && c.made == c.report.value.budget.requests + |c.lost|)
  }

  lemma OnwardIsSound(start: Standing, events: seq<Event>)
    requires Sound(start)
    ensures Sound(Onward(start, events)) && Onward(start, events).budget.limits == start.budget.limits
    ensures Onward(start, events).budget.requests == start.budget.requests + |Own(start, events)|
    ensures Onward(start, events).budget.reserved == start.budget.reserved + Total(Own(start, events))
    ensures Charge(Onward(start, events).account) == Charge(start.account) + Total(Own(start, events))
  {
    RunAccounted(start.budget, events);
    TotalOfAppend(start.account.calls, Own(start, events));
    hide Total, SettleAll, After, Paise;
  }

  lemma RunKeeps(start: Standing, missed: seq<Call>, made: nat, report: Option<Standing>, session: Session)
    requires Sound(start) && made == start.budget.requests + |missed|
    requires report.Some? ==> Sound(report.value) && made == report.value.budget.requests + |missed|
    ensures var c := Run(start, missed, made, report, session);
            Kept(c) && c.now.budget.limits == start.budget.limits
    ensures var c := Run(start, missed, made, report, session);
            |c.lost| == |missed| + c.unsaved
  {
    hide Sound, Onward, Own;
    OnwardIsSound(start, session.events);
    if session.saved.Some? {
      OnwardIsSound(start, Upto(session.events, session.saved.value));
      CallsKnown(start, session.events, session.saved.value);
    }
  }

  lemma CallsKnown(start: Standing, events: seq<Event>, k: nat)
    ensures |Own(start, Upto(events, k))| <= |Own(start, events)|
  {
    CallsOnlyGrow(System(start.budget, []), events, k);
  }

  lemma PaiseAdd(carries: nat)
    ensures Paise(carries + 1) == Paise(carries) + 0.01 && Paise(2 * (carries + 1)) == Paise(2 * carries) + 0.02
    ensures Paise(0) == 0.0
  {
  }

  lemma ResumedIsSound(report: Standing, session: Session)
    requires Sound(report)
    ensures var r := Resumed(report, session);
            r.Returned? ==>
              && Sound(r.value) && r.value.budget.requests == report.budget.requests
              && r.value.budget.limits == session.limits
  {
    var ledger := LedgerOf(session.increments);
    var blank := NewBudget(session.limits);
    if Resumed(report, session).Returned? {
      PaiseAdd(report.carries);
      if Accepted(Summarize(report.budget), ledger) {
        LedgerSettlesEveryRequest(blank, Summarize(report.budget), session.increments.value);
      } else {
        SummaryCovers(report.budget, 0);
        assert Carried(blank, Summarize(report.budget), ledger) == Carried(blank, Summarize(report.budget), None);
      }
      hide Summarize, Total, SettleAll, Paise;
    }
  }

  /**
    Over any chain of continued runs, each stopped anywhere before or after saving: the last
    process counts exactly the calls that the continued reports knew of, within its ceiling,
    and its reservation covers their cost.
  */
  lemma {:induction false} ChainKeepsTheCharge(sessions: seq<Session>)
    requires sessions != []
    ensures var r := Chain(sessions);
            r.Returned? ==> Kept(r.value) && r.value.now.budget.limits == sessions[|sessions| - 1].limits
    decreases |sessions|
  {
    var n := |sessions| - 1;
    var session := sessions[n];
    hide Sound, Run, Resumed;
    if Chain(sessions).Returned? {
      if n == 0 {
        NewIsSound(session.limits);
        RunKeeps(Fresh(session.limits), [], 0, None, session);
      } else {
        ChainKeepsTheCharge(sessions[..n]);
        var before := Chain(sessions[..n]).value;
        ResumedIsSound(before.report.value, session);
        var start := Resumed(before.report.value, session).value;
        RunKeeps(start, before.lost, before.made, before.report, session);
      }
    }
  }

  /**
    A chain goes on exactly when the limits are authorized, some run has saved a report, and
    that report's count and estimate are below the new ceilings; a run that saves none leaves
    the report it continued in place.
  */
  lemma ChainGoesOnExactly(sessions: seq<Session>)
    requires |sessions| > 1
    ensures var before, last := Chain(sessions[..|sessions| - 1]), sessions[|sessions| - 1];
            && (Chain(sessions).Returned? <==>
                  && Authorized(last.limits) && before.Returned? && before.value.report.Some?
                  && var b := before.value.report.value.budget;
                     && 0 <= b.requests < last.limits.ceiling
                     && 0.0 <= Summarize(b).reservedEstimate < last.limits.rupees)
            && (Chain(sessions).Returned? && last.saved.None? ==>
                  Chain(sessions).value.report == before.value.report)
  {
    hide Summarize, Run, Resumed, Authorized;
    var n := |sessions| - 1;
    assert sessions[..n] != [];
    if Chain(sessions[..n]).Returned? {
      var before := Chain(sessions[..n]).value;
      if before.report.Some? {
        ResumedExactly(before.report.value, sessions[n]);
        if Resumed(before.report.value, sessions[n]).Returned? {
          var start := Resumed(before.report.value, sessions[n]).value;
          if sessions[n].saved.None? {
            UnsavedKeepsTheReport(start, before.lost, before.made, before.report, sessions[n]);
          }
        }
      }
    }
  }

  lemma ResumedExactly(report: Standing, session: Session)
    ensures Resumed(report, session).Returned? <==>
            && 0 <= report.budget.requests < session.limits.ceiling
            && 0.0 <= Summarize(report.budget).reservedEstimate < session.limits.rupees
  {
    assert Summarize(report.budget).requests == report.budget.requests;
    hide Summarize;
  }

  lemma UnsavedKeepsTheReport(start: Standing, missed: seq<Call>, made: nat, report: Option<Standing>, session: Session)
    requires session.saved.None?
    ensures Run(start, missed, made, report, session).report == report
  {
  }

  lemma NewIsSound(limits: Limits)
    requires Authorized(limits)
    ensures Sound(Fresh(limits))
  {
    PaiseAdd(0);
  }

  /** No run of the chain admitted a call after it last saved its report. */
  ghost predicate EveryRunSaved(sessions: seq<Session>) {
    forall i :: 0 < i <= |sessions| && Chain(sessions[..i]).Returned? ==> Chain(sessions[..i]).value.unsaved == 0
  }

  lemma EveryRunSavedSnoc(sessions: seq<Session>)
    requires sessions != []
    ensures EveryRunSaved(sessions)
            <==> && EveryRunSaved(sessions[..|sessions| - 1])
                 && (Chain(sessions).Returned? ==> Chain(sessions).value.unsaved == 0)
  {
    var n := |sessions| - 1;
    hide Chain;
    assert sessions[..n + 1] == sessions;
    assert forall i :: 0 < i <= n ==> sessions[..n][..i] == sessions[..i];
  }

  lemma {:induction false} NothingLostExactly(sessions: seq<Session>)
    requires sessions != [] && Chain(sessions).Returned?
    ensures Chain(sessions).value.lost == [] <==> EveryRunSaved(sessions)
    ensures Chain(sessions).value.missed == [] <==> EveryRunSaved(sessions[..|sessions| - 1])
    decreases |sessions|
  {
    var n := |sessions| - 1;
    EveryRunSavedSnoc(sessions);
    if n == 0 {
      assert sessions[..0] == [];
      LostIsMissedAndUnsaved(Fresh(sessions[0].limits), [], 0, None, sessions[0]);
    } else {
      NothingLostExactly(sessions[..n]);
      var before := Chain(sessions[..n]).value;
      var start := Resumed(before.report.value, sessions[n]).value;
      LostIsMissedAndUnsaved(start, before.lost, before.made, before.report, sessions[n]);
    }
    hide Run, Resumed, EveryRunSaved;
  }

  lemma LostIsMissedAndUnsaved(start: Standing, missed: seq<Call>, made: nat, report: Option<Standing>,
                               session: Session)
    ensures var c := Run(start, missed, made, report, session);
            c.missed == missed && (c.lost == [] <==> missed == [] && c.unsaved == 0)
  {
    hide Own, Onward;
    if session.saved.Some? {
      CallsKnown(start, session.events, session.saved.value);
    }
  }

  /**
    The count of the last process is the true number of requests of all runs exactly when no
    earlier run admitted a call after it last saved its report. In any case there are no more
    than the last ceiling and the calls so missed.
  */
  lemma ChainCountsExactly(sessions: seq<Session>)
    requires sessions != [] && Chain(sessions).Returned?
    ensures var c := Chain(sessions).value;
            && (c.now.budget.requests == c.made <==> EveryRunSaved(sessions[..|sessions| - 1]))
            && c.made <= sessions[|sessions| - 1].limits.ceiling + |c.missed|
  {
    hide Chain, EveryRunSaved;
    ChainKeepsTheCharge(sessions);
    NothingLostExactly(sessions);
  }

  /** No call was asked to answer with fewer than no tokens. */
  ghost predicate Answering(calls: seq<Call>) {
    forall i :: 0 <= i < |calls| ==> calls[i].maxTokens >= 0
  }

  lemma {:induction false} CallsCostSomething(calls: seq<Call>)
    requires Answering(calls)
    ensures Total(calls) >= 0.0 && (calls != [] ==> Total(calls) > 0.4)
    decreases |calls|
  {
    if calls != [] {
      var n := |calls| - 1;
      CallsCostSomething(calls[..n]);
      assert calls[n].Cost() > 0.4;
    }
  }

  /**
    The reservation of the last process covers every call of all runs exactly when no earlier
    run admitted a call after its last save, for up to twenty reports carried without a
    ledger; the paise of more carried reports could pay for a missed call.
  */
  lemma ChainCoversExactly(sessions: seq<Session>)
    requires sessions != [] && Chain(sessions).Returned?
    ensures var c := Chain(sessions).value;
            Answering(c.missed) && c.now.carries <= 20 ==>
              (c.now.budget.reserved >= Charge(c.now.account) + Total(c.missed)
               <==> EveryRunSaved(sessions[..|sessions| - 1]))
  {
    var c := Chain(sessions).value;
    hide Chain, EveryRunSaved, Charge;
    ChainKeepsTheCharge(sessions);
    NothingLostExactly(sessions);
    if Answering(c.missed) && c.now.carries <= 20 {
      CallsCostSomething(c.missed);
      assert Paise(2 * c.now.carries) <= 0.4;
    }
  }

  /** A call after the last save: the continuation admits a second one under a ceiling of one. */
  lemma UnsavedCallEscapes()
    ensures var l := Limits(300.0, 1, 1);
            var dies := Session(l, [Begin(0, None)], Some(0), None);
            var r := Chain([dies, Session(l, [Begin(0, None)], Some(1), None)]);
            r.Returned? && r.value.now.budget.requests == 1 && r.value.made == 2
  {
    var l := Limits(300.0, 1, 1);
    var dies, again := Session(l, [Begin(0, None)], Some(0), None), Session(l, [Begin(0, None)], Some(1), None);
    DiesAfterOneCall(Fresh(l));
    ResumesFromNothing(l, again);
    hide Run, Resumed, Authorized;
    assert Authorized(l) by { LimitsOfOne(); }
    ChainOfTwo(dies, again);
    AdmitsAnother(Resumed(Fresh(l), again).value, Run(Fresh(l), [], 0, None, dies), again);
  }

  lemma LimitsOfOne()
    ensures Authorized(Limits(300.0, 1, 1))
  {
  }

  lemma ChainOfTwo(a: Session, b: Session)
    requires Authorized(a.limits) && Authorized(b.limits)
    requires var c := Run(Fresh(a.limits), [], 0, None, a);
             c.report.Some? && Resumed(c.report.value, b).Returned?
    ensures var c := Run(Fresh(a.limits), [], 0, None, a);
            Chain([a, b]) == Returned(Run(Resumed(c.report.value, b).value, c.lost, c.made, c.report, b))
  {
    hide Run, Resumed, Authorized;
    assert [a, b][..1] == [a];
    assert Chain([a]) == Returned(Run(Fresh(a.limits), [], 0, None, a));
  }

  lemma DiesAfterOneCall(start: Standing)
    requires start == Fresh(Limits(300.0, 1, 1))
    ensures var c := Run(start, [], 0, None, Session(start.budget.limits, [Begin(0, None)], Some(0), None));
            c.report == Some(start) && c.made == 1 && |c.lost| == 1
  {
    OneCall(start);
    assert Upto([Begin(0, None)], 0) == [];
    assert start.account.calls + [] == start.account.calls;
    assert Onward(start, []) == start;
  }

  lemma ResumesFromNothing(l: Limits, session: Session)
    requires l == Limits(300.0, 1, 1) == session.limits && session.increments == None
    ensures var r := Resumed(Fresh(l), session);
            r.Returned? && r.value.budget.limits == l && r.value.budget.requests == 0 && r.value.budget.reserved == 0.01
  {
    SummarizeNothing(l);
    hide Summarize, Price, Sum, SettleAll, Ceiling;
    assert Carried(NewBudget(l), Report(0, 0.0, 0), None).Returned?;
  }

  lemma SummarizeNothing(l: Limits)
    ensures Summarize(NewBudget(l)) == Report(0, 0.0, 0)
  {
    assert Ceiling(0.0 * 100.0) == 0;
  }

  lemma AdmitsAnother(start: Standing, before: Chained, session: Session)
    requires start.budget.limits == Limits(300.0, 1, 1) && start.budget.requests == 0 && start.budget.reserved == 0.01
    requires session.events == [Begin(0, None)] && before.made == 1
    ensures var c := Run(start, before.lost, before.made, before.report, session);
            c.made == 2 && c.now.budget.requests == 1
  {
    OneCall(start);
    hide Own, Onward;
  }

  lemma OneCall(start: Standing)
    requires start.budget.limits == Limits(300.0, 1, 1) && start.budget.requests == 0
    requires 0.0 <= start.budget.reserved <= 1.0
    ensures |Own(start, [Begin(0, None)])| == 1 && Onward(start, [Begin(0, None)]).budget.requests == 1
    ensures Own(start, []) == []
  {
    AfterSnoc(System(start.budget, []), [], Begin(0, None));
    assert [] + [Begin(0, None)] == [Begin(0, None)];
  }

  /** Tokens the provider really counted for the ledger's requests, in its order. */
  ghost predicate PlausibleLedger(increments: seq<nat>, billed: seq<int>) {
    |billed| == |increments| && forall i :: 0 <= i < |billed| ==> billed[i] <= increments[i] + 1024
  }

  lemma {:induction false} LedgerBillWithin(increments: seq<nat>, billed: seq<int>)
    requires PlausibleLedger(increments, billed)
    ensures Bill(billed) <= SettleAll(increments)
    decreases |billed|
  {
    if billed != [] {
      var n := |billed| - 1;
      LedgerBillWithin(increments[..n], billed[..n]);
    }
  }

  /** That bound is reached: a ledger above the ceiling is a plausible bill above it. */
  lemma {:induction false} LedgerBillReached(increments: seq<nat>) returns (billed: seq<int>)
    ensures PlausibleLedger(increments, billed) && Bill(billed) == SettleAll(increments)
    decreases |increments|
  {
    billed := [];
    if increments != [] {
      var n := |increments| - 1;
      var before := LedgerBillReached(increments[..n]);
      billed := before + [increments[n] + 1024];
      assert billed[..n] == before;
    }
  }

  /** In one more run with modest reports the charge passes the ceiling only if its ledger already does. */
  lemma ResumedStaysWithin(report: Standing, session: Session)
    requires Sound(report) && Resumed(report, session).Returned?
    requires Modest(Own(Resumed(report, session).value, session.events))
    requires SettleAll(Resumed(report, session).value.account.ledgered) <= session.limits.rupees
    ensures var end := Onward(Resumed(report, session).value, session.events);
            && Charge(end.account) <= session.limits.rupees
            && end.budget.reserved <= session.limits.rupees + 0.01
            && (WholePaise(session.limits.rupees) ==> end.budget.reserved <= session.limits.rupees)
  {
    var ledger := LedgerOf(session.increments);
    var blank := NewBudget(session.limits);
    var start := Resumed(report, session).value;
    ResumedIsSound(report, session);
    OnwardIsSound(start, session.events);
    PaiseAdd(report.carries);
    hide Total, Sum, Onward, After;
    if Accepted(Summarize(report.budget), ledger) {
      LedgerSettlesEveryRequest(blank, Summarize(report.budget), session.increments.value);
      StaysUnder(start, session.events, session.limits.rupees);
    } else {
      StaysUnder(start, session.events, session.limits.rupees + 0.01);
      if WholePaise(session.limits.rupees) {
        WholePaiseCarryWithin(report.budget, blank, ledger);
        StaysUnder(start, session.events, session.limits.rupees);
      }
    }
  }

  lemma StaysUnder(start: Standing, events: seq<Event>, bound: real)
    requires start.budget.reserved <= bound && start.budget.limits.rupees <= bound && Modest(Own(start, events))
    ensures Onward(start, events).budget.reserved <= bound
  {
    ReservedStaysWithin(start.budget, events, bound);
  }

  lemma OwnIsModest(start: Standing, events: seq<Event>)
    requires Modest(Onward(start, events).account.calls)
    ensures Modest(Own(start, events))
  {
    var own, all := Own(start, events), Onward(start, events).account.calls;
    assert forall i :: 0 <= i < |own| ==> own[i] == all[|start.account.calls| + i];
  }

  /** In a chain with modest reports and a last ledger that fits, the known charge is within the last ceiling. */
  lemma ChainStaysWithin(sessions: seq<Session>)
    requires sessions != [] && Chain(sessions).Returned?
    ensures var now := Chain(sessions).value.now;
            var rupees := sessions[|sessions| - 1].limits.rupees;
            Modest(now.account.calls) && SettleAll(now.account.ledgered) <= rupees ==>
              && Charge(now.account) <= rupees && now.budget.reserved <= rupees + 0.01
              && (WholePaise(rupees) ==> now.budget.reserved <= rupees)
  {
    var n := |sessions| - 1;
    var session := sessions[n];
    var now := Chain(sessions).value.now;
    hide Charge, WholePaise, SettleAll, Modest, Price, Sum, Own, Summarize;
    if Modest(now.account.calls) && SettleAll(now.account.ledgered) <= session.limits.rupees {
      if n == 0 {
        var start := Fresh(session.limits);
        NewIsSound(session.limits);
        OwnIsModest(start, session.events);
        OnwardIsSound(start, session.events);
        StaysUnder(start, session.events, session.limits.rupees);
        PaiseAdd(0);
      } else {
        var before := Chain(sessions[..n]).value;
        ChainKeepsTheCharge(sessions[..n]);
        OwnIsModest(Resumed(before.report.value, session).value, session.events);
        ResumedStaysWithin(before.report.value, session);
      }
    }
  }

  /**
    The money theorem for chains, under any ceilings. With modest reports, and a last ledger
    that fits under the last ceiling, every plausible bill of all runs together is within it,
    but for what calls after a last save may cost. The reservation itself can be a paisa
    above, but not under a ceiling in whole paise.
  */
  lemma ChainSpendStaysWithin(sessions: seq<Session>, ledgerBill: seq<int>, bill: seq<int>, missedBill: seq<int>)
    requires sessions != [] && Chain(sessions).Returned?
    ensures var c := Chain(sessions).value;
            var rupees := sessions[|sessions| - 1].limits.rupees;
            Modest(c.now.account.calls) && SettleAll(c.now.account.ledgered) <= rupees ==>
              && (PlausibleLedger(c.now.account.ledgered, ledgerBill) && Plausible(c.now.account.calls, bill)
                  && Plausible(c.missed, missedBill) ==>
                  && Bill(ledgerBill) + Bill(bill) <= rupees
                  && Bill(ledgerBill) + Bill(bill) + Bill(missedBill) <= rupees + Total(c.missed)
                  && (EveryRunSaved(sessions[..|sessions| - 1]) ==>
                        Bill(ledgerBill) + Bill(bill) + Bill(missedBill) <= rupees))
              && c.now.budget.reserved <= rupees + 0.01
              && (WholePaise(rupees) ==> c.now.budget.reserved <= rupees)
  {
    var c := Chain(sessions).value;
    hide Chain, EveryRunSaved, WholePaise;
    ChainStaysWithin(sessions);
    NothingLostExactly(sessions);
    if PlausibleLedger(c.now.account.ledgered, ledgerBill) && Plausible(c.now.account.calls, bill)
       && Plausible(c.missed, missedBill) {
      LedgerBillWithin(c.now.account.ledgered, ledgerBill);
      BillWithinTotal(c.now.account.calls, bill);
      BillWithinTotal(c.missed, missedBill);
    }
  }

  /** What a report knows of a call only widens what is plausible for it: a settled call stays as it is. */
  lemma {:induction false} PlausibleAtSave(s: System, events: seq<Event>, k: nat, billed: seq<int>)
    requires Plausible(After(s, events).calls, billed)
    ensures |After(s, Upto(events, k)).calls| <= |billed|
    ensures Plausible(After(s, Upto(events, k)).calls, billed[..|After(s, Upto(events, k)).calls|])
    decreases |events|
  {
    CallsOnlyGrow(s, events, k);
    if k < |events| {
      var n := |events| - 1;
      var before := After(s, events[..n]);
      assert Upto(events, k) == Upto(events[..n], k);
      PlausibleBefore(before, events[n], billed);
      PlausibleAtSave(s, events[..n], k, billed[..|before.calls|]);
      var known := |After(s, Upto(events, k)).calls|;
      CallsOnlyGrow(s, events[..n], k);
      assert billed[..|before.calls|][..known] == billed[..known];
    } else {
      assert Upto(events, k) == events && billed[..|billed|] == billed;
    }
  }

  lemma PlausibleBefore(s: System, e: Event, billed: seq<int>)
    requires Plausible(Next(s, e).calls, billed)
    ensures |s.calls| <= |billed| && Plausible(s.calls, billed[..|s.calls|])
  {
    hide Reservation, Settlement;
    var t := Next(s, e);
    forall i | 0 <= i < |s.calls|
      ensures t.calls[i].inputBytes == s.calls[i].inputBytes && t.calls[i].maxTokens == s.calls[i].maxTokens
      ensures s.calls[i].Settled() ==> t.calls[i] == s.calls[i]
    {
    }
  }

  lemma {:induction false} TotalOfAppend(a: seq<Call>, b: seq<Call>)
    ensures Total(a + b) == Total(a) + Total(b)
    decreases |b|
  {
    if b == [] {
      assert a + b == a;
    } else {
      assert (a + b)[..|a + b| - 1] == a + b[..|b| - 1];
      TotalOfAppend(a, b[..|b| - 1]);
    }
  }
}
