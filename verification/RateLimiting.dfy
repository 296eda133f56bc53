/**
  Token-bucket rate limiting with temporary bans (rate_limiter/__init__.py).

  The clock is an explicit argument. Tokens, rates and seconds are exact reals.
  `Decide` and `Apply` specify one call; the class below is proved to behave like
  them, and the theorems about whole runs are about histories of `Apply`.
*/
module RateLimiting {
  import opened Basics

  datatype Config = Config(capacity: real, refillRate: real, banSeconds: real)

  datatype Bucket = Bucket(tokens: real, lastRefill: real, bannedUntil: real)

  datatype Headers = Headers(retryAfter: Option<int>, limit: int, remaining: int, reset: int)

  datatype Decision = Decision(allowed: bool, headers: Headers)

  type Buckets = map<string, Bucket>

  /** Capacity and refill rate are amounts, as their documentation says. */
  predicate Sane(cfg: Config) {
    cfg.capacity >= 0.0 && cfg.refillRate >= 0.0
  }

  // ---------------------------------------------------------------- one call

  function Fresh(cfg: Config, now: real): Bucket {
    Bucket(cfg.capacity, now, 0.0)
  }

  /** The tokens that drip into a bucket in some number of seconds. */
  function Accrued(cfg: Config, seconds: real): real {
    seconds * cfg.refillRate
  }

  function Refill(cfg: Config, b: Bucket, now: real): Bucket {
    var elapsed := Max(0.0, now - b.lastRefill);
    b.(tokens := Min(cfg.capacity, b.tokens + Accrued(cfg, elapsed)), lastRefill := now)
  }

  function EffectiveRate(cfg: Config): (rate: real)
    ensures rate >= 0.001
  {
    Max(0.001, cfg.refillRate)
  }

  /** The bucket after a call by its client, and the answer the client gets. */
  function Decide(cfg: Config, b: Bucket, now: real, requested: real): (Bucket, Decision) {
    var limit := Truncate(cfg.capacity);
    if b.bannedUntil > now then
      (b, Decision(false, Headers(Some(Truncate(b.bannedUntil - now) + 1), limit, 0, Truncate(b.bannedUntil))))
    else
      var r := Refill(cfg, b, now);
      if r.tokens >= requested then
        var left := r.tokens - requested;
        var reset := Truncate(now + (cfg.capacity - left) / EffectiveRate(cfg));
        (r.(tokens := left), Decision(true, Headers(None, limit, Truncate(left), reset)))
      else if cfg.banSeconds > 0.0 then
        var retry := Truncate(cfg.banSeconds);
        (r.(bannedUntil := now + cfg.banSeconds),
         Decision(false, Headers(Some(retry), limit, 0, Truncate(now + retry as real))))
      else
        var retry := MaxInt(1, Truncate((requested - r.tokens) / EffectiveRate(cfg)) + 1);
        (r, Decision(false, Headers(Some(retry), limit, 0, Truncate(now + retry as real))))
  }

  /** The bucket a call works on: an unknown client starts with a full one. */
  function BucketFor(cfg: Config, m: Buckets, client: string, now: real): Bucket {
    if client in m then m[client] else Fresh(cfg, now)
  }

  // ---------------------------------------------------------------- whole runs

  /** `Reset(Some(""))` is the call `reset("")`, which clears everything like `reset()`. */
  datatype Op =
    | Acquire(client: string, now: real, requested: real)
    | Reset(who: Option<string>)

  predicate ClearsAll(op: Op) {
    op.Reset? && (op.who.None? || op.who.value == "")
  }

  function Apply(cfg: Config, m: Buckets, op: Op): Buckets {
    match op
    case Acquire(client, now, requested) =>
      m[client := Decide(cfg, BucketFor(cfg, m, client, now), now, requested).0]
    case Reset(who) =>
      if ClearsAll(op) then map[] else m - {who.value}
  }

  function After(cfg: Config, m: Buckets, ops: seq<Op>): Buckets
    decreases |ops|
  {
    if ops == [] then m else After(cfg, Apply(cfg, m, ops[0]), ops[1..])
  }

  /** The answers one client receives during a run, in order. */
  function Answers(cfg: Config, m: Buckets, ops: seq<Op>, c: string): seq<Decision>
    decreases |ops|
  {
    if ops == [] then []
    else
      var rest := Answers(cfg, Apply(cfg, m, ops[0]), ops[1..], c);
      if ops[0].Acquire? && ops[0].client == c then
        [Decide(cfg, BucketFor(cfg, m, c, ops[0].now), ops[0].now, ops[0].requested).1] + rest
      else rest
  }

  /** The tokens one call grants to a client. */
  function Paid(cfg: Config, m: Buckets, op: Op, c: string): real {
    if op.Acquire? && op.client == c && Decide(cfg, BucketFor(cfg, m, c, op.now), op.now, op.requested).1.allowed
    then op.requested
    else 0.0
  }

  /** The tokens one client is granted during a run. */
  function Granted(cfg: Config, m: Buckets, ops: seq<Op>, c: string): real
    decreases |ops|
  {
    if ops == [] then 0.0
    else Paid(cfg, m, ops[0], c) + Granted(cfg, Apply(cfg, m, ops[0]), ops[1..], c)
  }

  predicate Concerns(op: Op, c: string) {
    match op
    case Acquire(client, _, _) => client == c
    case Reset(who) => ClearsAll(op) || who.value == c
  }

  /** The calls of a run that mention one client, or everybody. */
  function Only(ops: seq<Op>, c: string): seq<Op> {
    if ops == [] then []
    else if Concerns(ops[0], c) then [ops[0]] + Only(ops[1..], c)
    else Only(ops[1..], c)
  }

  /** A reset that empties the client's entry is worth one more capacity. */
  function Credit(cfg: Config, op: Op, c: string): real {
    if op.Reset? && Concerns(op, c) then cfg.capacity else 0.0
  }

  /** One extra capacity for every reset of the client. */
  function ResetAllowance(cfg: Config, ops: seq<Op>, c: string): real {
    if ops == [] then 0.0 else Credit(cfg, ops[0], c) + ResetAllowance(cfg, ops[1..], c)
  }

  /** No call asks for less than nothing. */
  predicate NoneNegative(ops: seq<Op>) {
    forall i :: 0 <= i < |ops| && ops[i].Acquire? ==> ops[i].requested >= 0.0
  }

  /** Call times never go back and stay between t1 and t2. */
  predicate InWindow(ops: seq<Op>, t1: real, t2: real)
    decreases |ops|
  {
    t1 <= t2 &&
    (ops != [] ==>
      match ops[0]
      case Acquire(_, now, _) => t1 <= now && InWindow(ops[1..], now, t2)
      case Reset(_) => InWindow(ops[1..], t1, t2))
  }

  /** What can drip into a bucket while the clock moves: nothing backwards, and never more than a full bucket. */
  function Drip(cfg: Config, from: real, now: real): real {
    Min(cfg.capacity, Accrued(cfg, Max(0.0, now - from)))
  }

  /** The drips of one client's calls, each from the time of its call before; `last` is the time of the first one. */
  function Dripped(cfg: Config, ops: seq<Op>, c: string, last: real): real
    decreases |ops|
  {
    if ops == [] then 0.0
    else if ops[0].Acquire? && ops[0].client == c then
      Drip(cfg, last, ops[0].now) + Dripped(cfg, ops[1..], c, ops[0].now)
    else Dripped(cfg, ops[1..], c, last)
  }

  /** The time of the client's last call. */
  function LastCall(ops: seq<Op>, c: string, last: real): real
    decreases |ops|
  {
    if ops == [] then last
    else if ops[0].Acquire? && ops[0].client == c then LastCall(ops[1..], c, ops[0].now)
    else LastCall(ops[1..], c, last)
  }

  ghost predicate Agree(m: Buckets, m': Buckets, c: string) {
    (c in m <==> c in m') && (c in m ==> m[c] == m'[c])
  }

  /**
    Clients do not interfere: in any run, a client gets the same answers, the same
    tokens and the same bucket as in the run of its own calls alone.
  */
  lemma {:induction false} NonInterference(cfg: Config, m: Buckets, m': Buckets, ops: seq<Op>, c: string)
    requires Agree(m, m', c)
    ensures Answers(cfg, m, ops, c) == Answers(cfg, m', Only(ops, c), c)
    ensures Granted(cfg, m, ops, c) == Granted(cfg, m', Only(ops, c), c)
    ensures Agree(After(cfg, m, ops), After(cfg, m', Only(ops, c)), c)
    decreases |ops|
  {
    if ops == [] {
    } else if Concerns(ops[0], c) {
      assert Only(ops, c)[1..] == Only(ops[1..], c);
      NonInterference(cfg, Apply(cfg, m, ops[0]), Apply(cfg, m', ops[0]), ops[1..], c);
    } else {
      NonInterference(cfg, Apply(cfg, m, ops[0]), m', ops[1..], c);
    }
  }

  // ---------------------------------------------------------------- window bound

  /** What a client could still be granted at time t: the potential of the window argument. */
  function Available(cfg: Config, m: Buckets, c: string, t: real): real {
    if c in m then Refill(cfg, m[c], t).tokens else cfg.capacity
  }

  predicate Filled(cfg: Config, b: Bucket) {
    0.0 <= b.tokens <= cfg.capacity
  }

  /** No bucket is overdrawn or overflows. */
  ghost predicate Healthy(cfg: Config, m: Buckets) {
    forall c :: c in m ==> Filled(cfg, m[c])
  }

  lemma AccruedAdds(cfg: Config, s1: real, s2: real)
    requires Sane(cfg) && s1 >= 0.0 && s2 >= 0.0
    ensures Accrued(cfg, s1 + s2) == Accrued(cfg, s1) + Accrued(cfg, s2)
    ensures Accrued(cfg, s1) >= 0.0 && Accrued(cfg, s2) >= 0.0 && Accrued(cfg, 0.0) == 0.0
  {
  }

  lemma AccruedGrows(cfg: Config, s1: real, s2: real)
    requires Sane(cfg) && 0.0 <= s1 <= s2
    ensures 0.0 <= Accrued(cfg, s1) <= Accrued(cfg, s2)
  {
    AccruedAdds(cfg, s1, s2 - s1);
  }

  lemma RefillBounds(cfg: Config, b: Bucket, now: real)
    requires Sane(cfg) && Filled(cfg, b)
    ensures Filled(cfg, Refill(cfg, b, now)) && Refill(cfg, b, now).tokens >= b.tokens
    ensures b.lastRefill == now ==> Refill(cfg, b, now) == b
  {
    AccruedAdds(cfg, Max(0.0, now - b.lastRefill), 0.0);
    hide Accrued;
  }

  /** Moving the clock from one reading to any other adds at most one drip. */
  lemma RefillMoves(cfg: Config, b: Bucket, last: real, now: real)
    requires Sane(cfg) && Filled(cfg, b)
    ensures Refill(cfg, b, now).tokens <= Refill(cfg, b, last).tokens + Drip(cfg, last, now)
    ensures 0.0 <= Drip(cfg, last, now) <= cfg.capacity
  {
    var x, y, z := Max(0.0, now - b.lastRefill), Max(0.0, last - b.lastRefill), Max(0.0, now - last);
    AccruedAdds(cfg, y, z);
    AccruedGrows(cfg, x, y + z);
    hide Accrued;
  }

  /** A call pays for what it grants out of what was available, whether or not it starts a ban. */
  lemma CallPays(cfg: Config, m: Buckets, c: string, last: real, now: real, requested: real)
    requires Sane(cfg) && Healthy(cfg, m) && requested >= 0.0
    ensures var (b, d) := Decide(cfg, BucketFor(cfg, m, c, now), now, requested);
            && Filled(cfg, b)
            && Available(cfg, m[c := b], c, now) + (if d.allowed then requested else 0.0)
               <= Available(cfg, m, c, last) + Drip(cfg, last, now)
  {
    var before := BucketFor(cfg, m, c, now);
    var (b, d) := Decide(cfg, before, now, requested);
    RefillBounds(cfg, before, now);
    RefillMoves(cfg, before, last, now);
    RefillBounds(cfg, before, last);
    DecideMeaning(cfg, before, now, requested);
    hide Decide, Refill, Drip;
    RefillBounds(cfg, b, now);
  }

  /** A call leaves a banned bucket alone; otherwise it refills it and takes what it grants. */
  lemma DecideMeaning(cfg: Config, b: Bucket, now: real, requested: real)
    ensures var (b', d) := Decide(cfg, b, now, requested);
            var r := Refill(cfg, b, now);
            if b.bannedUntil > now then b' == b && !d.allowed
            else
              && (d.allowed <==> r.tokens >= requested)
              && b'.tokens == (if d.allowed then r.tokens - requested else r.tokens) && b'.lastRefill == now
              && b'.bannedUntil == if d.allowed || cfg.banSeconds <= 0.0 then b.bannedUntil else now + cfg.banSeconds
  {
    hide Refill, EffectiveRate, Truncate;
    assert Refill(cfg, b, now).lastRefill == now && Refill(cfg, b, now).bannedUntil == b.bannedUntil
      by { RefillStamps(cfg, b, now); }
  }

  lemma RefillStamps(cfg: Config, b: Bucket, now: real)
    ensures Refill(cfg, b, now).lastRefill == now && Refill(cfg, b, now).bannedUntil == b.bannedUntil
  {
  }

  /** What one call of a run changes in the potential of a client. */
  lemma FirstCall(cfg: Config, m: Buckets, op: Op, c: string, last: real)
    requires Sane(cfg) && Healthy(cfg, m) && (op.Acquire? ==> op.requested >= 0.0)
    ensures Healthy(cfg, Apply(cfg, m, op))
    ensures Paid(cfg, m, op, c) + Available(cfg, Apply(cfg, m, op), c, LastCall([op], c, last))
         <= Available(cfg, m, c, last) + Dripped(cfg, [op], c, last) + Credit(cfg, op, c)
  {
    hide Refill, Decide, Drip, Filled;
    assert [op][1..] == [];
    if op.Acquire? {
      CallPays(cfg, m, op.client, last, op.now, op.requested);
    } else if Concerns(op, c) {
      AvailableBounds(cfg, m, c, last);
    } else {
      assert Agree(m, Apply(cfg, m, op), c);
    }
  }

  lemma AvailableBounds(cfg: Config, m: Buckets, c: string, t: real)
    requires Sane(cfg) && Healthy(cfg, m)
    ensures 0.0 <= Available(cfg, m, c, t) <= cfg.capacity
  {
    if c in m {
      RefillBounds(cfg, m[c], t);
    }
  }

  /**
    In any run, whatever the order of its call times: what a client is granted and could
    still get is at most what it could get before, its drips, and a capacity for each reset.
  */
  lemma {:induction false} GrantedFromAvailable(cfg: Config, m: Buckets, ops: seq<Op>, c: string, last: real)
    requires Sane(cfg) && Healthy(cfg, m) && NoneNegative(ops)
    ensures Healthy(cfg, After(cfg, m, ops))
    ensures Granted(cfg, m, ops, c) + Available(cfg, After(cfg, m, ops), c, LastCall(ops, c, last))
         <= Available(cfg, m, c, last) + Dripped(cfg, ops, c, last) + ResetAllowance(cfg, ops, c)
    decreases |ops|
  {
    hide Healthy, Apply, Available, Paid, Credit, Drip;
    if ops != [] {
      assert ops[0] == [ops[0]][0] && [ops[0]][1..] == [];
      FirstCall(cfg, m, ops[0], c, last);
      GrantedFromAvailable(cfg, Apply(cfg, m, ops[0]), ops[1..], c, LastCall([ops[0]], c, last));
    }
  }

  /** On a clock that only moves forward the drips of a window are at most what refills in it. */
  lemma {:induction false} DrippedInWindow(cfg: Config, ops: seq<Op>, c: string, last: real, t1: real, t2: real)
    requires Sane(cfg) && last <= t1 && InWindow(ops, t1, t2)
    ensures Dripped(cfg, ops, c, last) <= Accrued(cfg, t2 - last)
    decreases |ops|
  {
    hide Accrued;
    if ops == [] {
      AccruedGrows(cfg, 0.0, t2 - last);
      AccruedAdds(cfg, 0.0, 0.0);
    } else if ops[0].Acquire? {
      var now := ops[0].now;
      WindowNotEmpty(ops[1..], now, t2);
      if ops[0].client == c {
        DrippedInWindow(cfg, ops[1..], c, now, now, t2);
        AccruedAdds(cfg, now - last, t2 - now);
      } else {
        DrippedInWindow(cfg, ops[1..], c, last, now, t2);
      }
    } else {
      DrippedInWindow(cfg, ops[1..], c, last, t1, t2);
    }
  }

  lemma WindowNotEmpty(ops: seq<Op>, t1: real, t2: real)
    requires InWindow(ops, t1, t2)
    ensures t1 <= t2
  {
  }

  /**
    The rate limit for calls in any order, as threads that read the clock before they take
    the lock can apply them. After any history, the tokens granted to one client by a window
    of calls are at most the capacity and its drips, counted from any time, plus one more
    capacity for each reset.
  */
  lemma WindowBoundAnyOrder(cfg: Config, history: seq<Op>, window: seq<Op>, c: string, t1: real)
    requires Sane(cfg) && NoneNegative(history) && NoneNegative(window)
    ensures Granted(cfg, After(cfg, map[], history), window, c)
         <= cfg.capacity + Dripped(cfg, window, c, t1) + ResetAllowance(cfg, window, c)
  {
    var m := After(cfg, map[], history);
    hide Available, Apply, Drip, Healthy;
    assert Healthy(cfg, map[]) by { EmptyIsHealthy(cfg); }
    GrantedFromAvailable(cfg, map[], history, c, t1);
    GrantedFromAvailable(cfg, m, window, c, t1);
    AvailableBounds(cfg, m, c, t1);
    AvailableBounds(cfg, After(cfg, m, window), c, LastCall(window, c, t1));
  }

  lemma EmptyIsHealthy(cfg: Config)
    ensures Healthy(cfg, map[])
  {
  }

  /**
    The rate limit on a clock that does not go back in the window: at most the capacity plus
    what refills between t1 and t2, plus one more capacity for each reset of the client.
  */
  lemma WindowBound(cfg: Config, history: seq<Op>, window: seq<Op>, c: string, t1: real, t2: real)
    requires Sane(cfg) && NoneNegative(history) && NoneNegative(window) && InWindow(window, t1, t2)
    ensures Granted(cfg, After(cfg, map[], history), window, c)
         <= cfg.capacity + cfg.refillRate * (t2 - t1) + ResetAllowance(cfg, window, c)
  {
    assert Accrued(cfg, t2 - t1) == cfg.refillRate * (t2 - t1);
    hide Accrued, Apply, InWindow;
    WindowBoundAnyOrder(cfg, history, window, c, t1);
    DrippedInWindow(cfg, window, c, t1, t1, t2);
  }

  // ---------------------------------------------------------------- the bound is exact

  /** One client's calls at given times. */
  function Calls(c: string, times: seq<real>, requests: seq<real>): (ops: seq<Op>)
    requires |times| == |requests|
    ensures |ops| == |times| && forall i :: 0 <= i < |ops| ==> ops[i] == Acquire(c, times[i], requests[i])
  {
    seq(|times|, i requires 0 <= i < |times| => Acquire(c, times[i], requests[i]))
  }

  /** The drips of calls at given times, counted from the first. */
  function Drips(cfg: Config, times: seq<real>, last: real): real {
    if times == [] then 0.0 else Drip(cfg, last, times[0]) + Drips(cfg, times[1..], times[0])
  }

  lemma {:induction false} CallsDrip(cfg: Config, c: string, times: seq<real>, requests: seq<real>, last: real)
    requires |times| == |requests|
    ensures Dripped(cfg, Calls(c, times, requests), c, last) == Drips(cfg, times, last)
    ensures ResetAllowance(cfg, Calls(c, times, requests), c) == 0.0
    decreases |times|
  {
    if times != [] {
      assert Calls(c, times, requests)[1..] == Calls(c, times[1..], requests[1..]);
      CallsDrip(cfg, c, times[1..], requests[1..], times[0]);
    }
  }

  /** Asking each time for exactly what has dripped since the last call. */
  function Greedy(cfg: Config, times: seq<real>, last: real): (requests: seq<real>)
    ensures |requests| == |times|
  {
    if times == [] then [] else [Drip(cfg, last, times[0])] + Greedy(cfg, times[1..], times[0])
  }

  /** A client that has taken everything gets every drip, whatever ban is configured. */
  lemma {:induction false} GreedyGetsTheDrips(cfg: Config, m: Buckets, c: string, times: seq<real>, last: real)
    requires Sane(cfg) && c in m && m[c] == Bucket(0.0, last, 0.0) && forall i :: 0 <= i < |times| ==> times[i] >= 0.0
    ensures Granted(cfg, m, Calls(c, times, Greedy(cfg, times, last)), c) == Drips(cfg, times, last)
    ensures NoneNegative(Calls(c, times, Greedy(cfg, times, last)))
    decreases |times|
  {
    if times != [] {
      var requests := Greedy(cfg, times, last);
      var ops := Calls(c, times, requests);
      var m' := Apply(cfg, m, ops[0]);
      TakesTheDrip(cfg, m[c], times[0]);
      hide Drip, Decide;
      assert requests[1..] == Greedy(cfg, times[1..], times[0]);
      assert ops[1..] == Calls(c, times[1..], requests[1..]);
      GreedyGetsTheDrips(cfg, m', c, times[1..], times[0]);
      assert forall i :: 1 <= i < |ops| ==> ops[i] == ops[1..][i - 1];
    }
  }

  lemma TakesTheDrip(cfg: Config, b: Bucket, now: real)
    requires Sane(cfg) && b.tokens == 0.0 && b.bannedUntil == 0.0 <= now
    ensures var drip := Drip(cfg, b.lastRefill, now);
            && drip >= 0.0 && Decide(cfg, b, now, drip).0 == Bucket(0.0, now, 0.0)
            && Decide(cfg, b, now, drip).1.allowed
  {
    AccruedAdds(cfg, Max(0.0, now - b.lastRefill), 0.0);
    assert Refill(cfg, b, now) == Bucket(Drip(cfg, b.lastRefill, now), now, 0.0);
    hide Refill, Drip;
    Grants(cfg, b, now, Drip(cfg, b.lastRefill, now));
  }

  /** What a new client gets that first takes the whole capacity and then every drip. */
  lemma GreedyGetsEverything(cfg: Config, c: string, times: seq<real>)
    requires Sane(cfg) && times != [] && forall i :: 0 <= i < |times| ==> times[i] >= 0.0
    ensures var requests := [cfg.capacity] + Greedy(cfg, times[1..], times[0]);
            && NoneNegative(Calls(c, times, requests))
            && Granted(cfg, map[], Calls(c, times, requests), c) == cfg.capacity + Drips(cfg, times[1..], times[0])
  {
    var requests := [cfg.capacity] + Greedy(cfg, times[1..], times[0]);
    var ops := Calls(c, times, requests);
    var full := Fresh(cfg, times[0]);
    RefillBounds(cfg, full, times[0]);
    Grants(cfg, full, times[0], cfg.capacity);
    hide Drip, Decide, Refill;
    var m := Apply(cfg, map[], ops[0]);
    assert m[c] == Bucket(0.0, times[0], 0.0);
    assert requests[1..] == Greedy(cfg, times[1..], times[0]);
    assert ops[1..] == Calls(c, times[1..], requests[1..]);
    GreedyGetsTheDrips(cfg, m, c, times[1..], times[0]);
    assert forall i :: 1 <= i < |ops| ==> ops[i] == ops[1..][i - 1];
  }

  predicate AtLeastZero(requests: seq<real>) {
    forall i :: 0 <= i < |requests| ==> requests[i] >= 0.0
  }

  /**
    When the promised bound holds: calls of a new client at given times, in the order in
    which they take effect, keep to capacity + refill_rate * (t2 - t1) whatever they ask for
    if and only if the drips between the consecutive times do. A window without a step back
    always does.
  */
  lemma BoundHoldsExactly(cfg: Config, c: string, times: seq<real>, t1: real, t2: real)
    requires Sane(cfg) && times != [] && forall i :: 0 <= i < |times| ==> times[i] >= 0.0
    ensures (forall requests: seq<real> :: |requests| == |times| && AtLeastZero(requests) ==>
               Granted(cfg, map[], Calls(c, times, requests), c) <= cfg.capacity + Accrued(cfg, t2 - t1))
            <==> Drips(cfg, times[1..], times[0]) <= Accrued(cfg, t2 - t1)
  {
    var greedy := [cfg.capacity] + Greedy(cfg, times[1..], times[0]);
    GreedyGetsEverything(cfg, c, times);
    assert AtLeastZero(greedy) by {
      assert forall i :: 0 <= i < |greedy| ==> Calls(c, times, greedy)[i].requested == greedy[i];
    }
    hide Accrued, Drip, Granted;
    forall requests: seq<real> | |requests| == |times| && AtLeastZero(requests)
      ensures Granted(cfg, map[], Calls(c, times, requests), c) <= cfg.capacity + Drips(cfg, times[1..], times[0])
    {
      NewClientBound(cfg, c, times, requests);
    }
  }

  lemma NewClientBound(cfg: Config, c: string, times: seq<real>, requests: seq<real>)
    requires Sane(cfg) && times != [] && |requests| == |times| && AtLeastZero(requests)
    ensures Granted(cfg, map[], Calls(c, times, requests), c) <= cfg.capacity + Drips(cfg, times[1..], times[0])
  {
    WindowBoundAnyOrder(cfg, [], Calls(c, times, requests), c, times[0]);
    CallsDrip(cfg, c, times, requests, times[0]);
    AccruedAdds(cfg, 0.0, 0.0);
    assert Drip(cfg, times[0], times[0]) == 0.0;
  }

  /** One step back of a second: twice the capacity is granted in a window of no length. */
  lemma BackwardsClockBreaksTheBound(c: string)
    ensures var cfg := Config(1.0, 1.0, 0.0);
            var ops := [Acquire(c, 1.0, 1.0), Acquire(c, 0.0, 0.0), Acquire(c, 1.0, 1.0)];
            Granted(cfg, map[], ops, c) > cfg.capacity + cfg.refillRate * (1.0 - 1.0)
  {
    var cfg := Config(1.0, 1.0, 0.0);
    var first, back := Acquire(c, 1.0, 1.0), Acquire(c, 0.0, 0.0);
    var ops := [first, back, first];
    var m1 := Apply(cfg, map[], first);
    var m2 := Apply(cfg, m1, back);
    TakesTheToken(cfg, map[], c);
    TurnsTheClockBack(cfg, m1, c);
    TakesTheToken(cfg, m2, c);
    hide Apply, Paid;
    hide Granted;
    ThreeSteps(cfg, map[], first, back, first, c);
  }

  lemma ThreeSteps(cfg: Config, m: Buckets, x: Op, y: Op, z: Op, c: string)
    ensures var m1 := Apply(cfg, m, x);
            var m2 := Apply(cfg, m1, y);
            Granted(cfg, m, [x, y, z], c) == Paid(cfg, m, x, c) + Paid(cfg, m1, y, c) + Paid(cfg, m2, z, c)
  {
    hide Apply, Paid;
    var m1 := Apply(cfg, m, x);
    var m2 := Apply(cfg, m1, y);
    assert [x, y, z][1..] == [y, z] && [y, z][1..] == [z] && [z][1..] == [];
    assert Granted(cfg, m2, [z], c) == Paid(cfg, m2, z, c) + Granted(cfg, Apply(cfg, m2, z), [], c);
    assert Granted(cfg, m1, [y, z], c) == Paid(cfg, m1, y, c) + Granted(cfg, m2, [z], c);
  }

  lemma Grants(cfg: Config, b: Bucket, now: real, requested: real)
    requires b.bannedUntil <= now && Refill(cfg, b, now).tokens >= requested
    ensures var r := Refill(cfg, b, now);
            && Decide(cfg, b, now, requested).0 == r.(tokens := r.tokens - requested)
            && Decide(cfg, b, now, requested).1.allowed
  {
    hide Refill, Truncate, EffectiveRate;
  }

  lemma RefillsOne(cfg: Config, b: Bucket)
    requires cfg == Config(1.0, 1.0, 0.0) && (b == Bucket(0.0, 0.0, 0.0) || b == Fresh(cfg, 1.0))
    ensures Refill(cfg, b, 1.0) == Bucket(1.0, 1.0, 0.0)
  {
    OneAccrued(cfg);
    NothingAccrued(cfg);
    hide Accrued;
  }

  lemma OneAccrued(cfg: Config)
    requires cfg == Config(1.0, 1.0, 0.0)
    ensures Accrued(cfg, 1.0) == 1.0
  {
  }

  lemma NothingAccrued(cfg: Config)
    ensures Accrued(cfg, 0.0) == 0.0
  {
  }

  lemma RefillsNothing(cfg: Config, b: Bucket)
    requires cfg == Config(1.0, 1.0, 0.0) && b == Bucket(0.0, 1.0, 0.0)
    ensures Refill(cfg, b, 0.0) == Bucket(0.0, 0.0, 0.0)
  {
    NothingAccrued(cfg);
    hide Accrued;
  }

  lemma TakesTheToken(cfg: Config, m: Buckets, c: string)
    requires cfg == Config(1.0, 1.0, 0.0) && (c in m ==> m[c] == Bucket(0.0, 0.0, 0.0))
    ensures var m' := Apply(cfg, m, Acquire(c, 1.0, 1.0));
            c in m' && m'[c] == Bucket(0.0, 1.0, 0.0) && Paid(cfg, m, Acquire(c, 1.0, 1.0), c) == 1.0
  {
    hide Decide, Refill;
    var b := BucketFor(cfg, m, c, 1.0);
    RefillsOne(cfg, b);
    Grants(cfg, b, 1.0, 1.0);
  }

  lemma TurnsTheClockBack(cfg: Config, m: Buckets, c: string)
    requires cfg == Config(1.0, 1.0, 0.0) && c in m && m[c] == Bucket(0.0, 1.0, 0.0)
    ensures var m' := Apply(cfg, m, Acquire(c, 0.0, 0.0));
            c in m' && m'[c] == Bucket(0.0, 0.0, 0.0) && Paid(cfg, m, Acquire(c, 0.0, 0.0), c) == 0.0
  {
    hide Decide, Refill;
    var b := BucketFor(cfg, m, c, 0.0);
    RefillsNothing(cfg, b);
    Grants(cfg, b, 0.0, 0.0);
  }

  // ---------------------------------------------------------------- bans

  /** After a reset the client's next call is answered like the first call of a new client. */
  lemma ResetStartsAnew(cfg: Config, m: Buckets, who: Option<string>, c: string, now: real, requested: real)
    requires who.None? || who.value == [] || who.value == c
    ensures var full := Bucket(cfg.capacity, now, 0.0);
            Answers(cfg, m, [Reset(who), Acquire(c, now, requested)], c) == [Decide(cfg, full, now, requested).1]
    ensures var full := Bucket(cfg.capacity, now, 0.0);
            var after := After(cfg, m, [Reset(who), Acquire(c, now, requested)]);
            && c in after && after[c] == Decide(cfg, full, now, requested).0
  {
    hide Decide;
    var ops := [Reset(who), Acquire(c, now, requested)];
    assert ops[1..] == [Acquire(c, now, requested)] && ops[1..][1..] == [];
    var m' := Apply(cfg, m, ops[0]);
    assert c !in m' && BucketFor(cfg, m', c, now) == Bucket(cfg.capacity, now, 0.0);
    assert Answers(cfg, m', ops[1..], c) == [Decide(cfg, Bucket(cfg.capacity, now, 0.0), now, requested).1];
    assert After(cfg, m', ops[1..]) == After(cfg, Apply(cfg, m', ops[1]), []);
  }

  predicate AllBefore(ops: seq<Op>, c: string, t: real) {
    forall i :: 0 <= i < |ops| && Concerns(ops[i], c) ==> ops[i].Acquire? && ops[i].now < t
  }

  /** While a ban lasts every call of the client is refused, and none of them extends the ban. */
  lemma {:induction false} BanHolds(cfg: Config, m: Buckets, ops: seq<Op>, c: string)
    requires c in m && AllBefore(ops, c, m[c].bannedUntil)
    ensures Agree(m, After(cfg, m, ops), c)
    ensures forall d :: d in Answers(cfg, m, ops, c) ==> !d.allowed
    decreases |ops|
  {
    if ops != [] {
      var m' := Apply(cfg, m, ops[0]);
      assert Agree(m, m', c) by {
        if Concerns(ops[0], c) { assert ops[0].Acquire? && ops[0].now < m[c].bannedUntil; }
      }
      assert AllBefore(ops[1..], c, m'[c].bannedUntil) by {
        forall i | 0 <= i < |ops[1..]| && Concerns(ops[1..][i], c)
          ensures ops[1..][i].Acquire? && ops[1..][i].now < m'[c].bannedUntil
        {
          assert ops[1..][i] == ops[i + 1];
        }
      }
      BanHolds(cfg, m', ops[1..], c);
    }
  }

  // ---------------------------------------------------------------- Retry-After

  lemma TruncateBounds(x: real)
    requires x >= 0.0
    ensures Truncate(x) as real <= x < Truncate(x) as real + 1.0
  {
  }

  /** The time an amount takes at the effective rate is enough for it. */
  lemma DripTime(cfg: Config, amount: real, seconds: real)
    requires cfg.refillRate >= 0.001 && amount >= 0.0
    ensures amount / EffectiveRate(cfg) >= 0.0
    ensures seconds >= amount / EffectiveRate(cfg) ==> Accrued(cfg, seconds) >= amount
  {
    var q := amount / cfg.refillRate;
    assert q >= 0.0;
    assert amount == q * cfg.refillRate;
    if seconds >= q {
      assert (seconds - q) * cfg.refillRate >= 0.0;
    }
  }

  /**
    A denied client that waits the advertised Retry-After is served. No ban is configured,
    the bucket refills at a thousandth of a token per second or more, and the request fits
    the capacity. Meanwhile other clients may do anything that does not concern this one.
  */
  lemma RetryAfterSuffices(cfg: Config, m: Buckets, c: string, now: real, requested: real, others: seq<Op>, later: real)
    requires cfg.banSeconds <= 0.0 && cfg.refillRate >= 0.001 && requested <= cfg.capacity
    requires 0.0 <= now && (c in m ==> m[c].bannedUntil <= now)
    requires Only(others, c) == []
    ensures var d := Decide(cfg, BucketFor(cfg, m, c, now), now, requested).1;
            var m1 := After(cfg, Apply(cfg, m, Acquire(c, now, requested)), others);
            !d.allowed && later >= now + d.headers.retryAfter.value as real
            ==> Decide(cfg, BucketFor(cfg, m1, c, later), later, requested).1.allowed
  {
    hide EffectiveRate, Accrued;
    var m0 := Apply(cfg, m, Acquire(c, now, requested));
    NonInterference(cfg, m0, m0, others, c);
    var (b, d) := Decide(cfg, BucketFor(cfg, m, c, now), now, requested);
    if !d.allowed && later >= now + d.headers.retryAfter.value as real {
      DripTime(cfg, requested - b.tokens, later - now);
      TruncateBounds((requested - b.tokens) / EffectiveRate(cfg));
    }
  }

  /** A request above the capacity is never served, however long the client waits. */
  lemma OversizedNeverServed(cfg: Config, b: Bucket, now: real, requested: real)
    requires requested > cfg.capacity
    ensures !Decide(cfg, b, now, requested).1.allowed
  {
  }

  /** Without refill the advertised wait never helps, although it is always finite. */
  lemma RetryAfterNeedsRefill(cfg: Config, b: Bucket, now: real, requested: real, later: real)
    requires cfg.refillRate == 0.0 && b.bannedUntil <= now <= later
    requires !Decide(cfg, b, now, requested).1.allowed
    ensures !Decide(cfg, Decide(cfg, b, now, requested).0, later, requested).1.allowed
  {
    assert forall s: real :: Accrued(cfg, s) == 0.0;
    hide EffectiveRate, Accrued, Truncate;
  }

  /** Whether waiting the advertised time always helps a client that was refused what fits the capacity. */
  ghost predicate WaitSuffices(cfg: Config) {
    forall b: Bucket, now: real, requested: real, later: real ::
      && Filled(cfg, b) && b.bannedUntil <= now && 0.0 <= now && requested <= cfg.capacity
      && !Decide(cfg, b, now, requested).1.allowed
      && later >= now + Decide(cfg, b, now, requested).1.headers.retryAfter.value as real
      ==> Decide(cfg, Decide(cfg, b, now, requested).0, later, requested).1.allowed
  }

  /** A refusal without a ban: what is missing, divided by at least a thousandth of a token per second. */
  lemma Denied(cfg: Config, b: Bucket, now: real, requested: real)
    requires cfg.banSeconds <= 0.0 && b.bannedUntil <= now && Refill(cfg, b, now).tokens < requested
    ensures var r := Refill(cfg, b, now);
            && Decide(cfg, b, now, requested).0 == r && !Decide(cfg, b, now, requested).1.allowed
            && Decide(cfg, b, now, requested).1.headers.retryAfter
               == Some(MaxInt(1, Truncate((requested - r.tokens) / EffectiveRate(cfg)) + 1))
  {
    hide Refill, Truncate, EffectiveRate;
  }

  /** Under a thousandth of a token per second: a request for half a drip more is refused again a second later. */
  lemma SlowRefillBreaksTheWait(cfg: Config)
    requires cfg.banSeconds <= 0.0 && 0.0 <= cfg.refillRate < 0.001 && cfg.refillRate < cfg.capacity
    ensures var b := Bucket(0.0, 0.0, 0.0);
            var x := Min(cfg.capacity, (cfg.refillRate + 0.001) / 2.0);
            var (b', d) := Decide(cfg, b, 0.0, x);
            && !d.allowed && d.headers.retryAfter == Some(1) && x <= cfg.capacity
            && !Decide(cfg, b', 1.0, x).1.allowed
  {
    var b := Bucket(0.0, 0.0, 0.0);
    var x := Min(cfg.capacity, (cfg.refillRate + 0.001) / 2.0);
    assert Refill(cfg, b, 0.0) == b;
    assert Refill(cfg, b, 1.0) == Bucket(cfg.refillRate, 1.0, 0.0);
    assert EffectiveRate(cfg) == 0.001 && Truncate(x / 0.001) == 0;
    hide Decide, Refill, EffectiveRate, Truncate;
    Denied(cfg, b, 0.0, x);
    Denied(cfg, b, 1.0, x);
  }

  /** A capacity that refills within a second. */
  lemma TinyCapacityRefills(cfg: Config, b: Bucket, now: real, requested: real, later: real)
    requires Sane(cfg) && Filled(cfg, b) && cfg.banSeconds <= 0.0 && cfg.capacity <= cfg.refillRate
    requires b.bannedUntil <= now && requested <= cfg.capacity && later >= now + 1.0
    requires !Decide(cfg, b, now, requested).1.allowed
    ensures Decide(cfg, Decide(cfg, b, now, requested).0, later, requested).1.allowed
  {
    RefillBounds(cfg, b, now);
    DecideMeaning(cfg, b, now, requested);
    Denied(cfg, b, now, requested);
    var r := Refill(cfg, b, now);
    FullAfterASecond(cfg, r, later);
    hide Refill, Decide;
    DecideMeaning(cfg, r, later, requested);
  }

  lemma FullAfterASecond(cfg: Config, b: Bucket, later: real)
    requires Sane(cfg) && Filled(cfg, b) && cfg.capacity <= cfg.refillRate && later >= b.lastRefill + 1.0
    ensures Refill(cfg, b, later).tokens == cfg.capacity
  {
    AccruedGrows(cfg, 1.0, later - b.lastRefill);
    assert Accrued(cfg, 1.0) == cfg.refillRate;
    hide Accrued;
  }

  /**
    Without bans, waiting the advertised time suffices for every refusal of what fits the
    capacity if and only if the bucket refills at a thousandth of a token per second or
    more, or holds no more than one second refills.
  */
  lemma RetryAfterExact(cfg: Config)
    requires cfg.banSeconds <= 0.0 && Sane(cfg)
    ensures WaitSuffices(cfg) <==> cfg.refillRate >= 0.001 || cfg.capacity <= cfg.refillRate
  {
    if cfg.refillRate >= 0.001 || cfg.capacity <= cfg.refillRate {
      forall b: Bucket, now: real, requested: real, later: real |
        && Filled(cfg, b) && b.bannedUntil <= now && 0.0 <= now && requested <= cfg.capacity
        && !Decide(cfg, b, now, requested).1.allowed
        && later >= now + Decide(cfg, b, now, requested).1.headers.retryAfter.value as real
        ensures Decide(cfg, Decide(cfg, b, now, requested).0, later, requested).1.allowed
      {
        OneRefusal(cfg, b, now, requested, later);
      }
    } else {
      var b := Bucket(0.0, 0.0, 0.0);
      var x := Min(cfg.capacity, (cfg.refillRate + 0.001) / 2.0);
      SlowRefillBreaksTheWait(cfg);
      hide Decide;
      assert Filled(cfg, b) && b.bannedUntil <= 0.0;
    }
  }

  lemma OneRefusal(cfg: Config, b: Bucket, now: real, requested: real, later: real)
    requires cfg.banSeconds <= 0.0 && Sane(cfg) && (cfg.refillRate >= 0.001 || cfg.capacity <= cfg.refillRate)
    requires Filled(cfg, b) && b.bannedUntil <= now && 0.0 <= now && requested <= cfg.capacity
    requires !Decide(cfg, b, now, requested).1.allowed
    requires later >= now + Decide(cfg, b, now, requested).1.headers.retryAfter.value as real
    ensures Decide(cfg, Decide(cfg, b, now, requested).0, later, requested).1.allowed
  {
    if cfg.refillRate >= 0.001 {
      var m := map["" := b];
      hide Decide;
      RetryAfterSuffices(cfg, m, "", now, requested, [], later);
    } else {
      DecideMeaning(cfg, b, now, requested);
      Denied(cfg, b, now, requested);
      hide Decide, Refill, Truncate, EffectiveRate;
      TinyCapacityRefills(cfg, b, now, requested, later);
    }
  }

  /** A refusal issued inside a ban advertises a wait that always outlasts the ban. */
  lemma RetryAfterOutlastsBan(cfg: Config, b: Bucket, now: real, requested: real, later: real)
    requires b.bannedUntil > now
    requires later >= now + Decide(cfg, b, now, requested).1.headers.retryAfter.value as real
    ensures Decide(cfg, b, now, requested).0.bannedUntil <= later
  {
    TruncateBounds(b.bannedUntil - now);
  }

  /**
    The refusal that starts a ban truncates the duration it advertises: waiting exactly that
    long gets past the ban if and only if the configured duration is a whole number of seconds.
  */
  lemma BanStartRetryAfterExact(cfg: Config, b: Bucket, now: real, requested: real)
    requires cfg.banSeconds > 0.0 && b.bannedUntil <= now
    requires !Decide(cfg, b, now, requested).1.allowed
    ensures var (b', d) := Decide(cfg, b, now, requested);
            b'.bannedUntil <= now + d.headers.retryAfter.value as real
            <==> cfg.banSeconds == cfg.banSeconds.Floor as real
  {
    TruncateBounds(cfg.banSeconds);
  }

  lemma BanStartRetryAfterTooShort()
    ensures var (b', d) := Decide(Config(1.0, 1.0, 1.5), Bucket(0.0, 0.0, 0.0), 0.0, 1.0);
            b'.bannedUntil > 0.0 + d.headers.retryAfter.value as real
  {
    assert Truncate(1.5) == 1;
  }

  // ---------------------------------------------------------------- the four headers

  /** n is the whole part of x, without the sign. */
  predicate WholePart(n: int, x: real) {
    if x < 0.0 then n <= 0 && n as real - 1.0 < x <= n as real else n as real <= x < n as real + 1.0
  }

  /**
    What the headers say. The limit is the whole part of the capacity. A refusal promises no
    remaining tokens and advertises the least whole number of seconds that gets past the ban,
    or past the time the missing tokens take to drip; the one that starts a ban the whole
    part of its duration. The reset time is that of the end of the ban, of the advertised
    wait, or of the time a served client's bucket takes to fill.
  */
  lemma HeadersMeaning(cfg: Config, b: Bucket, now: real, requested: real)
    ensures var (b', d) := Decide(cfg, b, now, requested);
            var h := d.headers;
            var rate := if cfg.refillRate >= 0.001 then cfg.refillRate else 0.001;
            && WholePart(h.limit, cfg.capacity)
            && (d.allowed <==> h.retryAfter == None)
            && (d.allowed ==> WholePart(h.remaining, b'.tokens)
                              && WholePart(h.reset, now + (cfg.capacity - b'.tokens) / rate))
            && (!d.allowed ==> h.remaining == 0)
            && (b.bannedUntil > now ==>
                  && !d.allowed && WholePart(h.retryAfter.value - 1, b.bannedUntil - now)
                  && WholePart(h.reset, b.bannedUntil))
            && (b.bannedUntil <= now && !d.allowed ==>
                  && WholePart(h.reset, now + h.retryAfter.value as real)
                  && if cfg.banSeconds > 0.0 then WholePart(h.retryAfter.value, cfg.banSeconds)
                     else WholePart(h.retryAfter.value - 1, (requested - b'.tokens) / rate))
  {
    DecideMeaning(cfg, b, now, requested);
    var rate := EffectiveRate(cfg);
    var tokens := Refill(cfg, b, now).tokens;
    hide Refill;
    if tokens < requested {
      QuotientPositive(requested - tokens, rate);
    }
  }

  lemma QuotientPositive(x: real, rate: real)
    requires x >= 0.0 && rate > 0.0
    ensures x / rate >= 0.0
  {
  }

  // ---------------------------------------------------------------- X-RateLimit-Reset

  /** One second after the X-RateLimit-Reset of a served call, an untouched bucket is full again. */
  lemma ResetTellsWhenFull(cfg: Config, b: Bucket, now: real, requested: real, later: real)
    requires 0.0 <= now && 0.0 <= cfg.capacity && cfg.refillRate >= 0.001 && requested >= 0.0
    ensures var (b', d) := Decide(cfg, b, now, requested);
            d.allowed && later >= d.headers.reset as real + 1.0 ==> Refill(cfg, b', later).tokens == cfg.capacity
  {
    hide Accrued;
    var (b', d) := Decide(cfg, b, now, requested);
    if d.allowed && later >= d.headers.reset as real + 1.0 {
      var missing := cfg.capacity - b'.tokens;
      FillTime(cfg, missing, now, later);
    }
  }

  lemma FillTime(cfg: Config, missing: real, now: real, later: real)
    requires 0.0 <= now && cfg.refillRate >= 0.001 && missing >= 0.0
    requires later >= Truncate(now + missing / EffectiveRate(cfg)) as real + 1.0
    ensures later >= now && Accrued(cfg, later - now) >= missing
  {
    DripTime(cfg, missing, later - now);
    hide EffectiveRate, Accrued;
    TruncateBounds(now + missing / EffectiveRate(cfg));
  }

  /** Whether one second after the advertised reset time an untouched bucket is always full. */
  ghost predicate ResetIsFull(cfg: Config) {
    forall b: Bucket, now: real, requested: real, later: real ::
      && Filled(cfg, b) && 0.0 <= now && requested >= 0.0 && Decide(cfg, b, now, requested).1.allowed
      && later >= Decide(cfg, b, now, requested).1.headers.reset as real + 1.0
      ==> Refill(cfg, Decide(cfg, b, now, requested).0, later).tokens == cfg.capacity
  }

  lemma Served(cfg: Config, b: Bucket, now: real, requested: real)
    requires b.bannedUntil <= now && Refill(cfg, b, now).tokens >= requested
    ensures var left := Refill(cfg, b, now).tokens - requested;
            && Decide(cfg, b, now, requested).1.allowed
            && Decide(cfg, b, now, requested).1.headers.reset
               == Truncate(now + (cfg.capacity - left) / EffectiveRate(cfg))
  {
    hide Refill, Truncate, EffectiveRate;
  }

  /** A call that takes the whole capacity just before a whole second of the advertised time. */
  lemma SlowRefillBreaksTheReset(cfg: Config) returns (b: Bucket, now: real)
    requires 0.0 <= cfg.refillRate < 0.001 && cfg.capacity > 0.0
    ensures Filled(cfg, b) && 0.0 <= now
    ensures var (b', d) := Decide(cfg, b, now, cfg.capacity);
            && d.allowed && Refill(cfg, b', d.headers.reset as real + 1.0).tokens < cfg.capacity
  {
    var q := cfg.capacity / 0.001;
    var delta := ShortWait(cfg.capacity, cfg.refillRate, q);
    var whole := Truncate(q) + 1;
    now := whole as real + 1.0 - delta - q;
    b := Bucket(cfg.capacity, now, 0.0);
    FullBucket(cfg, now);
    assert EffectiveRate(cfg) == 0.001 && Truncate(now + q) == whole;
    assert Accrued(cfg, q + delta) < cfg.capacity;
    hide Decide, EffectiveRate, Truncate, Accrued;
    Served(cfg, b, now, cfg.capacity);
    Grants(cfg, b, now, cfg.capacity);
  }

  lemma FullBucket(cfg: Config, now: real)
    requires 0.0 <= cfg.capacity
    ensures Refill(cfg, Bucket(cfg.capacity, now, 0.0), now) == Bucket(cfg.capacity, now, 0.0)
  {
    assert Accrued(cfg, 0.0) == 0.0;
  }

  /** A little longer than at a thousandth of a token per second is not yet long enough. */
  lemma ShortWait(capacity: real, rate: real, q: real) returns (delta: real)
    requires 0.0 <= rate < 0.001 && capacity > 0.0 && q * 0.001 == capacity
    ensures 0.0 < delta <= 1.0 && (q + delta) * rate < capacity
  {
    assert q > 0.0;
    var gap := (0.001 - rate) * q;
    assert q * rate == capacity - gap;
    PositiveProduct(0.001 - rate, q);
    delta := if gap >= 0.001 then 0.5 else gap / 0.002;
    Smaller(delta, rate, gap);
  }

  lemma PositiveProduct(a: real, b: real)
    requires a > 0.0 && b > 0.0
    ensures a * b > 0.0
  {
  }

  lemma Smaller(delta: real, rate: real, gap: real)
    requires 0.0 <= rate < 0.001 && delta > 0.0 && delta * 0.001 < gap
    ensures delta * rate < gap
  {
    assert delta * (0.001 - rate) > 0.0;
  }

  /**
    One second after the advertised reset time every untouched bucket is full if and only if
    it refills at a thousandth of a token per second or more, or holds nothing.
  */
  lemma ResetExact(cfg: Config)
    requires Sane(cfg)
    ensures ResetIsFull(cfg) <==> cfg.refillRate >= 0.001 || cfg.capacity == 0.0
  {
    if cfg.refillRate >= 0.001 || cfg.capacity == 0.0 {
      forall b: Bucket, now: real, requested: real, later: real |
        && Filled(cfg, b) && 0.0 <= now && requested >= 0.0 && Decide(cfg, b, now, requested).1.allowed
        && later >= Decide(cfg, b, now, requested).1.headers.reset as real + 1.0
        ensures Refill(cfg, Decide(cfg, b, now, requested).0, later).tokens == cfg.capacity
      {
        if cfg.refillRate >= 0.001 {
          hide Decide, Refill;
          ResetTellsWhenFull(cfg, b, now, requested, later);
        } else {
          RefillBounds(cfg, b, now);
          DecideMeaning(cfg, b, now, requested);
          hide Decide, Refill;
          RefillBounds(cfg, Decide(cfg, b, now, requested).0, later);
        }
      }
    } else {
      var b, now := SlowRefillBreaksTheReset(cfg);
      hide Decide, Refill;
    }
  }

  // ---------------------------------------------------------------- X-RateLimit-Remaining

  /** k further one-token calls at the same instant. */
  function Burst(c: string, now: real, k: nat): seq<Op> {
    seq(k, i => Acquire(c, now, 1.0))
  }

  /** Exactly as many further calls succeed at the same instant as X-RateLimit-Remaining promises. */
  lemma RemainingIsExact(cfg: Config, m: Buckets, c: string, now: real, requested: real, k: nat)
    requires 0.0 <= requested && Sane(cfg) && Healthy(cfg, m)
    requires Decide(cfg, BucketFor(cfg, m, c, now), now, requested).1.allowed
    ensures var (b, d) := Decide(cfg, BucketFor(cfg, m, c, now), now, requested);
            Granted(cfg, m[c := b], Burst(c, now, k), c)
            == (if k <= d.headers.remaining then k else d.headers.remaining) as real
  {
    hide Accrued, EffectiveRate;
    CallPays(cfg, m, c, now, now, requested);
    var (b, d) := Decide(cfg, BucketFor(cfg, m, c, now), now, requested);
    TruncateBounds(b.tokens);
    BurstGrants(cfg, m[c := b], c, now, k, d.headers.remaining);
  }

  lemma {:induction false} BurstGrants(cfg: Config, m: Buckets, c: string, now: real, k: nat, whole: nat)
    requires c in m && m[c].bannedUntil <= now && m[c].lastRefill == now && m[c].tokens <= cfg.capacity
    requires whole as real <= m[c].tokens < whole as real + 1.0
    ensures Granted(cfg, m, Burst(c, now, k), c) == (if k <= whole then k else whole) as real
    decreases k
  {
    hide Decide;
    if k > 0 {
      var ops := Burst(c, now, k);
      assert ops[1..] == Burst(c, now, k - 1);
      OneToken(cfg, m[c], now);
      if whole > 0 {
        BurstGrants(cfg, Apply(cfg, m, ops[0]), c, now, k - 1, whole - 1);
      } else {
        NothingLeft(cfg, Apply(cfg, m, ops[0]), c, now, k - 1);
      }
    }
  }

  lemma {:induction false} NothingLeft(cfg: Config, m: Buckets, c: string, now: real, k: nat)
    requires c in m && m[c].lastRefill == now && m[c].tokens < 1.0
    ensures Granted(cfg, m, Burst(c, now, k), c) == 0.0
    decreases k
  {
    hide Decide;
    if k > 0 {
      var ops := Burst(c, now, k);
      assert ops[1..] == Burst(c, now, k - 1);
      OneToken(cfg, m[c], now);
      NothingLeft(cfg, Apply(cfg, m, ops[0]), c, now, k - 1);
    }
  }

  /** A one-token call at the instant of the last refill. */
  lemma OneToken(cfg: Config, b: Bucket, now: real)
    requires b.lastRefill == now
    ensures var (b', d) := Decide(cfg, b, now, 1.0);
            b'.lastRefill == now
            && (b.tokens < 1.0 ==> !d.allowed && b'.tokens < 1.0)
            && (1.0 <= b.tokens <= cfg.capacity && b.bannedUntil <= now
                ==> d.allowed && b' == b.(tokens := b.tokens - 1.0))
  {
    hide EffectiveRate;
    assert Accrued(cfg, 0.0) == 0.0;
  }

  // ---------------------------------------------------------------- the limiter

  /** One client's mutable bucket. */
  class TokenBucket {
    var tokens: real
    var lastRefill: real
    var bannedUntil: real

    constructor (tokens: real, lastRefill: real)
      ensures View() == Bucket(tokens, lastRefill, 0.0)
    {
      this.tokens, this.lastRefill, this.bannedUntil := tokens, lastRefill, 0.0;
    }

    function View(): Bucket
      reads this
    {
      Bucket(tokens, lastRefill, bannedUntil)
    }

    /** The part of `acquire` that runs on the client's own bucket. */
    method Take(config: Config, now: real, requested: real) returns (allowed: bool, headers: Headers)
      modifies this
      ensures (View(), Decision(allowed, headers)) == Decide(config, old(View()), now, requested)
    {
      var limit := Truncate(config.capacity);
      if bannedUntil > now {
        var retryAfter := Truncate(bannedUntil - now) + 1;
        return false, Headers(Some(retryAfter), limit, 0, Truncate(bannedUntil));
      }

      var elapsed := Max(0.0, now - lastRefill);
      tokens := Min(config.capacity, tokens + Accrued(config, elapsed));
      lastRefill := now;
      ghost var refilled := View();
      assert refilled == Refill(config, old(View()), now);

      if tokens >= requested {
        tokens := tokens - requested;
        assert View() == refilled.(tokens := refilled.tokens - requested);
        var reset := Truncate(now + (config.capacity - tokens) / EffectiveRate(config));
        return true, Headers(None, limit, Truncate(tokens), reset);
      } else {
        var deficit := requested - tokens;
        var retryAfter := MaxInt(1, Truncate(deficit / EffectiveRate(config)) + 1);
        if config.banSeconds > 0.0 {
          bannedUntil := now + config.banSeconds;
          retryAfter := Truncate(config.banSeconds);
        }
        return false, Headers(Some(retryAfter), limit, 0, Truncate(now + retryAfter as real));
      }
    }
  }

  class RateLimiter {
    const config: Config
    var buckets: map<string, TokenBucket>

    constructor (config: Config)
      ensures this.config == config && Valid() && View() == map[]
    {
      this.config := config;
      this.buckets := map[];
    }

    /** Distinct clients never share a bucket. */
    ghost predicate Valid()
      reads this
    {
      forall c, d :: c in buckets && d in buckets && c != d ==> buckets[c] != buckets[d]
    }

    ghost function View(): Buckets
      reads this, buckets.Values
    {
      map c | c in buckets :: buckets[c].View()
    }

    method Acquire(client: string, now: real, requested: real) returns (allowed: bool, headers: Headers)
      requires Valid()
      modifies this`buckets, buckets.Values
      ensures Valid() && buckets.Keys == old(buckets.Keys) + {client}
      ensures forall c :: c in old(buckets) ==> buckets[c] == old(buckets[c])
      ensures client !in old(buckets) ==> fresh(buckets[client])
      ensures View() == Apply(config, old(View()), Op.Acquire(client, now, requested))
      ensures Decision(allowed, headers)
              == Decide(config, BucketFor(config, old(View()), client, now), now, requested).1
      ensures forall c <- old(buckets) :: c != client ==> View()[c] == old(View())[c]
    {
      if client !in buckets {
        var created := new TokenBucket(config.capacity, now);
        buckets := buckets[client := created];
      }
      var bucket := buckets[client];
      ghost var b := bucket.View();
      assert b == BucketFor(config, old(View()), client, now);
      assert View() == old(View())[client := b];
      allowed, headers := bucket.Take(config, now, requested);
      assert View() == old(View())[client := bucket.View()];
    }

    method Reset(who: Option<string>)
      requires Valid()
      modifies this`buckets
      ensures Valid()
      ensures View() == Apply(config, old(View()), Op.Reset(who))
      ensures buckets.Keys == if who.None? || who.value == [] then {} else old(buckets.Keys) - {who.value}
      ensures forall c <- buckets :: buckets[c] == old(buckets[c])
    {
      if who.Some? && who.value != "" {
        buckets := buckets - {who.value};
      } else {
        buckets := map[];
      }
    }
  }
}
