/**
 The in-memory fixed-window limiter of the mint route
 (api/application/services/anon_identity.py): its clock is clamped to the latest
 value seen, so however the wall clock jumps, a client gets at most its limit in
 each window the clamped clock passes through.
 */
module MintLimiter {
  import opened Common

  datatype BucketKey = BucketKey(ip: string, kind: string, start: int)

  datatype Request = Request(ip: string, kind: string, limit: int, window: int)

  /** Counters by address, kind and window start; the latest clock value seen. */
  datatype Counters = Counters(counts: map<BucketKey, nat>, last: Option<real>)

  function Max(a: int, b: int): int { if a >= b then a else b }

  /** The clock value a call works with. */
  function Observed(c: Counters, now: real): real {
    if c.last.Some? && c.last.value > now then c.last.value else now
  }

  /** Number of the window a moment lies in. */
  function WindowIndex(t: real, window: int): int {
    (t / Max(window, 1) as real).Floor
  }

  function Bucket(req: Request, observed: real): BucketKey {
    BucketKey(req.ip, req.kind, WindowIndex(observed, req.window) * Max(req.window, 1))
  }

  function CountAt(c: Counters, k: BucketKey): nat {
    if k in c.counts then c.counts[k] else 0
  }

  predicate Allows(c: Counters, req: Request, now: real) {
    CountAt(c, Bucket(req, Observed(c, now))) < Max(req.limit, 1)
  }

  function After(c: Counters, req: Request, now: real): Counters {
    var observed := Observed(c, now);
    var k := Bucket(req, observed);
    Counters(if Allows(c, req, now) then c.counts[k := CountAt(c, k) + 1] else c.counts, Some(observed))
  }

  class InMemoryRateLimitStore {
    var counts: map<BucketKey, nat>
    var last: Option<real>

    constructor ()
      ensures Current() == Counters(map[], None)
    {
      counts, last := map[], None;
    }

    function Current(): Counters
      reads this
    {
      Counters(counts, last)
    }

    /** `check_rate_limit_allowed`; `now` is what the clock says. */
    method Check(req: Request, now: real) returns (allowed: bool)
      modifies this
      ensures allowed == Allows(old(Current()), req, now)
      ensures Current() == After(old(Current()), req, now)
    {
      var window := Max(req.window, 1);
      var observed := now;
      if last.Some? {
        observed := if last.value > observed then last.value else observed;
      }
      last := Some(observed);
      var start := (observed / window as real).Floor * window;
      var key := BucketKey(req.ip, req.kind, start);
      var count := if key in counts then counts[key] else 0;
      if count >= Max(req.limit, 1) {
        return false;
      }
      counts := counts[key := count + 1];
      return true;
    }
  }

  // ---------------------------------------------------------------- runs

  datatype Call = Call(req: Request, now: real)

  function Run(c: Counters, calls: seq<Call>): Counters {
    if calls == [] then c
    else
      var before := Run(c, calls[..|calls| - 1]);
      After(before, calls[|calls| - 1].req, calls[|calls| - 1].now)
  }

  /** 1 for an allowed call with these parameters. */
  function Adds(before: Counters, e: Call, req: Request): nat {
    if e.req == req && Allows(before, e.req, e.now) then 1 else 0
  }

  /** How many calls with exactly these parameters were allowed. */
  function AllowedCount(c: Counters, calls: seq<Call>, req: Request): nat {
    if calls == [] then 0
    else
      var e := calls[|calls| - 1];
      var front := calls[..|calls| - 1];
      AllowedCount(c, front, req) + Adds(Run(c, front), e, req)
  }

  lemma {:induction false} FloorMonotone(a: real, b: real)
    requires a <= b
    ensures a.Floor <= b.Floor
  {
  }

  lemma {:induction false} DivideMonotone(a: real, b: real, w: real)
    requires a <= b && w > 0.0
    ensures a / w <= b / w
  {
    assert b / w - a / w == (b - a) / w;
  }

  lemma {:induction false} IndexMonotone(a: real, b: real, window: int)
    requires a <= b
    ensures WindowIndex(a, window) <= WindowIndex(b, window)
  {
    DivideMonotone(a, b, Max(window, 1) as real);
    FloorMonotone(a / Max(window, 1) as real, b / Max(window, 1) as real);
  }

  /** The limit, for so many windows. */
  function Budget(most: nat, windows: nat): nat {
    if windows == 0 then 0 else Budget(most, windows - 1) + most
  }

  lemma {:induction false} BudgetIsProduct(most: nat, windows: nat)
    ensures Budget(most, windows) == most * windows
  {
    if windows > 0 {
      BudgetIsProduct(most, windows - 1);
    }
  }

  /** A later window has room for a whole budget more. */
  lemma {:induction false} LaterWindow(most: nat, earlier: nat, later: nat)
    requires earlier < later
    ensures Budget(most, earlier) + most <= Budget(most, later)
  {
    if earlier < later - 1 {
      LaterWindow(most, earlier, later - 1);
    }
  }

  /** The window the clamped clock stands in. */
  function Index(c: Counters, window: int): int
    requires c.last.Some?
  {
    WindowIndex(c.last.value, window)
  }

  /**
   `allowed` calls so far: full budgets for the windows passed since `first`, and
   `inBucket` of them in the current window, where they are counted.
   */
  ghost predicate WithinBudget(c: Counters, req: Request, first: int, allowed: nat, inBucket: nat)
    requires c.last.Some?
  {
    var now := Index(c, req.window);
    && first <= now
    && inBucket <= Max(req.limit, 1)
    && inBucket <= CountAt(c, Bucket(req, c.last.value))
    && allowed <= Budget(Max(req.limit, 1), now - first) + inBucket
  }

  /** An allowed call is counted in the bucket of the window the clock stands in. */
  lemma {:induction false} BucketCounts(before: Counters, e: Call, req: Request, soFar: nat)
    requires var k := Bucket(req, Observed(before, e.now));
             soFar <= CountAt(before, k) && soFar <= Max(req.limit, 1)
    ensures var k := Bucket(req, Observed(before, e.now));
            var inBucket := soFar + Adds(before, e, req);
            inBucket <= CountAt(After(before, e.req, e.now), k) && inBucket <= Max(req.limit, 1)
  {
  }

  lemma {:induction false} CallKeepsBudget(before: Counters, e: Call, req: Request, first: int, allowed: nat, soFar: nat)
    returns (inBucket: nat)
    requires before.last.Some? && WithinBudget(before, req, first, allowed, soFar)
    ensures WithinBudget(After(before, e.req, e.now), req, first, allowed + Adds(before, e, req), inBucket)
  {
    var prev := Index(before, req.window);
    var now := WindowIndex(Observed(before, e.now), req.window);
    IndexMonotone(before.last.value, Observed(before, e.now), req.window);
    if prev == now {
      BucketCounts(before, e, req, soFar);
      inBucket := soFar + Adds(before, e, req);
    } else {
      LaterWindow(Max(req.limit, 1), prev - first, now - first);
      BucketCounts(before, e, req, 0);
      inBucket := Adds(before, e, req);
    }
  }

  lemma {:induction false} BudgetHolds(c: Counters, calls: seq<Call>, req: Request) returns (inBucket: nat)
    requires calls != []
    ensures Run(c, calls[..1]).last.Some? && Run(c, calls).last.Some?
    ensures WithinBudget(Run(c, calls), req, Index(Run(c, calls[..1]), req.window), AllowedCount(c, calls, req), inBucket)
    decreases |calls|
  {
    var e, front := calls[|calls| - 1], calls[..|calls| - 1];
    if front == [] {
      assert calls[..1] == calls;
      BucketCounts(c, e, req, 0);
      inBucket := Adds(c, e, req);
    } else {
      assert front[..1] == calls[..1];
      var soFar := BudgetHolds(c, front, req);
      inBucket := CallKeepsBudget(Run(c, front), e, req, Index(Run(c, calls[..1]), req.window), AllowedCount(c, front, req), soFar);
    }
  }

  /**
   Over any run of calls, by any clients and with any clock, the calls of one
   client, kind, limit and window that are allowed number at most the limit times
   the windows the clamped clock passed through.
   */
  lemma {:induction false} AllowedWithinWindowsSpanned(c: Counters, calls: seq<Call>, req: Request)
    requires calls != []
    ensures Run(c, calls[..1]).last.Some? && Run(c, calls).last.Some?
    ensures var windows := Index(Run(c, calls), req.window) - Index(Run(c, calls[..1]), req.window) + 1;
            AllowedCount(c, calls, req) <= Max(req.limit, 1) * windows
  {
    var inBucket := BudgetHolds(c, calls, req);
    BudgetIsProduct(Max(req.limit, 1), Index(Run(c, calls), req.window) - Index(Run(c, calls[..1]), req.window) + 1);
  }

  /** How many calls were allowed into one bucket. */
  function AllowedInto(c: Counters, calls: seq<Call>, k: BucketKey): nat {
    if calls == [] then 0
    else
      var e, front := calls[|calls| - 1], calls[..|calls| - 1];
      var before := Run(c, front);
      AllowedInto(c, front, k)
      + (if Bucket(e.req, Observed(before, e.now)) == k && Allows(before, e.req, e.now) then 1 else 0)
  }

  /** A bucket counts the calls allowed into it and nothing else. */
  lemma {:induction false} BucketsCountAllowedCalls(c: Counters, calls: seq<Call>, k: BucketKey)
    ensures CountAt(Run(c, calls), k) == CountAt(c, k) + AllowedInto(c, calls, k)
  {
    if calls != [] {
      BucketsCountAllowedCalls(c, calls[..|calls| - 1], k);
    }
  }

  /** From a fresh store, a call is denied exactly when its limit's worth of calls went into its window before. */
  lemma {:induction false} DeniedExactlyWhenSpent(calls: seq<Call>, e: Call)
    ensures var c := Counters(map[], None);
            var k := Bucket(e.req, Observed(Run(c, calls), e.now));
            !Allows(Run(c, calls), e.req, e.now) <==> AllowedInto(c, calls, k) >= Max(e.req.limit, 1)
  {
    var c := Counters(map[], None);
    BucketsCountAllowedCalls(c, calls, Bucket(e.req, Observed(Run(c, calls), e.now)));
  }

  /** Calls allowed so far whose address, kind and window start are these. */
  function AllowedAt(calls: seq<Call>, ip: string, kind: string, start: int): nat {
    if calls == [] then 0
    else
      var e, front := calls[|calls| - 1], calls[..|calls| - 1];
      var before := Run(Counters(map[], None), front);
      AllowedAt(front, ip, kind, start)
      + if e.req.ip == ip && e.req.kind == kind && StartOf(e.req, Observed(before, e.now)) == start && Allows(before, e.req, e.now)
        then 1 else 0
  }

  /** Where the window that holds this moment starts; a window is at least a second long. */
  function StartOf(req: Request, t: real): int {
    var seconds := if req.window >= 1 then req.window else 1;
    (t / seconds as real).Floor * seconds
  }

  lemma {:induction false} StartIsWindow(req: Request, t: real)
    ensures Bucket(req, t) == BucketKey(req.ip, req.kind, StartOf(req, t))
  {
  }

  lemma {:induction false} AllowedAtIs(calls: seq<Call>, k: BucketKey)
    ensures AllowedInto(Counters(map[], None), calls, k) == AllowedAt(calls, k.ip, k.kind, k.start)
  {
    if calls != [] {
      var e, front := calls[|calls| - 1], calls[..|calls| - 1];
      AllowedAtIs(front, k);
      StartIsWindow(e.req, Observed(Run(Counters(map[], None), front), e.now));
    }
  }

  /**
   From a fresh store a call is denied exactly when as many calls as its limit, and
   at least one, of its own address and kind were allowed in its window; calls of
   others never count.
   */
  lemma {:induction false} OnlyOwnCallsCount(calls: seq<Call>, e: Call)
    ensures var before := Run(Counters(map[], None), calls);
            !Allows(before, e.req, e.now) <==>
            AllowedAt(calls, e.req.ip, e.req.kind, StartOf(e.req, Observed(before, e.now))) >= (if e.req.limit >= 1 then e.req.limit else 1)
  {
    var before := Run(Counters(map[], None), calls);
    DeniedExactlyWhenSpent(calls, e);
    StartIsWindow(e.req, Observed(before, e.now));
    AllowedAtIs(calls, Bucket(e.req, Observed(before, e.now)));
  }

  /** The clock never runs backwards, and follows the wall clock whenever that is ahead. */
  lemma {:induction false} ClockIsLatest(calls: seq<Call>)
    requires calls != []
    ensures var last := Run(Counters(map[], None), calls).last;
            && last.Some?
            && (forall i :: 0 <= i < |calls| ==> calls[i].now <= last.value)
            && exists i :: 0 <= i < |calls| && calls[i].now == last.value
  {
    var n := |calls| - 1;
    var front := calls[..n];
    if front != [] {
      ClockIsLatest(front);
      var before := Run(Counters(map[], None), front).last.value;
      var i :| 0 <= i < |front| && front[i].now == before;
      assert calls[i].now == before;
      forall j | 0 <= j < |calls| ensures calls[j].now <= Run(Counters(map[], None), calls).last.value {
        if j < n { assert front[j] == calls[j]; }
      }
    }
  }
}
