/**
 The sliding-window limiter of phone reveals
 (api/application/services/phone_reveal_rate_limit.py). It keeps only the stamps
 still inside the window; a ghost history of every success shows that nothing is
 lost by that. Times are those of a monotonic clock.
 */
module RevealLimiter {
  import opened Common

  datatype Decision = Decision(allowed: bool, retryAfter: int)

  // ---------------------------------------------------------------- stamps

  /** The stamps still inside the window. */
  function Fresh(stamps: seq<real>, now: real, window: real): seq<real> {
    if stamps == [] then []
    else if now - stamps[0] < window then [stamps[0]] + Fresh(stamps[1..], now, window)
    else Fresh(stamps[1..], now, window)
  }

  ghost predicate Ascending(stamps: seq<real>) {
    forall i, j :: 0 <= i < j < |stamps| ==> stamps[i] <= stamps[j]
  }

  /** No stamp lies in the future. */
  ghost predicate NotAfter(stamps: seq<real>, now: real) {
    forall i :: 0 <= i < |stamps| ==> stamps[i] <= now
  }

  /** What `check` answers from the fresh stamps; None where it raises IndexError. */
  function Decide(inWindow: seq<real>, limit: int, now: real, window: real): Option<Decision> {
    if |inWindow| < limit then Some(Decision(true, 0))
    else if inWindow == [] then None
    else
      var left := window - (now - inWindow[0]);
      Some(Decision(false, Max(1, Truncate(left) + 1)))
  }

  function Max(a: int, b: int): int { if a >= b then a else b }

  /** `int` of a float. */
  function Truncate(r: real): int {
    if r >= 0.0 then r.Floor else -(-r).Floor
  }

  lemma {:induction false} FreshAppend(a: seq<real>, b: seq<real>, now: real, window: real)
    ensures Fresh(a + b, now, window) == Fresh(a, now, window) + Fresh(b, now, window)
  {
    if a == [] {
      assert a + b == b;
    } else {
      FreshAppend(a[1..], b, now, window);
      assert (a + b)[0] == a[0] && (a + b)[1..] == a[1..] + b;
      var x, y := Fresh(a[1..], now, window), Fresh(b, now, window);
      assert [a[0]] + (x + y) == ([a[0]] + x) + y;
    }
  }

  lemma {:induction false} FreshAll(stamps: seq<real>, now: real, window: real)
    requires forall i :: 0 <= i < |stamps| ==> now - stamps[i] < window
    ensures Fresh(stamps, now, window) == stamps
  {
    if stamps != [] {
      FreshAll(stamps[1..], now, window);
    }
  }

  /** Pruning at an earlier time loses nothing that is fresh later. */
  lemma {:induction false} PruneIsSafe(stamps: seq<real>, earlier: real, now: real, window: real)
    requires earlier <= now
    ensures Fresh(Fresh(stamps, earlier, window), now, window) == Fresh(stamps, now, window)
  {
    if stamps != [] {
      PruneIsSafe(stamps[1..], earlier, now, window);
      var rest := Fresh(stamps[1..], earlier, window);
      assert ([stamps[0]] + rest)[1..] == rest;
    }
  }

  /** Fresh stamps only get fewer as time passes. */
  lemma {:induction false} FreshShrinks(stamps: seq<real>, earlier: real, now: real, window: real)
    requires earlier <= now
    ensures |Fresh(stamps, now, window)| <= |Fresh(stamps, earlier, window)|
  {
    if stamps != [] {
      FreshShrinks(stamps[1..], earlier, now, window);
    }
  }

  /** The stamps that still count at a time at least `latest`, kept pruned. */
  ghost predicate Pruned(kept: seq<real>, full: seq<real>, latest: real, window: real) {
    forall now: real :: latest <= now ==> Fresh(kept, now, window) == Fresh(full, now, window)
  }

  // ---------------------------------------------------------------- the limiter

  class SlidingWindowRateLimiter {
    const limit: int
    const window: real
    var events: map<string, seq<real>>
    ghost var history: map<string, seq<real>>
    ghost var latest: real

    constructor (limit: int, window: real)
      ensures this.limit == limit && this.window == window && Valid() && history == map[] && latest == 0.0
    {
      this.limit, this.window := limit, window;
      events, history, latest := map[], map[], 0.0;
    }

    function Stamps(actor: string): seq<real>
      reads this
    {
      if actor in events then events[actor] else []
    }

    /** Every success recorded for the actor since the last reset. */
    ghost function History(actor: string): seq<real>
      reads this
    {
      if actor in history then history[actor] else []
    }

    ghost predicate Valid()
      reads this
    {
      forall actor :: Pruned(Stamps(actor), History(actor), latest, window)
    }

    /** `check`: what the full history would decide, recording nothing. */
    method Check(actor: string, now: real) returns (d: Option<Decision>)
      requires Valid() && latest <= now
      modifies this
      ensures Valid() && history == old(history) && latest == now
      ensures d == Decide(Fresh(History(actor), now, window), limit, now, window)
    {
      var stamps := Prune(Stamps(actor), now);
      ghost var before := Stamps(actor);
      events := events[actor := stamps];
      latest := now;
      PrunedLater(before, History(actor), old(latest), now, window);
      assert forall other :: other != actor ==> Stamps(other) == old(Stamps(other));
      if |stamps| < limit {
        return Some(Decision(true, 0));
      }
      if stamps == [] {
        return None;
      }
      var retryAfter := window - (now - stamps[0]);
      d := Some(Decision(false, Max(1, Truncate(retryAfter) + 1)));
    }

    /** `record_success` */
    method RecordSuccess(actor: string, now: real)
      requires Valid() && latest <= now
      modifies this
      ensures Valid() && latest == now
      ensures history == old(history)[actor := old(History(actor)) + [now]]
    {
      var stamps := Prune(Stamps(actor), now);
      ghost var before, full := Stamps(actor), History(actor);
      stamps := stamps + [now];
      events := events[actor := stamps];
      history := history[actor := full + [now]];
      latest := now;
      PrunedLater(before, full, old(latest), now, window);
      PrunedAppend(Fresh(before, now, window), full, now, window);
      assert forall other :: other != actor ==> Stamps(other) == old(Stamps(other)) && History(other) == old(History(other));
    }

    method Prune(stamps: seq<real>, now: real) returns (kept: seq<real>)
      ensures kept == Fresh(stamps, now, window)
    {
      kept := [];
      for i := 0 to |stamps|
        invariant kept == Fresh(stamps[..i], now, window)
      {
        assert stamps[..i + 1] == stamps[..i] + [stamps[i]];
        FreshAppend(stamps[..i], [stamps[i]], now, window);
        assert [stamps[i]][1..] == [];
        if now - stamps[i] < window {
          kept := kept + [stamps[i]];
        }
      }
      assert stamps[..|stamps|] == stamps;
    }

    /** `reset` */
    method Reset()
      modifies this
      ensures Valid() && history == map[] && latest == old(latest)
    {
      events, history := map[], map[];
    }
  }

  lemma {:induction false} PrunedLater(kept: seq<real>, full: seq<real>, earlier: real, now: real, window: real)
    requires Pruned(kept, full, earlier, window) && earlier <= now
    ensures Fresh(kept, now, window) == Fresh(full, now, window)
    ensures Pruned(Fresh(kept, now, window), full, now, window)
  {
    forall t: real | now <= t ensures Fresh(Fresh(kept, now, window), t, window) == Fresh(full, t, window) {
      PruneIsSafe(kept, now, t, window);
    }
  }

  lemma {:induction false} PrunedAppend(kept: seq<real>, full: seq<real>, now: real, window: real)
    requires Pruned(kept, full, now, window)
    ensures Pruned(kept + [now], full + [now], now, window)
  {
    forall t: real | now <= t ensures Fresh(kept + [now], t, window) == Fresh(full + [now], t, window) {
      FreshAppend(kept, [now], t, window);
      FreshAppend(full, [now], t, window);
    }
  }

  // ---------------------------------------------------------------- one actor's requests

  /**
   What one actor's requests do, in the order they reach the limiter: a check, a
   success being recorded after an allowed check, or an allowed request failing.
   */
  datatype Step = Checked(now: real) | Recorded(now: real) | Failed

  /** The actor's history, the time, and how many allowed checks await their outcome. */
  datatype Actor = Actor(history: seq<real>, latest: real, pending: nat)

  datatype Limits = Limits(limit: int, window: real)

  predicate Admits(a: Actor, lim: Limits, now: real) {
    |Fresh(a.history, now, lim.window)| < lim.limit
  }

  /** Recording and failing follow an allowed check; at most `c` checks are pending at a time. */
  predicate CanStep(a: Actor, lim: Limits, c: nat, s: Step) {
    match s
    case Checked(now) => a.latest <= now && (Admits(a, lim, now) ==> a.pending < c)
    case Recorded(now) => a.latest <= now && a.pending > 0
    case Failed => a.pending > 0
  }

  function DoStep(a: Actor, lim: Limits, s: Step): Actor
    requires s.Checked? || a.pending > 0
  {
    match s
    case Checked(now) => Actor(a.history, now, if Admits(a, lim, now) then a.pending + 1 else a.pending)
    case Recorded(now) => Actor(a.history + [now], now, a.pending - 1)
    case Failed => a.(pending := a.pending - 1)
  }

  ghost predicate IsRun(states: seq<Actor>, steps: seq<Step>, lim: Limits, c: nat) {
    && |states| == |steps| + 1
    && states[0].history == [] && states[0].pending == 0
    && forall n :: 0 <= n < |steps| ==>
         CanStep(states[n], lim, c, steps[n]) && states[n + 1] == DoStep(states[n], lim, steps[n])
  }

  /** Any limit + c successes lie at least a window apart from first to last. */
  ghost predicate Spaced(history: seq<real>, apart: int, window: real) {
    forall i, j :: 0 <= i < |history| && 0 <= j < |history| && i + apart <= j ==> history[j] - history[i] >= window
  }

  ghost predicate Kept(a: Actor, lim: Limits, c: nat) {
    && a.pending <= c
    && |Fresh(a.history, a.latest, lim.window)| + a.pending <= lim.limit + c - 1
    && NotAfter(a.history, a.latest) && Ascending(a.history)
    && Spaced(a.history, lim.limit + c - 1, lim.window)
  }

  /** Stamps not older than a window, at the end of the history, are all among the fresh ones. */
  lemma {:induction false} TailIsFresh(history: seq<real>, i: nat, now: real, window: real)
    requires i <= |history| && forall k :: i <= k < |history| ==> now - history[k] < window
    ensures |history| - i <= |Fresh(history, now, window)|
  {
    assert history == history[..i] + history[i..];
    FreshAppend(history[..i], history[i..], now, window);
    FreshAll(history[i..], now, window);
  }

  lemma {:induction false} RecordKeepsSpacing(a: Actor, lim: Limits, c: nat, now: real, i: nat)
    requires Kept(a, lim, c) && a.latest <= now && a.pending > 0
    requires i < |a.history| && |a.history| - i >= lim.limit + c - 1
    ensures now - a.history[i] >= lim.window
  {
    if now - a.history[i] < lim.window {
      forall k | i <= k < |a.history| ensures now - a.history[k] < lim.window {
        assert a.history[i] <= a.history[k] || i == k;
      }
      TailIsFresh(a.history, i, now, lim.window);
      FreshShrinks(a.history, a.latest, now, lim.window);
    }
  }

  lemma {:induction false} StepKeeps(a: Actor, lim: Limits, c: nat, s: Step)
    requires Kept(a, lim, c) && CanStep(a, lim, c, s)
    ensures Kept(DoStep(a, lim, s), lim, c)
  {
    match s
    case Checked(now) =>
      FreshShrinks(a.history, a.latest, now, lim.window);
    case Recorded(now) =>
      var h := a.history + [now];
      FreshShrinks(a.history, a.latest, now, lim.window);
      FreshAppend(a.history, [now], now, lim.window);
      assert |Fresh([now], now, lim.window)| <= 1;
      forall i, j | 0 <= i < |h| && i + (lim.limit + c - 1) <= j < |h| ensures h[j] - h[i] >= lim.window {
        if j == |a.history| && i < |a.history| {
          RecordKeepsSpacing(a, lim, c, now, i);
        }
      }
    case Failed =>
  }

  /**
   With at most c allowed checks awaiting their outcome at a time, no window holds
   more than limit + c - 1 recorded successes, and limit when requests come one by
   one.
   */
  lemma {:induction false} WindowsHoldTheBudget(states: seq<Actor>, steps: seq<Step>, lim: Limits, c: nat)
    requires IsRun(states, steps, lim, c) && lim.limit >= 1 && c >= 1
    ensures Kept(states[|states| - 1], lim, c)
  {
    if steps == [] {
    } else {
      var n := |steps| - 1;
      WindowsHoldTheBudget(states[..n + 1], steps[..n], lim, c);
      assert CanStep(states[n], lim, c, steps[n]);
      StepKeeps(states[n], lim, c, steps[n]);
    }
  }

  // ---------------------------------------------------------------- waiting

  /** A stamp outlives the wait `check` asks for only if it is younger than the oldest fresh one. */
  lemma {:induction false} WaitIsLongEnough(left: real)
    ensures (Max(1, Truncate(left) + 1) as real) > left
  {
  }

  /** After the wait the oldest fresh stamp has left the window. */
  lemma {:induction false} OldestLeaves(history: seq<real>, lim: Limits, now: real, later: real)
    requires var f := Fresh(history, now, lim.window);
             f != [] && later - now > lim.window - (now - f[0])
    requires Ascending(history) && now <= later
    ensures |Fresh(history, later, lim.window)| < |Fresh(history, now, lim.window)|
  {
    var f := Fresh(history, now, lim.window);
    PruneIsSafe(history, now, later, lim.window);
    assert Fresh(f, later, lim.window) == Fresh(f[1..], later, lim.window);
    FreshShorter(f[1..], later, lim.window);
  }

  lemma {:induction false} FreshShorter(stamps: seq<real>, now: real, window: real)
    ensures |Fresh(stamps, now, window)| <= |stamps|
  {
    if stamps != [] {
      FreshShorter(stamps[1..], now, window);
    }
  }

  /**
   When requests come one by one, a denied caller that waits as long as it was
   told, with nothing recorded meanwhile, is allowed.
   */
  lemma {:induction false} DeniedThenAllowed(a: Actor, lim: Limits, now: real, later: real)
    requires Kept(a, lim, 1) && lim.limit >= 1 && a.latest <= now
    requires var d := Decide(Fresh(a.history, now, lim.window), lim.limit, now, lim.window);
             d.Some? && !d.value.allowed && later >= now + d.value.retryAfter as real
    ensures Decide(Fresh(a.history, later, lim.window), lim.limit, later, lim.window) == Some(Decision(true, 0))
  {
    var f := Fresh(a.history, now, lim.window);
    FreshShrinks(a.history, a.latest, now, lim.window);
    WaitIsLongEnough(lim.window - (now - f[0]));
    OldestLeaves(a.history, lim, now, later);
  }

  lemma {:induction false} FreshSorted(stamps: seq<real>, now: real, window: real, low: real)
    requires Ascending(stamps) && forall i :: 0 <= i < |stamps| ==> low <= stamps[i]
    ensures var f := Fresh(stamps, now, window);
            Ascending(f) && forall i :: 0 <= i < |f| ==> low <= f[i]
  {
    if stamps != [] {
      FreshSorted(stamps[1..], now, window, stamps[0]);
    }
  }

  /** Fewer than the limit are left of these stamps exactly when the one at that place has left the window. */
  lemma {:induction false} RoomExactlyWhen(f: seq<real>, limit: int, later: real, window: real)
    requires Ascending(f) && |f| >= limit >= 1
    ensures |Fresh(f, later, window)| < limit <==> later - f[|f| - limit] >= window
  {
    var k := |f| - limit;
    if later - f[k] >= window {
      var front, back := f[..k + 1], f[k + 1..];
      assert f == front + back;
      FreshAppend(front, back, later, window);
      FreshNone(front, later, window);
      FreshShorter(back, later, window);
    } else {
      forall i | k <= i < |f| ensures later - f[i] < window {
        assert i == k || f[k] <= f[i];
      }
      TailIsFresh(f, k, later, window);
    }
  }

  lemma {:induction false} FreshNone(stamps: seq<real>, now: real, window: real)
    requires forall i :: 0 <= i < |stamps| ==> now - stamps[i] >= window
    ensures Fresh(stamps, now, window) == []
  {
    if stamps != [] {
      FreshNone(stamps[1..], now, window);
    }
  }

  lemma {:induction false} DecideAllows(inWindow: seq<real>, limit: int, now: real, window: real)
    ensures Decide(inWindow, limit, now, window) == Some(Decision(true, 0)) <==> |inWindow| < limit
    ensures limit >= 1 ==> Decide(inWindow, limit, now, window).Some?
    ensures |inWindow| >= limit >= 1 ==> !Decide(inWindow, limit, now, window).value.allowed
  {
  }

  /**
   However many requests run at once: a denied caller is allowed at a later time,
   with nothing recorded meanwhile, exactly when the stamp that leaves room, the
   limit-th from the end of those it was denied for, has left the window by then.
   */
  lemma {:induction false} DeniedAllowedExactlyWhen(history: seq<real>, lim: Limits, now: real, later: real)
    requires Ascending(history) && lim.limit >= 1 && now <= later
    requires Decide(Fresh(history, now, lim.window), lim.limit, now, lim.window) != Some(Decision(true, 0))
    ensures var f := Fresh(history, now, lim.window);
            |f| >= lim.limit &&
            (Decide(Fresh(history, later, lim.window), lim.limit, later, lim.window) == Some(Decision(true, 0))
             <==> later - f[|f| - lim.limit] >= lim.window)
  {
    DecideAllows(Fresh(history, now, lim.window), lim.limit, now, lim.window);
    DecideAllows(Fresh(history, later, lim.window), lim.limit, later, lim.window);
    var f := Fresh(history, now, lim.window);
    FreshSorted(history, now, lim.window, if history == [] then 0.0 else history[0]);
    PruneIsSafe(history, now, later, lim.window);
    RoomExactlyWhen(f, lim.limit, later, lim.window);
  }

  /** One success at 0, one check still pending, and `k` more successes at a later time in the window. */
  lemma {:induction false} CrowdedRun(lim: Limits, c: nat, later: real, k: nat) returns (states: seq<Actor>, steps: seq<Step>)
    requires lim.limit >= 1 && 0.0 < later < lim.window && c >= 2 && k < lim.limit
    ensures IsRun(states, steps, lim, c)
    ensures states[|steps|] == Actor(Crowd(later, k), if k == 0 then 0.0 else later, 1)
  {
    if k == 0 {
      var s0 := Actor([], 0.0, 0);
      steps := [Checked(0.0), Checked(0.0), Recorded(0.0)];
      states := [s0, Actor([], 0.0, 1), Actor([], 0.0, 2), Actor([0.0], 0.0, 1)];
      assert Crowd(later, 0) == [0.0];
    } else {
      var before, done := CrowdedRun(lim, c, later, k - 1);
      var a := before[|done|];
      FreshShorter(a.history, later, lim.window);
      var checked := DoStep(a, lim, Checked(later));
      var recorded := DoStep(checked, lim, Recorded(later));
      assert Crowd(later, k) == Crowd(later, k - 1) + [later];
      steps := done + [Checked(later), Recorded(later)];
      states := before + [checked, recorded];
    }
  }

  function Crowd(later: real, k: nat): (h: seq<real>)
    ensures |h| == k + 1
  {
    [0.0] + seq(k, i => later)
  }

  /** Somebody is denied, waits as told with nothing recorded meanwhile, and is denied again. */
  ghost predicate DeniedTwice(a: Actor, lim: Limits, now: real, later: real) {
    var d := Decide(Fresh(a.history, now, lim.window), lim.limit, now, lim.window);
    && a.latest <= now
    && d.Some? && !d.value.allowed && later == now + d.value.retryAfter as real
    && Decide(Fresh(a.history, later, lim.window), lim.limit, later, lim.window) != Some(Decision(true, 0))
  }

  ghost predicate WaitSuffices(lim: Limits, c: nat) {
    forall states, steps, now, later ::
      IsRun(states, steps, lim, c) ==> !DeniedTwice(states[|steps|], lim, now, later)
  }

  /** With two requests at a time and a window over a second there is a run in which the told wait is too short. */
  lemma {:induction false} ToldWaitCanBeTooShort(lim: Limits, c: nat)
    returns (states: seq<Actor>, steps: seq<Step>, now: real, later: real)
    requires lim.limit >= 1 && lim.window > 1.0 && c >= 2
    ensures IsRun(states, steps, lim, c) && DeniedTwice(states[|steps|], lim, now, later)
  {
    now := lim.window - 0.5;
    var before, done := CrowdedRun(lim, c, now, lim.limit - 1);
    var a := DoStep(before[|done|], lim, Recorded(now));
    states, steps := before + [a], done + [Recorded(now)];
    var h := Crowd(now, lim.limit);
    assert h == Crowd(now, lim.limit - 1) + [now];
    FreshAll(h, now, lim.window);
    DecideAllows(h, lim.limit, now, lim.window);
    var d := Decide(h, lim.limit, now, lim.window).value;
    later := now + d.retryAfter as real;
    assert d.retryAfter == 1;
    RoomExactlyWhen(h, lim.limit, later, lim.window);
    DecideAllows(Fresh(h, later, lim.window), lim.limit, later, lim.window);
  }

  /** Whoever waits a whole window finds nothing left in it. */
  lemma {:induction false} WholeWindowSuffices(a: Actor, lim: Limits, now: real, later: real)
    requires NotAfter(a.history, a.latest) && a.latest <= now && later - now >= lim.window && lim.limit >= 1
    ensures Decide(Fresh(a.history, later, lim.window), lim.limit, later, lim.window) == Some(Decision(true, 0))
  {
    FreshNone(a.history, later, lim.window);
    DecideAllows([], lim.limit, later, lim.window);
  }

  /**
   The wait a denied caller is told of suffices in every run exactly when requests
   come one at a time, or the window is no longer than the least wait of a second.
   */
  lemma {:induction false} WaitSufficesExactlyWhen(lim: Limits, c: nat)
    requires lim.limit >= 1 && c >= 1
    ensures WaitSuffices(lim, c) <==> c == 1 || lim.window <= 1.0
  {
    if c >= 2 && lim.window > 1.0 {
      var states, steps, now, later := ToldWaitCanBeTooShort(lim, c);
    } else {
      forall states, steps, now, later | IsRun(states, steps, lim, c)
        ensures !DeniedTwice(states[|steps|], lim, now, later)
      {
        WindowsHoldTheBudget(states, steps, lim, c);
        NotDeniedTwice(states[|steps|], lim, c, now, later);
      }
    }
  }

  lemma {:induction false} NotDeniedTwice(a: Actor, lim: Limits, c: nat, now: real, later: real)
    requires Kept(a, lim, c) && lim.limit >= 1 && (c == 1 || lim.window <= 1.0)
    ensures !DeniedTwice(a, lim, now, later)
  {
    if DeniedTwice(a, lim, now, later) {
      if c == 1 {
        DeniedThenAllowed(a, lim, now, later);
      } else {
        WholeWindowSuffices(a, lim, now, later);
      }
    }
  }
}
