/**
 Recency: what a cache of the most recently used keys holds, told from the
 history of accesses alone, and that moving a key to the end and evicting the
 first keeps exactly that list.
 */
module Recency {
  import opened Common

  // ---------------------------------------------------------------- recency

  /** Position of the last access of `k`. */
  function LastIndex<K(==)>(history: seq<K>, k: K): int {
    if history == [] then -1
    else if history[|history| - 1] == k then |history| - 1
    else LastIndex(history[..|history| - 1], k)
  }

  /** The distinct keys accessed after the last access of `k`. */
  function Later<K(==)>(history: seq<K>, k: K): set<K> {
    set x | x in history && LastIndex(history, x) > LastIndex(history, k)
  }

  /**
   `keys` is what a cache of `max` most recently used keys must hold after this
   history, in order: the keys with fewer than `max` others accessed since, by
   last access.
   */
  ghost predicate RecentKeys<K(!new)>(history: seq<K>, keys: seq<K>, max: nat) {
    && (forall k :: k in keys <==> k in history && |Later(history, k)| < max)
    && (forall i, j :: 0 <= i < j < |keys| ==> LastIndex(history, keys[i]) < LastIndex(history, keys[j]))
  }

  function Without<K(==)>(keys: seq<K>, k: K): seq<K> {
    if keys == [] then []
    else (if keys[0] == k then [] else [keys[0]]) + Without(keys[1..], k)
  }

  /** The key order after one access: `touch`, then `put` with its eviction. */
  function Accessed<K(==)>(keys: seq<K>, k: K, max: nat): seq<K> {
    var moved := Without(keys, k) + [k];
    if |moved| > max then moved[1..] else moved
  }

  // ---------------------------------------------------------------- recency lemmas

  lemma {:induction false} LastIndexFacts<K(!new)>(history: seq<K>, k: K)
    ensures -1 <= LastIndex(history, k) < |history|
    ensures LastIndex(history, k) >= 0 <==> k in history
    ensures LastIndex(history, k) >= 0 ==> history[LastIndex(history, k)] == k
  {
    if history != [] {
      var n := |history| - 1;
      LastIndexFacts(history[..n], k);
      assert history == history[..n] + [history[n]];
    }
  }

  lemma {:induction false} LastIndexAppend<K(!new)>(history: seq<K>, k: K, x: K)
    ensures LastIndex(history + [k], x) == if x == k then |history| else LastIndex(history, x)
  {
    assert (history + [k])[..|history|] == history;
  }

  lemma {:induction false} LaterAppend<K(!new)>(history: seq<K>, k: K, x: K)
    requires x in history
    ensures Later(history + [k], x) == if x == k then {} else Later(history, x) + {k}
  {
    var h := history + [k];
    LastIndexAppend(history, k, x);
    LastIndexFacts(history, x);
    forall y ensures y in Later(h, x) <==> y in (if x == k then {} else Later(history, x) + {k}) {
      LastIndexAppend(history, k, y);
      LastIndexFacts(history, y);
      assert y in h <==> y in history || y == k;
    }
  }

  /** A key accessed earlier has strictly more keys after it. */
  lemma {:induction false} LaterNests<K(!new)>(history: seq<K>, x: K, y: K)
    requires x in history && y in history && x != y
    ensures LastIndex(history, x) < LastIndex(history, y) || LastIndex(history, y) < LastIndex(history, x)
    ensures LastIndex(history, x) < LastIndex(history, y) ==>
              Later(history, y) + {y} <= Later(history, x) && |Later(history, y)| < |Later(history, x)|
  {
    LastIndexFacts(history, x);
    LastIndexFacts(history, y);
    if LastIndex(history, x) < LastIndex(history, y) {
      assert y !in Later(history, y);
      SubsetCard(Later(history, y) + {y}, Later(history, x));
    }
  }

  lemma {:induction false} WithoutFacts<K(!new)>(keys: seq<K>, k: K)
    requires Distinct(keys)
    ensures forall x :: x in Without(keys, k) <==> x in keys && x != k
    ensures Distinct(Without(keys, k))
    ensures |Without(keys, k)| == |keys| - if k in keys then 1 else 0
  {
    if keys != [] {
      WithoutFacts(keys[1..], k);
      assert forall x :: x in keys <==> x == keys[0] || x in keys[1..];
      assert keys[0] !in keys[1..];
      var w := Without(keys[1..], k);
      if keys[0] != k {
        assert Without(keys, k) == [keys[0]] + w;
        forall i, j | 0 <= i < j < |w| + 1 ensures ([keys[0]] + w)[i] != ([keys[0]] + w)[j] {
          assert ([keys[0]] + w)[j] == w[j - 1] && w[j - 1] in w;
        }
      }
    }
  }

  ghost predicate InLastOrder<K>(history: seq<K>, keys: seq<K>) {
    forall i, j :: 0 <= i < j < |keys| ==> LastIndex(history, keys[i]) < LastIndex(history, keys[j])
  }

  lemma {:induction false} WithoutKeepsOrder<K(!new)>(history: seq<K>, keys: seq<K>, k: K)
    requires InLastOrder(history, keys) && Distinct(keys)
    ensures InLastOrder(history, Without(keys, k))
  {
    if keys != [] {
      var rest := keys[1..];
      WithoutKeepsOrder(history, rest, k);
      WithoutFacts(rest, k);
      var w := Without(rest, k);
      forall j | 0 <= j < |w| ensures LastIndex(history, keys[0]) < LastIndex(history, w[j]) {
        assert w[j] in rest;
        var i :| 0 <= i < |rest| && rest[i] == w[j];
        assert keys[i + 1] == w[j];
      }
      if keys[0] != k {
        assert Without(keys, k) == [keys[0]] + w;
      }
    }
  }

  lemma {:induction false} AccessedFacts<K(!new)>(keys: seq<K>, k: K, max: nat)
    requires Distinct(keys) && |keys| <= max && max >= 1
    ensures Distinct(Accessed(keys, k, max)) && |Accessed(keys, k, max)| <= max
    ensures forall x :: x in Accessed(keys, k, max) <==>
              x == k || (x in keys && !(k !in keys && |keys| == max && x == keys[0]))
  {
    WithoutFacts(keys, k);
    var w := Without(keys, k);
    var moved := w + [k];
    if |moved| > max {
      WithoutNone(keys, k);
      assert w == keys && moved[1..] == keys[1..] + [k];
      assert forall x :: x in keys <==> x == keys[0] || x in keys[1..];
    }
  }

  lemma {:induction false} WithoutNone<K(!new)>(keys: seq<K>, k: K)
    requires k !in keys
    ensures Without(keys, k) == keys
  {
    if keys != [] {
      WithoutNone(keys[1..], k);
    }
  }

  lemma {:induction false} PositionByLast<K(!new)>(history: seq<K>, keys: seq<K>, i: nat, j: nat)
    requires InLastOrder(history, keys) && i < |keys| && j < |keys|
    ensures LastIndex(history, keys[i]) < LastIndex(history, keys[j]) <==> i < j
  {
  }

  /** In a recency list, a key is accessed after the one at `i` exactly when it stands behind it. */
  lemma {:induction false} LaterStandsBehind<K(!new)>(history: seq<K>, keys: seq<K>, max: nat, i: nat, x: K)
    requires RecentKeys(history, keys, max) && i < |keys|
    ensures x in Later(history, keys[i]) <==> x in keys[i + 1..]
  {
    if x in Later(history, keys[i]) {
      LaterNests(history, keys[i], x);
      assert x in keys;
      var j :| 0 <= j < |keys| && keys[j] == x;
      PositionByLast(history, keys, i, j);
      assert keys[i + 1..][j - i - 1] == x;
    }
    if x in keys[i + 1..] {
      var j :| i < j < |keys| && keys[j] == x;
      PositionByLast(history, keys, i, j);
    }
  }

  lemma {:induction false} LaterIsSuffix<K(!new)>(history: seq<K>, keys: seq<K>, max: nat, i: nat)
    requires RecentKeys(history, keys, max) && Distinct(keys) && i < |keys|
    ensures |Later(history, keys[i])| == |keys| - 1 - i
  {
    var tail := keys[i + 1..];
    var later, behind := Later(history, keys[i]), set x | x in tail;
    forall x ensures x in later <==> x in behind {
      LaterStandsBehind(history, keys, max, i, x);
    }
    assert later == behind;
    DistinctCard(tail);
  }

  /** The key of a nonempty set that was accessed last. */
  lemma {:induction false} LastOf<K(!new)>(history: seq<K>, s: set<K>) returns (m: K)
    requires s != {}
    ensures m in s && forall x :: x in s ==> LastIndex(history, x) <= LastIndex(history, m)
    decreases |s|
  {
    var x :| x in s;
    if s == {x} {
      m := x;
    } else {
      var m' := LastOf(history, s - {x});
      m := if LastIndex(history, x) <= LastIndex(history, m') then m' else x;
      assert forall y :: y in s ==> y == x || y in s - {x};
    }
  }

  /** A recency list shorter than its limit holds every key of the history. */
  lemma {:induction false} ShortListIsComplete<K(!new)>(history: seq<K>, keys: seq<K>, max: nat, x: K)
    requires RecentKeys(history, keys, max) && Distinct(keys) && |keys| < max
    requires x in history
    ensures x in keys
  {
    var missing := set y | y in history && y !in keys;
    if x in missing {
      var m := LastOf(history, missing);
      assert m in history && m !in keys;
      assert |Later(history, m)| >= max;
      forall y | y in Later(history, m) ensures y in keys {
        assert LastIndex(history, y) > LastIndex(history, m);
        assert y !in missing;
      }
      SubsetCard(Later(history, m), set y | y in keys);
      DistinctCard(keys);
    }
  }

  /** One access to a key that is cached: nothing falls out. */
  lemma {:induction false} OtherKeyAfterHit<K(!new)>(history: seq<K>, keys: seq<K>, k: K, x: K, max: nat)
    requires RecentKeys(history, keys, max) && k in keys
    requires x != k && x in history
    ensures |Later(history + [k], x)| < max <==> x in keys
  {
    LaterAppend(history, k, x);
    assert k in history && |Later(history, k)| < max;
    LaterNests(history, x, k);
    LaterNests(history, k, x);
    SubsetCard(Later(history, x), Later(history, x) + {k});
    assert k in Later(history, x) ==> Later(history, x) + {k} == Later(history, x);
  }

  /** One access to a key that is not cached: the first falls out when the list is full. */
  lemma {:induction false} OtherKeyAfterMiss<K(!new)>(history: seq<K>, keys: seq<K>, k: K, x: K, max: nat)
    requires RecentKeys(history, keys, max) && Distinct(keys) && |keys| <= max && k !in keys
    requires x != k && x in history
    ensures |Later(history + [k], x)| < max <==> x in keys && !(|keys| == max && x == keys[0])
  {
    LaterAppend(history, k, x);
    var before := Later(history, x);
    if x in keys {
      var i :| 0 <= i < |keys| && keys[i] == x;
      LaterIsSuffix(history, keys, max, i);
      MissIsNotLater(history, keys, k, x, max);
      assert |before + {k}| == |before| + 1 == |keys| - i;
      assert x == keys[0] <==> i == 0;
    } else {
      SubsetCard(before, before + {k});
      if |keys| < max {
        ShortListIsComplete(history, keys, max, x);
      }
    }
  }

  lemma {:induction false} MissIsNotLater<K(!new)>(history: seq<K>, keys: seq<K>, k: K, x: K, max: nat)
    requires RecentKeys(history, keys, max) && x in keys && k !in keys
    ensures k !in Later(history, x)
  {
    if k in Later(history, x) {
      LaterNests(history, x, k);
    }
  }

  /** One access, seen from a key other than the one accessed. */
  lemma {:induction false} OtherKeyAfterAccess<K(!new)>(history: seq<K>, keys: seq<K>, k: K, x: K, max: nat)
    requires RecentKeys(history, keys, max) && Distinct(keys) && |keys| <= max
    requires x != k && x in history
    ensures |Later(history + [k], x)| < max <==>
            x in keys && !(k !in keys && |keys| == max && x == keys[0])
  {
    if k in keys {
      OtherKeyAfterHit(history, keys, k, x, max);
    } else {
      OtherKeyAfterMiss(history, keys, k, x, max);
    }
  }

  /** `touch` and `put` keep the key order a recency order, cut at the limit. */
  lemma {:induction false} AccessKeepsRecency<K(!new)>(history: seq<K>, keys: seq<K>, k: K, max: nat)
    requires RecentKeys(history, keys, max) && Distinct(keys) && |keys| <= max && max >= 1
    ensures RecentKeys(history + [k], Accessed(keys, k, max), max)
  {
    var h, after := history + [k], Accessed(keys, k, max);
    AccessedFacts(keys, k, max);
    forall x ensures x in after <==> x in h && |Later(h, x)| < max {
      assert x in h <==> x in history || x == k;
      if x == k {
        LatestHasNoLater(history, k);
      } else if x in history {
        OtherKeyAfterAccess(history, keys, k, x, max);
      }
    }
    AccessOrder(history, keys, k, max);
  }

  lemma {:induction false} LatestHasNoLater<K(!new)>(history: seq<K>, k: K)
    ensures Later(history + [k], k) == {}
  {
    var h := history + [k];
    LastIndexAppend(history, k, k);
    forall x | x in h ensures LastIndex(h, x) <= LastIndex(h, k) {
      LastIndexFacts(h, x);
    }
  }

  lemma {:induction false} AccessOrder<K(!new)>(history: seq<K>, keys: seq<K>, k: K, max: nat)
    requires RecentKeys(history, keys, max) && Distinct(keys)
    ensures InLastOrder(history + [k], Accessed(keys, k, max))
  {
    var h, w := history + [k], Without(keys, k);
    WithoutKeepsOrder(history, keys, k);
    WithoutFacts(keys, k);
    var moved := w + [k];
    forall i, j | 0 <= i < j < |moved| ensures LastIndex(h, moved[i]) < LastIndex(h, moved[j]) {
      assert moved[i] == w[i] && w[i] in w;
      LastIndexAppend(history, k, moved[i]);
      LastIndexFacts(history, moved[i]);
      LastIndexAppend(history, k, moved[j]);
      if j < |w| { assert moved[j] == w[j] && w[j] in w; }
    }
    assert InLastOrder(h, moved);
  }

  /** Moving a cached key to the end, or appending a new one and evicting, are both `Accessed`. */
  lemma {:induction false} TouchedThenPut<K(!new)>(keys: seq<K>, k: K, max: nat)
    requires Distinct(keys) && |keys| <= max && max >= 1
    ensures k in keys ==> Accessed(keys, k, max) == Without(keys, k) + [k]
    ensures k !in keys ==> Accessed(keys, k, max) == if |keys| == max then (keys + [k])[1..] else keys + [k]
  {
    WithoutFacts(keys, k);
    if k !in keys {
      WithoutNone(keys, k);
    }
  }
}
