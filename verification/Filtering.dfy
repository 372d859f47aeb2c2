/** Filtering a sequence, and what filters do to each other. */
module Filtering {

  function Filter<T>(p: T -> bool, s: seq<T>): seq<T> {
    if s == [] then []
    else Filter(p, s[..|s| - 1]) + (if p(s[|s| - 1]) then [s[|s| - 1]] else [])
  }

  lemma {:induction false} FilterIn<T>(p: T -> bool, s: seq<T>, n: nat)
    requires n < |Filter(p, s)|
    ensures Filter(p, s)[n] in s && p(Filter(p, s)[n])
  {
    if n < |Filter(p, s[..|s| - 1])| {
      FilterIn(p, s[..|s| - 1], n);
    }
  }

  lemma {:induction false} FilterAppend<T>(p: T -> bool, a: seq<T>, b: seq<T>)
    ensures Filter(p, a + b) == Filter(p, a) + Filter(p, b)
  {
    if b == [] {
      assert a + b == a;
    } else {
      var n := |b| - 1;
      FilterAppend(p, a, b[..n]);
      assert (a + b)[..|a| + n] == a + b[..n];
    }
  }

  lemma {:induction false} FilterNone<T>(p: T -> bool, s: seq<T>)
    requires forall n :: 0 <= n < |s| ==> !p(s[n])
    ensures Filter(p, s) == []
  {
    if s != [] {
      FilterNone(p, s[..|s| - 1]);
    }
  }

  /** Filtering what a weaker filter left changes nothing. */
  lemma {:induction false} FilterWeaker<T>(p: T -> bool, keep: T -> bool, s: seq<T>)
    requires forall n :: 0 <= n < |s| && p(s[n]) ==> keep(s[n])
    ensures Filter(p, Filter(keep, s)) == Filter(p, s)
  {
    if s != [] {
      var front, last := s[..|s| - 1], s[|s| - 1];
      FilterWeaker(p, keep, front);
      FilterAppend(p, Filter(keep, front), if keep(last) then [last] else []);
      assert [last][..0] == [];
    }
  }

  /** Filtering what an opposite one left leaves nothing. */
  lemma {:induction false} FilterOpposite<T>(p: T -> bool, keep: T -> bool, s: seq<T>)
    requires forall n :: 0 <= n < |s| && p(s[n]) ==> !keep(s[n])
    ensures Filter(p, Filter(keep, s)) == []
  {
    forall n | 0 <= n < |Filter(keep, s)| ensures !p(Filter(keep, s)[n]) {
      FilterIn(keep, s, n);
    }
    FilterNone(p, Filter(keep, s));
  }

  lemma {:induction false} FilterAll<T>(p: T -> bool, s: seq<T>)
    requires forall n :: 0 <= n < |s| ==> p(s[n])
    ensures Filter(p, s) == s
  {
    if s != [] {
      FilterAll(p, s[..|s| - 1]);
    }
  }
}
