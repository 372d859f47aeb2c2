/**
 Choosing the next salesperson (api/application/services/lead_service.py):
 least recently assigned first, priority and id only between equals, and the
 fairness this gives over any run of picks.
 */
module LeadRouting {
  import opened Common

  /** A persisted timestamp: legacy rows are naive (UTC), the others carry an offset. */
  datatype Stamp = Naive(local: int) | Aware(local: int, offset: int)

  /** `normalize_persisted_datetime`, as the instant it denotes. */
  function Instant(s: Stamp): int {
    match s
    case Naive(local) => local
    case Aware(local, offset) => local - offset
  }

  datatype Sales = Sales(
    id: int, isActive: bool, priority: int, lastAssignedAt: Option<Stamp>, firebaseUid: Option<string>)

  /** The order of the sort key (assigned before, instant, -priority, id). */
  predicate KeyLess(a: Sales, b: Sales) {
    if a.lastAssignedAt.None? != b.lastAssignedAt.None? then a.lastAssignedAt.None?
    else if a.lastAssignedAt.Some? && Instant(a.lastAssignedAt.value) != Instant(b.lastAssignedAt.value) then
      Instant(a.lastAssignedAt.value) < Instant(b.lastAssignedAt.value)
    else if a.priority != b.priority then a.priority > b.priority
    else a.id < b.id
  }

  function Candidates(active: seq<Sales>, excluded: set<int>): seq<Sales> {
    if active == [] then []
    else (if active[0].id !in excluded && active[0].isActive then [active[0]] else []) + Candidates(active[1..], excluded)
  }

  /** `min` with a key: the first least element. */
  function Least(c: seq<Sales>): Sales
    requires c != []
  {
    if |c| == 1 then c[0]
    else
      var m := Least(c[..|c| - 1]);
      if KeyLess(c[|c| - 1], m) then c[|c| - 1] else m
  }

  function FirstWithUid(c: seq<Sales>, uid: string): Option<Sales> {
    if c == [] then None
    else if c[0].isActive && c[0].firebaseUid == Some(uid) then Some(c[0])
    else FirstWithUid(c[1..], uid)
  }

  /** `choose_next_sales` */
  function ChooseNext(active: seq<Sales>, excluded: set<int>, preferred: Option<string>): Option<Sales> {
    var c := Candidates(active, excluded);
    if c == [] then None
    else
      var p := if preferred.Some? && preferred.value != "" then FirstWithUid(c, preferred.value) else None;
      if p.Some? then p else Some(Least(c))
  }

  // ---------------------------------------------------------------- what a choice means

  predicate Eligible(s: Sales, excluded: set<int>) {
    s.id !in excluded && s.isActive
  }

  ghost predicate DistinctIds(roster: seq<Sales>) {
    forall i, j :: 0 <= i < j < |roster| ==> roster[i].id != roster[j].id
  }

  lemma {:induction false} CandidatesAre(active: seq<Sales>, excluded: set<int>)
    ensures forall s :: s in Candidates(active, excluded) <==> s in active && Eligible(s, excluded)
  {
    if active != [] {
      CandidatesAre(active[1..], excluded);
      assert forall s :: s in active <==> s == active[0] || s in active[1..];
    }
  }

  lemma {:induction false} LeastIsLeast(c: seq<Sales>)
    requires c != []
    ensures Least(c) in c
    ensures forall s :: s in c ==> !KeyLess(s, Least(c))
  {
    if |c| > 1 {
      var front := c[..|c| - 1];
      LeastIsLeast(front);
      assert forall s :: s in c <==> s in front || s == c[|c| - 1];
    }
  }

  lemma {:induction false} FirstWithUidIs(c: seq<Sales>, uid: string)
    ensures FirstWithUid(c, uid).Some? <==> exists s :: s in c && s.isActive && s.firebaseUid == Some(uid)
    ensures FirstWithUid(c, uid).Some? ==>
              FirstWithUid(c, uid).value in c && FirstWithUid(c, uid).value.firebaseUid == Some(uid)
  {
    if c != [] {
      FirstWithUidIs(c[1..], uid);
      assert forall s :: s in c <==> s == c[0] || s in c[1..];
    }
  }

  /**
   Without a usable preference the choice is the one eligible person who comes
   before every other in the least-recently-assigned order; nobody is chosen
   exactly when nobody is eligible.
   */
  lemma {:induction false} ChoiceIsLru(active: seq<Sales>, excluded: set<int>, s: Sales)
    requires DistinctIds(active)
    ensures ChooseNext(active, excluded, None) == Some(s) <==>
            && s in active && Eligible(s, excluded)
            && forall o :: o in active && Eligible(o, excluded) && o != s ==> KeyLess(s, o)
    ensures ChooseNext(active, excluded, None) == None <==> forall o :: o in active ==> !Eligible(o, excluded)
  {
    var c := Candidates(active, excluded);
    CandidatesAre(active, excluded);
    if c != [] {
      LeastIsLeast(c);
      var m := Least(c);
      forall o | o in active && Eligible(o, excluded) && o != m ensures KeyLess(m, o) {
        IdsDiffer(active, m, o);
      }
    } else {
      forall o | o in active ensures !Eligible(o, excluded) {
        assert o !in c;
      }
    }
  }

  /** A higher priority is passed over only for someone served strictly longer ago. */
  lemma {:induction false} PriorityOnlyBreaksTies(active: seq<Sales>, excluded: set<int>, s: Sales, o: Sales)
    requires DistinctIds(active) && ChooseNext(active, excluded, None) == Some(s)
    requires o in active && Eligible(o, excluded) && o.priority > s.priority
    ensures o.lastAssignedAt.Some?
    ensures s.lastAssignedAt.None? || Instant(s.lastAssignedAt.value) < Instant(o.lastAssignedAt.value)
  {
    ChoiceIsLru(active, excluded, s);
  }

  lemma {:induction false} IdsDiffer(roster: seq<Sales>, a: Sales, b: Sales)
    requires DistinctIds(roster) && a in roster && b in roster && a != b
    ensures a.id != b.id
  {
    var i :| 0 <= i < |roster| && roster[i] == a;
    var j :| 0 <= j < |roster| && roster[j] == b;
  }

  /** Whoever is chosen is active and not excluded, with or without a preference. */
  lemma {:induction false} ChoiceIsEligible(active: seq<Sales>, excluded: set<int>, preferred: Option<string>)
    ensures var r := ChooseNext(active, excluded, preferred);
            && (r.Some? ==> r.value in active && Eligible(r.value, excluded))
            && (r.None? ==> forall o :: o in active ==> !Eligible(o, excluded))
  {
    var c := Candidates(active, excluded);
    CandidatesAre(active, excluded);
    if c != [] {
      LeastIsLeast(c);
      if preferred.Some? {
        FirstWithUidIs(c, preferred.value);
      }
    } else {
      forall o | o in active ensures !Eligible(o, excluded) {
        assert o !in c;
      }
    }
  }

  // ---------------------------------------------------------------- fairness

  /** The repository stamps the chosen row. */
  function StampRow(roster: seq<Sales>, id: int, at: int): seq<Sales> {
    seq(|roster|, i requires 0 <= i < |roster| =>
      if roster[i].id == id then roster[i].(lastAssignedAt := Some(Aware(at, 0))) else roster[i])
  }

  function NextId(roster: seq<Sales>): int {
    match ChooseNext(roster, {}, None)
    case Some(s) => s.id
    case None => -1
  }

  /** The roster after the first `k` picks, the i-th of them stamped at `times[i]`. */
  function RosterAt(roster: seq<Sales>, times: seq<int>, k: nat): seq<Sales>
    requires k <= |times|
  {
    if k == 0 then roster
    else
      var before := RosterAt(roster, times, k - 1);
      StampRow(before, NextId(before), times[k - 1])
  }

  function PickAt(roster: seq<Sales>, times: seq<int>, k: nat): int
    requires k < |times|
  {
    NextId(RosterAt(roster, times, k))
  }

  function Picks(roster: seq<Sales>, times: seq<int>): seq<int> {
    seq(|times|, k requires 0 <= k < |times| => PickAt(roster, times, k))
  }

  function Ids(roster: seq<Sales>): seq<int> {
    seq(|roster|, i requires 0 <= i < |roster| => roster[i].id)
  }

  /** A fixed active set, and stamps later than each other and than everything stored. */
  ghost predicate FairSetting(roster: seq<Sales>, times: seq<int>) {
    && roster != [] && DistinctIds(roster)
    && (forall s :: s in roster ==> s.isActive)
    && (forall i, j :: 0 <= i < j < |times| ==> times[i] < times[j])
    && (forall s, k :: s in roster && s.lastAssignedAt.Some? && 0 <= k < |times| ==>
          Instant(s.lastAssignedAt.value) < times[k])
  }

  /** Row `p` was stamped at pick `m` or later. */
  ghost predicate StampedSince(roster: seq<Sales>, times: seq<int>, k: nat, p: nat, m: nat)
    requires k <= |times| && m < |times| && |RosterAt(roster, times, k)| == |roster| && p < |roster|
  {
    var r := RosterAt(roster, times, k)[p];
    r.lastAssignedAt.Some? && Instant(r.lastAssignedAt.value) >= times[m]
  }

  /** Stamping keeps ids and activity; a row is stamped since pick `m` exactly when it was picked since then. */
  lemma {:induction false} StampsTellPicks(roster: seq<Sales>, times: seq<int>, k: nat, p: nat, m: nat)
    requires FairSetting(roster, times) && m <= k <= |times| && m < |times| && p < |roster|
    ensures |RosterAt(roster, times, k)| == |roster|
    ensures RosterAt(roster, times, k)[p] == roster[p].(lastAssignedAt := RosterAt(roster, times, k)[p].lastAssignedAt)
    ensures StampedSince(roster, times, k, p, m) <==>
            exists x: nat :: m <= x < k && PickAt(roster, times, x) == roster[p].id
    decreases k
  {
    if k > 0 && m < k {
      StampsTellPicks(roster, times, k - 1, p, m);
      var x := k - 1;
      if PickAt(roster, times, x) == roster[p].id {
        assert m <= x < k;
      }
    } else {
      UnstampedBefore(roster, times, k, p);
    }
  }

  /** Before pick `k`, every stamp is older than `times[k]`. */
  lemma {:induction false} UnstampedBefore(roster: seq<Sales>, times: seq<int>, k: nat, p: nat)
    requires FairSetting(roster, times) && k < |times| && p < |roster|
    ensures |RosterAt(roster, times, k)| == |roster|
    ensures RosterAt(roster, times, k)[p] == roster[p].(lastAssignedAt := RosterAt(roster, times, k)[p].lastAssignedAt)
    ensures !StampedSince(roster, times, k, p, k)
  {
    if k > 0 {
      UnstampedBefore(roster, times, k - 1, p);
    } else {
      assert roster[p] in roster;
    }
  }

  /** The pick at `k` is a row of the roster that no other row precedes. */
  lemma {:induction false} PickIsLeast(roster: seq<Sales>, times: seq<int>, k: nat) returns (p: nat)
    requires FairSetting(roster, times) && k < |times|
    ensures |RosterAt(roster, times, k)| == |roster|
    ensures p < |roster| && PickAt(roster, times, k) == roster[p].id
    ensures forall q :: 0 <= q < |roster| ==> !KeyLess(RosterAt(roster, times, k)[q], RosterAt(roster, times, k)[p])
  {
    var r := RosterAt(roster, times, k);
    forall q | 0 <= q < |roster|
      ensures |r| == |roster| && r[q].id == roster[q].id && r[q].isActive
    {
      UnstampedBefore(roster, times, k, q);
      assert roster[q] in roster;
    }
    assert roster[0] in roster;
    CandidatesAre(r, {});
    assert r[0] in Candidates(r, {});
    LeastIsLeast(Candidates(r, {}));
    p :| 0 <= p < |r| && r[p] == Least(Candidates(r, {}));
  }

  /** Two picks of the same person have all the others picked in between. */
  lemma {:induction false} OthersInBetween(roster: seq<Sales>, times: seq<int>, i: nat, j: nat, q: nat)
    requires FairSetting(roster, times) && i < j < |times| && q < |roster|
    requires PickAt(roster, times, i) == PickAt(roster, times, j) != roster[q].id
    ensures exists x: nat :: i < x < j && PickAt(roster, times, x) == roster[q].id
  {
    var p := PickIsLeast(roster, times, j);
    StampsTellPicks(roster, times, j, p, i);
    assert i <= i < j && PickAt(roster, times, i) == roster[p].id;
    var r := RosterAt(roster, times, j);
    StampsTellPicks(roster, times, j, q, i);
    assert !KeyLess(r[q], r[p]);
    assert StampedSince(roster, times, j, q, i);
    var x: nat :| i <= x < j && PickAt(roster, times, x) == roster[q].id;
    assert x != i;
  }

  /** A repeat takes at least as many picks as there are people. */
  lemma {:induction false} RepeatTakesARound(roster: seq<Sales>, times: seq<int>, i: nat, j: nat)
    requires FairSetting(roster, times) && i < j < |times|
    requires PickAt(roster, times, i) == PickAt(roster, times, j)
    ensures j - i >= |roster|
  {
    var between := Picks(roster, times)[i + 1..j];
    var p := PickIsLeast(roster, times, j);
    var all, others := set id | id in Ids(roster), set id | id in between;
    forall id | id in all && id != roster[p].id ensures id in others {
      var q :| 0 <= q < |roster| && Ids(roster)[q] == id;
      OthersInBetween(roster, times, i, j, q);
      var x: nat :| i < x < j && PickAt(roster, times, x) == roster[q].id;
      assert between[x - i - 1] == id;
    }
    IdsDistinct(roster);
    DistinctCard(Ids(roster));
    assert Ids(roster)[p] == roster[p].id;
    SubsetCard(all - {roster[p].id}, others);
    SetNoLarger(between);
  }

  lemma {:induction false} IdsDistinct(roster: seq<Sales>)
    requires DistinctIds(roster)
    ensures Distinct(Ids(roster))
  {
  }

  lemma {:induction false} SetNoLarger<T>(s: seq<T>)
    ensures |set x | x in s| <= |s|
  {
    if s != [] {
      SetNoLarger(s[1..]);
      var a, b := set x | x in s, set x | x in s[1..];
      assert forall x :: x in s <==> x == s[0] || x in s[1..];
      assert a == b + {s[0]};
    }
  }

  lemma {:induction false} SameElementsSameMultiset<T>(a: seq<T>, b: seq<T>)
    requires Distinct(a) && Distinct(b) && |a| == |b|
    requires forall x :: x in a ==> x in b
    ensures multiset(a) == multiset(b)
  {
    var sa, sb := set x | x in a, set x | x in b;
    DistinctCard(a);
    DistinctCard(b);
    SubsetCard(sa, sb);
    forall x ensures multiset(a)[x] == multiset(b)[x] {
      CountDistinct(a, x);
      CountDistinct(b, x);
      assert x in a <==> x in sa;
      assert x in b <==> x in sb;
    }
  }

  lemma {:induction false} CountDistinct<T>(s: seq<T>, x: T)
    requires Distinct(s)
    ensures multiset(s)[x] == if x in s then 1 else 0
  {
    if s != [] {
      var n := |s| - 1;
      CountDistinct(s[..n], x);
      assert s == s[..n] + [s[n]];
    }
  }

  /** Picks that repeat no sooner than after a round are rounds, window by window. */
  lemma {:induction false} SpacedPicksAreRounds(picks: seq<int>, ids: seq<int>, i: nat)
    requires Distinct(ids) && i + |ids| <= |picks|
    requires forall a, b :: 0 <= a < b < |picks| && picks[a] == picks[b] ==> b - a >= |ids|
    requires forall a :: 0 <= a < |picks| ==> picks[a] in ids
    ensures multiset(picks[i..i + |ids|]) == multiset(ids)
  {
    var w := picks[i..i + |ids|];
    forall a, b | 0 <= a < b < |w| ensures w[a] != w[b] {
      assert w[a] == picks[i + a] && w[b] == picks[i + b];
    }
    forall x | x in w ensures x in ids {
      var a :| 0 <= a < |w| && w[a] == x;
      assert x == picks[i + a];
    }
    SameElementsSameMultiset(w, ids);
  }

  lemma {:induction false} PickIsOnRoster(roster: seq<Sales>, times: seq<int>, k: nat)
    requires FairSetting(roster, times) && k < |times|
    ensures PickAt(roster, times, k) in Ids(roster)
  {
    var p := PickIsLeast(roster, times, k);
    assert Ids(roster)[p] == PickAt(roster, times, k);
  }

  lemma {:induction false} PicksAreSpaced(roster: seq<Sales>, times: seq<int>)
    requires FairSetting(roster, times)
    ensures var picks := Picks(roster, times);
            forall a, b :: 0 <= a < b < |picks| && picks[a] == picks[b] ==> b - a >= |roster|
  {
    var picks := Picks(roster, times);
    forall a, b | 0 <= a < b < |picks| && picks[a] == picks[b] ensures b - a >= |roster| {
      assert picks[a] == PickAt(roster, times, a) && picks[b] == PickAt(roster, times, b);
      RepeatTakesARound(roster, times, a, b);
    }
  }

  lemma {:induction false} PicksAreOnRoster(roster: seq<Sales>, times: seq<int>)
    requires FairSetting(roster, times)
    ensures forall a :: 0 <= a < |Picks(roster, times)| ==> Picks(roster, times)[a] in Ids(roster)
  {
    forall a | 0 <= a < |times| ensures PickAt(roster, times, a) in Ids(roster) {
      PickIsOnRoster(roster, times, a);
    }
  }

  /** Any `n` consecutive picks serve each of the `n` active people exactly once. */
  lemma {:induction false} EveryWindowIsARound(roster: seq<Sales>, times: seq<int>, picks: seq<int>, ids: seq<int>, i: nat)
    requires FairSetting(roster, times)
    requires picks == Picks(roster, times) && ids == Ids(roster)
    requires i + |ids| <= |picks|
    ensures multiset(picks[i..i + |ids|]) == multiset(ids)
  {
    PicksAreSpaced(roster, times);
    PicksAreOnRoster(roster, times);
    IdsDistinct(roster);
    SpacedPicksAreRounds(picks, ids, i);
  }
}
