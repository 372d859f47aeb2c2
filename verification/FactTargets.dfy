/**
 Which chunk an extracted fact is stored under (ingest/load.py): the nested loop
 over chunks and facts, and the rows it leads to.
 */
module FactTargets {
  import opened Common
  import opened Text

  datatype Fact = Fact(subject: string, factKey: string, policy: Option<string>, span: Option<string>, value: string)

  /** What two facts of one document must not share; the effective date is the document's. */
  datatype Key = Key(subject: string, factKey: string, policy: Option<string>)

  predicate IsPunctuation(c: char) { c == '.' || c == '-' }

  function Without(p: char -> bool, s: string): string {
    if s == "" then ""
    else if p(s[0]) then Without(p, s[1..])
    else [s[0]] + Without(p, s[1..])
  }

  /** `_normalize_subject_key`; `lower` is `str.lower`. */
  function NormalizeSubject(lower: string -> string, key: string): string {
    Without(IsPunctuation, lower(Strip(key)))
  }

  function KeyOf(lower: string -> string, f: Fact): Key {
    Key(NormalizeSubject(lower, f.subject), f.factKey, f.policy)
  }

  predicate OccursAt(text: string, part: string, i: nat) {
    i + |part| <= |text| && text[i..i + |part|] == part
  }

  /** `part in text` */
  predicate Contains(text: string, part: string) {
    exists i: nat :: i <= |text| && OccursAt(text, part, i)
  }

  /** A fact without a span fits every chunk. */
  predicate Fits(f: Fact, text: string) {
    f.span.None? || Contains(text, f.span.value)
  }

  // ---------------------------------------------------------------- the nested loop

  /** The dictionary is a sequence of entries in insertion order. */
  datatype Target = Target(key: Key, fact: nat, chunk: nat)

  predicate HasKey(ts: seq<Target>, k: Key) {
    exists n :: 0 <= n < |ts| && ts[n].key == k
  }

  /** What a load looks at: chunk texts, facts, and how keys are lower-cased. */
  datatype Input = Input(chunks: seq<string>, facts: seq<Fact>, lower: string -> string) {
    function KeyAt(j: nat): Key
      requires j < |facts|
    {
      KeyOf(lower, facts[j])
    }

    predicate FitsAt(i: nat, j: nat) {
      i < |chunks| && j < |facts| && Fits(facts[j], chunks[i])
    }
  }

  function Visit(ts: seq<Target>, inp: Input, i: nat, j: nat): seq<Target>
    requires i < |inp.chunks| && j < |inp.facts|
  {
    if HasKey(ts, inp.KeyAt(j)) || !inp.FitsAt(i, j) then ts else ts + [Target(inp.KeyAt(j), j, i)]
  }

  /** Entries after the first `i` chunks, and the first `j` facts against the next one. */
  function Visited(inp: Input, i: nat, j: nat): seq<Target>
    requires i <= |inp.chunks| && j <= |inp.facts| && (i == |inp.chunks| ==> j == 0)
    decreases i, j
  {
    if j > 0 then Visit(Visited(inp, i, j - 1), inp, i, j - 1)
    else if i > 0 then Visited(inp, i - 1, |inp.facts|)
    else []
  }

  function Targets(inp: Input): seq<Target> {
    Visited(inp, |inp.chunks|, 0)
  }

  predicate Before(i: nat, j: nat, i': nat, j': nat) {
    i < i' || (i == i' && j < j')
  }

  predicate InOrder(a: Target, b: Target) {
    Before(a.chunk, a.fact, b.chunk, b.fact)
  }

  ghost predicate Ascending(ts: seq<Target>) {
    forall m, n :: 0 <= m < n < |ts| ==> InOrder(ts[m], ts[n]) && ts[m].key != ts[n].key
  }

  /** Every entry is a pair that fits, among those before (i, j). */
  ghost predicate AllFit(ts: seq<Target>, inp: Input, i: nat, j: nat) {
    forall n :: 0 <= n < |ts| ==>
      && inp.FitsAt(ts[n].chunk, ts[n].fact)
      && ts[n].key == inp.KeyAt(ts[n].fact)
      && Before(ts[n].chunk, ts[n].fact, i, j)
  }

  /** The key of every fitting pair before (i, j) has an entry. */
  ghost predicate Covers(ts: seq<Target>, inp: Input, i: nat, j: nat) {
    forall i', j' :: inp.FitsAt(i', j') && Before(i', j', i, j) ==> HasKey(ts, inp.KeyAt(j'))
  }

  /** No fitting pair with an entry's key comes before the entry. */
  ghost predicate Least(ts: seq<Target>, inp: Input) {
    forall n, i', j' :: 0 <= n < |ts| && inp.FitsAt(i', j') && inp.KeyAt(j') == ts[n].key ==>
      !Before(i', j', ts[n].chunk, ts[n].fact)
  }

  ghost predicate AreTargets(ts: seq<Target>, inp: Input, i: nat, j: nat) {
    Ascending(ts) && AllFit(ts, inp, i, j) && Covers(ts, inp, i, j) && Least(ts, inp)
  }

  lemma {:induction false} AddKeeps(ts: seq<Target>, inp: Input, i: nat, j: nat)
    requires AreTargets(ts, inp, i, j) && inp.FitsAt(i, j) && !HasKey(ts, inp.KeyAt(j))
    ensures AreTargets(ts + [Target(inp.KeyAt(j), j, i)], inp, i, j + 1)
  {
    var k := inp.KeyAt(j);
    var r := ts + [Target(k, j, i)];
    forall i', j' | inp.FitsAt(i', j') && Before(i', j', i, j + 1) ensures HasKey(r, inp.KeyAt(j')) {
      if Before(i', j', i, j) {
        var n :| 0 <= n < |ts| && ts[n].key == inp.KeyAt(j');
        assert r[n] == ts[n];
      } else {
        assert r[|ts|].key == k;
      }
    }
    forall i', j' | inp.FitsAt(i', j') && inp.KeyAt(j') == k ensures !Before(i', j', i, j) {
    }
  }

  lemma {:induction false} SkipKeeps(ts: seq<Target>, inp: Input, i: nat, j: nat)
    requires i < |inp.chunks| && j < |inp.facts|
    requires AreTargets(ts, inp, i, j) && (HasKey(ts, inp.KeyAt(j)) || !inp.FitsAt(i, j))
    ensures AreTargets(ts, inp, i, j + 1)
  {
  }

  lemma {:induction false} ChunkDone(ts: seq<Target>, inp: Input, i: nat)
    requires AreTargets(ts, inp, i, |inp.facts|)
    ensures AreTargets(ts, inp, i + 1, 0)
  {
    forall i', j' | inp.FitsAt(i', j') && Before(i', j', i + 1, 0) ensures HasKey(ts, inp.KeyAt(j')) {
      assert Before(i', j', i, |inp.facts|);
    }
  }

  lemma {:induction false} VisitedFacts(inp: Input, i: nat, j: nat)
    requires i <= |inp.chunks| && j <= |inp.facts| && (i == |inp.chunks| ==> j == 0)
    ensures AreTargets(Visited(inp, i, j), inp, i, j)
    decreases i, j
  {
    if j > 0 {
      var ts := Visited(inp, i, j - 1);
      VisitedFacts(inp, i, j - 1);
      if HasKey(ts, inp.KeyAt(j - 1)) || !inp.FitsAt(i, j - 1) {
        SkipKeeps(ts, inp, i, j - 1);
      } else {
        AddKeeps(ts, inp, i, j - 1);
      }
    } else if i > 0 {
      VisitedFacts(inp, i - 1, |inp.facts|);
      ChunkDone(Visited(inp, i - 1, |inp.facts|), inp, i - 1);
    }
  }

  lemma {:induction false} TargetsFacts(inp: Input)
    ensures AreTargets(Targets(inp), inp, |inp.chunks|, 0)
  {
    VisitedFacts(inp, |inp.chunks|, 0);
  }

  /**
   An entry stands for a pair that fits and has its key; no pair with that key
   comes before it; and no other entry has the key.
   */
  lemma {:induction false} TargetIsLeast(inp: Input, n: nat, i: nat, j: nat)
    requires n < |Targets(inp)|
    requires inp.FitsAt(i, j) && inp.KeyAt(j) == Targets(inp)[n].key
    ensures var t := Targets(inp)[n];
            && inp.FitsAt(t.chunk, t.fact) && t.key == inp.KeyAt(t.fact)
            && !Before(i, j, t.chunk, t.fact)
            && (forall m :: 0 <= m < |Targets(inp)| && Targets(inp)[m].key == t.key ==> m == n)
  {
    TargetsFacts(inp);
    KeysDiffer(Targets(inp));
  }

  lemma {:induction false} KeysDiffer(ts: seq<Target>)
    requires Ascending(ts)
    ensures forall m, n :: 0 <= m < |ts| && 0 <= n < |ts| && ts[m].key == ts[n].key ==> m == n
  {
  }

  /** The keys of facts that fit some chunk. */
  ghost function FittingKeys(inp: Input): set<Key> {
    set i, j | 0 <= i < |inp.chunks| && 0 <= j < |inp.facts| && inp.FitsAt(i, j) :: inp.KeyAt(j)
  }

  function KeysOf(ts: seq<Target>): seq<Key> {
    seq(|ts|, n requires 0 <= n < |ts| => ts[n].key)
  }

  lemma {:induction false} KeyIsStored(inp: Input, k: Key) returns (n: nat)
    requires k in FittingKeys(inp)
    ensures n < |Targets(inp)| && Targets(inp)[n].key == k
  {
    TargetsFacts(inp);
    var i, j :| inp.FitsAt(i, j) && inp.KeyAt(j) == k;
    assert Before(i, j, |inp.chunks|, 0);
    assert HasKey(Targets(inp), inp.KeyAt(j));
    n :| 0 <= n < |Targets(inp)| && Targets(inp)[n].key == k;
  }

  lemma {:induction false} StoredKeyFits(inp: Input, n: nat)
    requires n < |Targets(inp)|
    ensures Targets(inp)[n].key in FittingKeys(inp)
  {
    TargetsFacts(inp);
    var t := Targets(inp)[n];
    assert inp.FitsAt(t.chunk, t.fact);
  }

  lemma {:induction false} KeysDistinct(ts: seq<Target>)
    requires Ascending(ts)
    ensures Distinct(KeysOf(ts))
  {
    forall m, n | 0 <= m < n < |ts| ensures KeysOf(ts)[m] != KeysOf(ts)[n] {
      assert InOrder(ts[m], ts[n]);
    }
  }

  /** Each key that fits somewhere is stored once, and none else: there are as many entries as such keys. */
  lemma {:induction false} OneTargetPerKey(inp: Input)
    ensures Distinct(KeysOf(Targets(inp)))
    ensures (set k | k in KeysOf(Targets(inp))) == FittingKeys(inp)
    ensures |Targets(inp)| == |FittingKeys(inp)|
  {
    TargetsFacts(inp);
    var ks := KeysOf(Targets(inp));
    forall k | k in FittingKeys(inp) ensures k in ks {
      var n := KeyIsStored(inp, k);
      assert ks[n] == k;
    }
    forall n | 0 <= n < |ks| ensures ks[n] in FittingKeys(inp) {
      StoredKeyFits(inp, n);
    }
    KeysDistinct(Targets(inp));
    DistinctCard(ks);
  }

  // ---------------------------------------------------------------- grouping by chunk

  /** The entries of one chunk, in order: `chunk_facts.get(i, [])`. */
  function OfChunk(ts: seq<Target>, i: nat): seq<Target> {
    if ts == [] then []
    else if ts[|ts| - 1].chunk == i then OfChunk(ts[..|ts| - 1], i) + [ts[|ts| - 1]]
    else OfChunk(ts[..|ts| - 1], i)
  }

  /** The order rows are inserted in: chunk by chunk. */
  function ByChunk(ts: seq<Target>, n: nat): seq<Target> {
    if n == 0 then [] else ByChunk(ts, n - 1) + OfChunk(ts, n - 1)
  }

  lemma {:induction false} OfChunkAbove(ts: seq<Target>, i: nat)
    requires forall n :: 0 <= n < |ts| ==> ts[n].chunk < i
    ensures OfChunk(ts, i) == []
  {
    if ts != [] {
      OfChunkAbove(ts[..|ts| - 1], i);
    }
  }

  lemma {:induction false} OfChunkSnoc(ts: seq<Target>, t: Target, i: nat)
    ensures OfChunk(ts + [t], i) == if t.chunk == i then OfChunk(ts, i) + [t] else OfChunk(ts, i)
  {
    assert (ts + [t])[..|ts|] == ts;
  }

  lemma {:induction false} SnocEither<T>(a: seq<T>, b: seq<T>, t: T)
    ensures a + (b + [t]) == (a + b) + [t]
    ensures b == [] ==> (a + [t]) + b == (a + b) + [t]
  {
  }

  lemma {:induction false} ByChunkSnoc(ts: seq<Target>, t: Target, n: nat)
    requires forall m :: 0 <= m < |ts| ==> ts[m].chunk <= t.chunk
    ensures ByChunk(ts + [t], n) == if t.chunk < n then ByChunk(ts, n) + [t] else ByChunk(ts, n)
  {
    if n > 0 {
      ByChunkSnoc(ts, t, n - 1);
      OfChunkSnoc(ts, t, n - 1);
      SnocEither(ByChunk(ts, n - 1), OfChunk(ts, n - 1), t);
      if t.chunk < n - 1 {
        OfChunkAbove(ts, n - 1);
      }
    }
  }

  lemma {:induction false} ByChunkNothing(n: nat)
    ensures ByChunk([], n) == []
  {
    if n > 0 {
      ByChunkNothing(n - 1);
    }
  }

  lemma {:induction false} ByChunkStep(front: seq<Target>, t: Target, n: nat)
    requires forall m :: 0 <= m < |front| ==> front[m].chunk <= t.chunk
    requires t.chunk < n && ByChunk(front, n) == front
    ensures ByChunk(front + [t], n) == front + [t]
  {
    ByChunkSnoc(front, t, n);
  }

  /** Entries whose chunks never go back are already in that order. */
  lemma {:induction false} ByChunkIsAll(ts: seq<Target>, n: nat)
    requires forall l, m :: 0 <= l < m < |ts| ==> ts[l].chunk <= ts[m].chunk
    requires forall m :: 0 <= m < |ts| ==> ts[m].chunk < n
    ensures ByChunk(ts, n) == ts
  {
    if ts == [] {
      ByChunkNothing(n);
    } else {
      var front, t := ts[..|ts| - 1], ts[|ts| - 1];
      ByChunkIsAll(front, n);
      ByChunkStep(front, t, n);
      assert ts == front + [t];
    }
  }

  /** Inserting the rows chunk by chunk inserts every entry once, in the order of the nested loop. */
  lemma {:induction false} RowsAreTargets(inp: Input)
    ensures ByChunk(Targets(inp), |inp.chunks|) == Targets(inp)
  {
    var ts := Targets(inp);
    TargetsFacts(inp);
    forall l, m | 0 <= l < m < |ts| ensures ts[l].chunk <= ts[m].chunk {
      assert InOrder(ts[l], ts[m]);
    }
    ByChunkIsAll(ts, |inp.chunks|);
  }

  // ---------------------------------------------------------------- the loops themselves

  method AssignFacts(inp: Input) returns (targets: seq<Target>)
    ensures targets == Targets(inp)
  {
    targets := [];
    for i := 0 to |inp.chunks|
      invariant targets == Visited(inp, i, 0)
    {
      for j := 0 to |inp.facts|
        invariant targets == Visited(inp, i, j)
      {
        var key := inp.KeyAt(j);
        if HasKey(targets, key) {
          continue;
        }
        var fact := inp.facts[j];
        if fact.span.Some? && !Contains(inp.chunks[i], fact.span.value) {
          continue;
        }
        targets := targets + [Target(key, j, i)];
      }
      assert Visited(inp, i + 1, 0) == Visited(inp, i, |inp.facts|);
    }
  }

  /** `chunk_facts.get(i, [])` */
  function FactsAt(chunkFacts: map<nat, seq<Target>>, i: nat): seq<Target> {
    if i in chunkFacts then chunkFacts[i] else []
  }

  method GroupByChunk(targets: seq<Target>) returns (chunkFacts: map<nat, seq<Target>>)
    ensures forall i: nat :: FactsAt(chunkFacts, i) == OfChunk(targets, i)
  {
    chunkFacts := map[];
    for n := 0 to |targets|
      invariant forall i: nat :: FactsAt(chunkFacts, i) == OfChunk(targets[..n], i)
    {
      var t := targets[n];
      assert targets[..n + 1] == targets[..n] + [t];
      forall i: nat 
        ensures OfChunk(targets[..n + 1], i) == if t.chunk == i then OfChunk(targets[..n], i) + [t] else OfChunk(targets[..n], i)
      {
        OfChunkSnoc(targets[..n], t, i);
      }
      chunkFacts := chunkFacts[t.chunk := FactsAt(chunkFacts, t.chunk) + [t]];
    }
    assert targets[..|targets|] == targets;
  }

  // ---------------------------------------------------------------- the exclusion constraint

  /** The facts table's exclusion constraint reads an absent policy as an empty one. */
  predicate SameSlot(a: Key, b: Key) {
    && a.subject == b.subject && a.factKey == b.factKey
    && PolicyText(a.policy) == PolicyText(b.policy)
  }

  function PolicyText(policy: Option<string>): string {
    match policy case None => "" case Some(p) => p
  }

  /** A document's dates: from a day on, up to but not including another, or open-ended. */
  datatype Interval = Interval(from: int, to: Option<int>)

  /** The range can be built at all. */
  predicate Proper(i: Interval) {
    i.to.Some? ==> i.from <= i.to.value
  }

  predicate NoDay(i: Interval) {
    i.to.Some? && i.to.value <= i.from
  }

  /** Two half-open date ranges share a day. */
  predicate Overlap(a: Interval, b: Interval) {
    !NoDay(a) && !NoDay(b) && (b.to.Some? ==> a.from < b.to.value) && (a.to.Some? ==> b.from < a.to.value)
  }

  /** Two facts the constraint keeps apart. */
  predicate Clash(a: Key, aDates: Interval, b: Key, bDates: Interval) {
    SameSlot(a, b) && Overlap(aDates, bDates)
  }

  /** No two entries clash under the document's dates. */
  ghost predicate SlotsDistinct(ts: seq<Target>, dates: Interval) {
    forall m, n :: 0 <= m < n < |ts| ==> !Clash(ts[m].key, dates, ts[n].key, dates)
  }

  /** A mixed pair, one key without a policy and one with an empty policy. */
  ghost predicate Mixed(a: Key, b: Key) {
    a.policy.None? && b == Key(a.subject, a.factKey, Some(""))
  }

  /** Some subject and fact key fit both without a policy and with an empty one. */
  ghost predicate MixesPolicies(inp: Input) {
    exists a, b :: a in FittingKeys(inp) && b in FittingKeys(inp) && Mixed(a, b)
  }

  lemma {:induction false} SlotsDifferBy(a: Key, b: Key)
    requires a != b && SameSlot(a, b)
    ensures Mixed(a, b) || Mixed(b, a)
  {
  }

  lemma {:induction false} MixedKeysClash(inp: Input, dates: Interval, a: Key, b: Key)
    requires a in FittingKeys(inp) && b in FittingKeys(inp) && Mixed(a, b) && !NoDay(dates)
    ensures !SlotsDistinct(Targets(inp), dates)
  {
    var ts := Targets(inp);
    var m := KeyIsStored(inp, a);
    var n := KeyIsStored(inp, b);
    if m < n {
      assert Clash(ts[m].key, dates, ts[n].key, dates);
    } else {
      assert Clash(ts[n].key, dates, ts[m].key, dates);
    }
  }

  lemma {:induction false} ClashIsMixed(inp: Input, dates: Interval, m: nat, n: nat)
    requires m < n < |Targets(inp)| && Clash(Targets(inp)[m].key, dates, Targets(inp)[n].key, dates)
    ensures MixesPolicies(inp) && !NoDay(dates)
  {
    TargetsFacts(inp);
    StoredKeyFits(inp, m);
    StoredKeyFits(inp, n);
    var a, b := Targets(inp)[m].key, Targets(inp)[n].key;
    assert InOrder(Targets(inp)[m], Targets(inp)[n]);
    SlotsDifferBy(a, b);
  }

  /**
   Rows of one load clash with each other under the constraint exactly when a
   fact without a policy meets one whose policy is the empty string and the
   document's dates hold a day.
   */
  lemma {:induction false} RowsClashExactlyWhen(inp: Input, dates: Interval)
    ensures SlotsDistinct(Targets(inp), dates) <==> !MixesPolicies(inp) || NoDay(dates)
  {
    if MixesPolicies(inp) && !NoDay(dates) {
      var a, b :| a in FittingKeys(inp) && b in FittingKeys(inp) && Mixed(a, b);
      MixedKeysClash(inp, dates, a, b);
    }
    if !SlotsDistinct(Targets(inp), dates) {
      var m, n :| 0 <= m < n < |Targets(inp)| && Clash(Targets(inp)[m].key, dates, Targets(inp)[n].key, dates);
      ClashIsMixed(inp, dates, m, n);
    }
  }
}
