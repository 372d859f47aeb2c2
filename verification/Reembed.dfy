/**
 The re-embedding job in its own form (scripts/reembed_embeddings.py): the
 backoff loop, the recursive batch splitter, the checkpoint, and the loop over
 one plan, which is shown to take only the steps of `ReembedModel`.
 */
module Reembed {
  import opened Common
  import opened ReembedModel

  const SPLIT_MIN_BATCH := 1
  const MAX_TRIES := 8
  const BASE_DELAY := 1.0
  const MAX_DELAY := 60.0

  /** What an exception tells: its HTTP status, whether its class is transient, its Retry-After. */
  datatype Failure = Failure(status: Option<int>, transient: bool, retryAfter: Option<real>)

  datatype Reply = Vectors(vs: seq<Vec>) | Raised(f: Failure)

  datatype Outcome = Embedded(vecs: seq<Vec>) | Failed(f: Failure) | RateAbort

  predicate Retryable(f: Failure) {
    f.transient || (f.status.Some? && f.status.value >= 500)
  }

  predicate HasStatus(f: Failure, code: int) {
    f.status == Some(code)
  }

  /** Whatever the provider does, each answer holds one vector per text, in order. */
  ghost predicate Honest(reply: (nat, seq<string>) -> Reply) {
    forall n, texts :: reply(n, texts).Vectors? ==>
      |reply(n, texts).vs| == |texts|
      && forall i :: 0 <= i < |texts| ==> reply(n, texts).vs[i].of == texts[i]
  }

  /** A provider that always answers. */
  ghost predicate NeverRaises(reply: (nat, seq<string>) -> Reply) {
    forall call: nat, texts: seq<string> :: reply(call, texts).Vectors?
  }

  /** The embedding endpoint: its answer may depend on the call number. */
  class Provider {
    const reply: (nat, seq<string>) -> Reply
    var calls: nat

    constructor (reply: (nat, seq<string>) -> Reply)
      ensures this.reply == reply && calls == 0
    {
      this.reply := reply;
      calls := 0;
    }

    method Embed(texts: seq<string>) returns (r: Reply)
      modifies this
      ensures calls == old(calls) + 1 && r == reply(old(calls), texts)
    {
      r := reply(calls, texts);
      calls := calls + 1;
    }
  }

  class RateLimitGuard {
    const maxConsecutive: int
    var consecutive: int

    constructor (maxConsecutive: int)
      ensures this.maxConsecutive == maxConsecutive && consecutive == 0
    {
      this.maxConsecutive := maxConsecutive;
      consecutive := 0;
    }

    method On429() returns (aborted: bool)
      modifies this
      ensures consecutive == old(consecutive) + 1
      ensures aborted <==> consecutive > maxConsecutive
    {
      consecutive := consecutive + 1;
      aborted := consecutive > maxConsecutive;
    }

    method Reset()
      modifies this
      ensures consecutive == 0
    {
      consecutive := 0;
    }
  }

  function Min(a: real, b: real): real {
    if a < b then a else b
  }

  /** An answer after which the loop sleeps and tries again. */
  predicate Retried(r: Reply) {
    r.Raised? && Retryable(r.f)
  }

  /** The computed delay before retry `i`: doubled each time, up to the maximum. */
  function DelayAt(i: nat): real {
    if i == 0 then BASE_DELAY else Min(DelayAt(i - 1) * 2.0, MAX_DELAY)
  }

  /** The pause after the `i`-th failure: Retry-After wins over the computed delay, and the maximum over both. */
  function SleepAfter(r: Reply, i: nat): (s: real)
    ensures s <= MAX_DELAY
  {
    Min(if r.Raised? && r.f.retryAfter.Some? then r.f.retryAfter.value else DelayAt(i), MAX_DELAY)
  }

  /** The delays are 1, 2, 4, ... seconds, and never more than 60. */
  lemma {:induction false} DelayIs(i: nat)
    ensures DelayAt(i) == if i < 6 then PowerOfTwo(i) else 60.0
  {
    if i > 0 {
      DelayIs(i - 1);
      FirstPowers();
    }
  }

  /** The pause after a failure: what the provider told, else that delay, and never more than 60 seconds. */
  lemma {:induction false} PauseIs(r: Reply, i: nat)
    ensures var wanted := if r.Raised? && r.f.retryAfter.Some? then r.f.retryAfter.value
                          else if i < 6 then PowerOfTwo(i) else 60.0;
            SleepAfter(r, i) == if wanted <= 60.0 then wanted else 60.0
  {
    DelayIs(i);
  }

  function PowerOfTwo(i: nat): real {
    if i == 0 then 1.0 else 2.0 * PowerOfTwo(i - 1)
  }

  lemma {:induction false} FirstPowers()
    ensures PowerOfTwo(0) == 1.0 && PowerOfTwo(1) == 2.0 && PowerOfTwo(2) == 4.0
    ensures PowerOfTwo(3) == 8.0 && PowerOfTwo(4) == 16.0 && PowerOfTwo(5) == 32.0
  {
    assert PowerOfTwo(2) == 2.0 * PowerOfTwo(1);
    assert PowerOfTwo(3) == 2.0 * PowerOfTwo(2);
    assert PowerOfTwo(4) == 2.0 * PowerOfTwo(3);
    assert PowerOfTwo(5) == 2.0 * PowerOfTwo(4);
  }

  /** How many of the answers to calls `a` to `b` were a 429. */
  function TooMany(reply: (nat, seq<string>) -> Reply, texts: seq<string>, a: nat, b: nat): nat
    requires a <= b
    decreases b
  {
    if a == b then 0
    else
      var last := reply(b - 1, texts);
      TooMany(reply, texts, a, b - 1) + if last.Raised? && last.f.status == Some(429) then 1 else 0
  }

  /**
   `embed_with_backoff`. At most `maxTries` calls; all but the last raised, of a
   transient class or with a status of 500 or more; the last one decides, and a
   failure before the last try is neither.
   */
  method EmbedWithBackoff(p: Provider, texts: seq<string>, rl: RateLimitGuard, maxTries: nat)
    returns (r: Outcome, slept: seq<real>)
    requires maxTries >= 1
    modifies p, rl
    ensures old(p.calls) < p.calls <= old(p.calls) + maxTries
    ensures forall i :: old(p.calls) <= i < p.calls - 1 ==>
              var answer := p.reply(i, texts);
              answer.Raised? && (answer.f.transient || (answer.f.status.Some? && answer.f.status.value >= 500))
    ensures var last := p.reply((p.calls - 1) as nat, texts);
            match r
            case Embedded(vs) => last == Vectors(vs) && rl.consecutive == 0
            case Failed(f) =>
              && last == Raised(f)
              && (p.calls < old(p.calls) + maxTries ==> !f.transient && (f.status.Some? ==> f.status.value < 500))
            case RateAbort => last.Raised? && last.f.status == Some(429) && rl.consecutive > rl.maxConsecutive
    ensures !r.Embedded? ==> rl.consecutive == old(rl.consecutive) + TooMany(p.reply, texts, old(p.calls), p.calls)
    ensures r.Failed? && rl.consecutive > old(rl.consecutive) ==> rl.consecutive <= rl.maxConsecutive
    ensures |slept| == p.calls - old(p.calls) - 1
    ensures forall i :: 0 <= i < |slept| ==> slept[i] == SleepAfter(p.reply(old(p.calls) + i, texts), i)
  {
    var delay := BASE_DELAY;
    slept := [];
    var attempt := 1;
    while true
      invariant 1 <= attempt <= maxTries
      invariant p.calls == old(p.calls) + attempt - 1
      invariant forall i :: old(p.calls) <= i < p.calls ==> Retried(p.reply(i, texts))
      invariant |slept| == attempt - 1
      invariant delay == DelayAt(attempt - 1)
      invariant rl.consecutive == old(rl.consecutive) + TooMany(p.reply, texts, old(p.calls), p.calls)
      invariant rl.consecutive > old(rl.consecutive) ==> rl.consecutive <= rl.maxConsecutive
      invariant forall i :: 0 <= i < |slept| ==> slept[i] == SleepAfter(p.reply(old(p.calls) + i, texts), i)
      decreases maxTries - attempt
    {
      var reply := p.Embed(texts);
      match reply {
        case Vectors(vs) =>
          rl.Reset();
          return Embedded(vs), slept;
        case Raised(f) =>
          if HasStatus(f, 429) {
            var aborted := rl.On429();
            if aborted {
              return RateAbort, slept;
            }
          }
          if !Retryable(f) || attempt == maxTries {
            return Failed(f), slept;
          }
          var pause := if f.retryAfter.Some? then f.retryAfter.value else delay;
          assert Min(pause, MAX_DELAY) == SleepAfter(reply, attempt - 1);
          slept := slept + [Min(pause, MAX_DELAY)];
          delay := Min(delay * 2.0, MAX_DELAY);
      }
      attempt := attempt + 1;
    }
  }

  function Texts(batch: seq<Row>): seq<string> {
    seq(|batch|, i requires 0 <= i < |batch| => batch[i].text)
  }

  /** A stretch of the batch was asked for in the last call, which raised this: a transient failure, or a single row's. */
  ghost predicate LastFailure(reply: (nat, seq<string>) -> Reply, call: nat, batch: seq<Row>, f: Failure) {
    exists a: nat, b: nat :: a < b <= |batch| && FailsOn(reply, call, batch, a, b, f)
  }

  ghost predicate FailsOn(reply: (nat, seq<string>) -> Reply, call: nat, batch: seq<Row>, a: nat, b: nat, f: Failure)
    requires a < b <= |batch|
  {
    && reply(call, Texts(batch[a..b])) == Raised(f)
    && (b == a + 1 || f.transient || (f.status.Some? && f.status.value >= 500))
  }

  lemma {:induction false} SliceOfSlice<T>(s: seq<T>, x: nat, y: nat, a: nat, b: nat)
    requires a <= b <= y - x && x <= y <= |s|
    ensures s[x..y][a..b] == s[x + a..x + b]
  {
    assert |s[x..y][a..b]| == b - a == |s[x + a..x + b]|;
    forall i | 0 <= i < b - a ensures s[x..y][a..b][i] == s[x + a..x + b][i] {
      assert s[x..y][a + i] == s[x + (a + i)];
    }
  }

  lemma {:induction false} PartFails(reply: (nat, seq<string>) -> Reply, call: nat, batch: seq<Row>, x: nat, y: nat, f: Failure)
    requires x <= y <= |batch| && LastFailure(reply, call, batch[x..y], f)
    ensures LastFailure(reply, call, batch, f)
  {
    var a: nat, b: nat :| a < b <= y - x && FailsOn(reply, call, batch[x..y], a, b, f);
    SliceOfSlice(batch, x, y, a, b);
    assert FailsOn(reply, call, batch, x + a, x + b, f);
  }

  lemma {:induction false} TailFails(reply: (nat, seq<string>) -> Reply, call: nat, batch: seq<Row>, x: nat, f: Failure)
    requires x <= |batch| && LastFailure(reply, call, batch[x..], f)
    ensures LastFailure(reply, call, batch, f)
  {
    assert batch[x..] == batch[x..|batch|];
    PartFails(reply, call, batch, x, |batch|, f);
  }

  lemma {:induction false} WholeFails(reply: (nat, seq<string>) -> Reply, call: nat, batch: seq<Row>, f: Failure)
    requires batch != [] && reply(call, Texts(batch)) == Raised(f) && (Retryable(f) || |batch| == 1)
    ensures LastFailure(reply, call, batch, f)
  {
    assert batch[0..|batch|] == batch;
    assert FailsOn(reply, call, batch, 0, |batch|, f);
  }

  /** A provider that takes up to `limit` texts and refuses more with a 400. */
  ghost predicate SizeLimited(reply: (nat, seq<string>) -> Reply, limit: nat) {
    forall call: nat, texts: seq<string> ::
      if |texts| <= limit then reply(call, texts).Vectors?
      else reply(call, texts).Raised? && reply(call, texts).f.status == Some(400) && !reply(call, texts).f.transient
  }

  /** A provider that never answers with a 400. */
  ghost predicate NeverRefuses(reply: (nat, seq<string>) -> Reply) {
    forall call: nat, texts: seq<string> :: reply(call, texts).Raised? ==> reply(call, texts).f.status != Some(400)
  }

  /** One request for a batch within the limit, and fewer than four for every `limit` rows of a larger one. */
  predicate Affordable(limit: nat, size: nat, requests: nat) {
    if size <= limit then requests <= 1 else requests * limit <= 4 * size - limit
  }

  /** Halving: the requests for two halves, and for the whole that was refused. */
  lemma {:induction false} HalvesCost(limit: nat, size: nat, n: nat, m: nat)
    requires limit >= 1 && size > limit
    requires Affordable(limit, size / 2, n) && Affordable(limit, size - size / 2, m)
    ensures Affordable(limit, size, 1 + n + m)
  {
    var mid := size / 2;
    assert n * limit <= 4 * mid - limit;
    assert m * limit <= 4 * (size - mid) - limit;
    assert (1 + n + m) * limit == limit + n * limit + m * limit;
  }

  /** What may come back for a batch: the answer to one call, or two parts put together. */
  ghost predicate Possible(reply: (nat, seq<string>) -> Reply, batch: seq<Row>, vecs: seq<Vec>)
    decreases |batch|
  {
    if batch == [] then vecs == []
    else
      || (exists call: nat :: Answers(reply, call, batch, vecs))
      || (exists i, a, b :: 0 < i < |batch| && vecs == a + b && Possible(reply, batch[..i], a) && Possible(reply, batch[i..], b))
  }

  ghost predicate Answers(reply: (nat, seq<string>) -> Reply, call: nat, batch: seq<Row>, vecs: seq<Vec>) {
    reply(call, Texts(batch)) == Vectors(vecs)
  }

  lemma {:induction false} PossibleParts(reply: (nat, seq<string>) -> Reply, batch: seq<Row>, i: nat, a: seq<Vec>, b: seq<Vec>)
    requires i < |batch| && Possible(reply, batch[..i], a) && Possible(reply, batch[i..], b)
    ensures Possible(reply, batch, a + b)
  {
    if i == 0 {
      assert batch[0..] == batch && a + b == b;
    }
  }

  lemma {:induction false} AnswerIsFaithful(reply: (nat, seq<string>) -> Reply, call: nat, batch: seq<Row>, vecs: seq<Vec>)
    requires Honest(reply) && Answers(reply, call, batch, vecs)
    ensures Faithful(batch, vecs)
  {
    var texts := Texts(batch);
    assert reply(call, texts).vs == vecs;
  }

  lemma {:induction false} FaithfulParts(batch: seq<Row>, i: nat, a: seq<Vec>, b: seq<Vec>)
    requires i <= |batch| && Faithful(batch[..i], a) && Faithful(batch[i..], b)
    ensures Faithful(batch, a + b)
  {
    forall k | 0 <= k < |batch| ensures (a + b)[k].of == batch[k].text {
      if k < i { assert batch[..i][k] == batch[k]; } else { assert batch[i..][k - i] == batch[k]; }
    }
  }

  /** Put together from right answers, what comes back is right for the whole batch. */
  lemma {:induction false} HonestIsFaithful(reply: (nat, seq<string>) -> Reply, batch: seq<Row>, vecs: seq<Vec>)
    requires Possible(reply, batch, vecs)
    ensures Honest(reply) ==> Faithful(batch, vecs)
    decreases |batch|
  {
    if Honest(reply) && batch != [] {
      if call: nat :| Answers(reply, call, batch, vecs) {
        AnswerIsFaithful(reply, call, batch, vecs);
      } else {
        var i, a, b :| 0 < i < |batch| && vecs == a + b && Possible(reply, batch[..i], a) && Possible(reply, batch[i..], b);
        HonestIsFaithful(reply, batch[..i], a);
        HonestIsFaithful(reply, batch[i..], b);
        FaithfulParts(batch, i, a, b);
      }
    }
  }

  /** Row by row: one more row's vectors are put behind those so far. */
  lemma {:induction false} PossibleNext(reply: (nat, seq<string>) -> Reply, batch: seq<Row>, i: nat, out: seq<Vec>, vecs: seq<Vec>)
    requires i < |batch| && Possible(reply, batch[..i], out) && Possible(reply, [batch[i]], vecs)
    ensures Possible(reply, batch[..i + 1], out + vecs)
  {
    var longer := batch[..i + 1];
    assert longer[..i] == batch[..i] && longer[i..] == [batch[i]];
    PossibleParts(reply, longer, i, out, vecs);
  }

  /**
   `embed_batch_resilient`. Ends on every pattern of answers, with one vector
   per row in row order or a failure, and costs at most 2n - 1 requests. A
   failure is that of the very last call, either transient or of one row alone:
   a permanent failure of a larger batch never ends the matter. The abort of the
   rate-limit guard has no status and is not retryable, so a batch of several
   rows answers it by trying its first row once more. A 400 is answered by halving,
   which costs no more than four requests for `limit` rows if the provider takes that
   many at once; any other permanent failure by going row by row.
   */
  method EmbedBatchResilient(p: Provider, batch: seq<Row>, rl: RateLimitGuard, ghost limit: nat)
    returns (r: Outcome, requests: nat)
    requires limit >= 1
    modifies p, rl
    ensures SizeLimited(p.reply, limit) ==>
              r.Embedded? && Affordable(limit, |batch|, requests)
    ensures NeverRefuses(p.reply) ==> requests <= |batch| + 1
    ensures batch == [] ==> r == Embedded([]) && requests == 0
    ensures batch != [] ==> 1 <= requests <= 2 * |batch| - 1
    ensures old(p.calls) <= p.calls <= old(p.calls) + MAX_TRIES * requests
    ensures r.Embedded? ==> Possible(p.reply, batch, r.vecs)
    ensures Honest(p.reply) && r.Embedded? ==> Faithful(batch, r.vecs)
    ensures r.RateAbort? && |batch| > 1 ==> requests >= 2
    ensures NeverRaises(p.reply) ==> r.Embedded?
    ensures r.Failed? ==> p.calls > 0 && LastFailure(p.reply, p.calls - 1, batch, r.f)
    ensures r.RateAbort? ==> rl.consecutive > rl.maxConsecutive
    decreases |batch|, 1
  {
    if batch == [] {
      return Embedded([]), 0;
    }
    var first, _ := EmbedWithBackoff(p, Texts(batch), rl, MAX_TRIES);
    requests := 1;
    if first.Embedded? {
      rl.Reset();
      assert Answers(p.reply, p.calls - 1, batch, first.vecs);
      HonestIsFaithful(p.reply, batch, first.vecs);
      return first, requests;
    }
    if first.Failed? && HasStatus(first.f, 400) && |batch| > SPLIT_MIN_BATCH {
      var n;
      ghost var left;
      r, n, left := EmbedHalves(p, batch, rl, limit);
      if r.Embedded? { HonestIsFaithful(p.reply, batch, r.vecs); }
      if SizeLimited(p.reply, limit) && |batch| > limit { HalvesCost(limit, |batch|, left, n - left); }
      return r, requests + n;
    }
    if |batch| > SPLIT_MIN_BATCH && !(first.Failed? && Retryable(first.f)) {
      var n;
      r, n := EmbedRowByRow(p, batch, rl);
      return r, requests + n;
    }
    if first.Failed? { WholeFails(p.reply, p.calls - 1, batch, first.f); }
    return first, requests;
  }

  /** Its answer to a 400: both halves, one after the other. */
  method EmbedHalves(p: Provider, batch: seq<Row>, rl: RateLimitGuard, ghost limit: nat)
    returns (r: Outcome, requests: nat, ghost left: nat)
    requires |batch| > SPLIT_MIN_BATCH && limit >= 1
    modifies p, rl
    ensures SizeLimited(p.reply, limit) ==>
              && r.Embedded? && left <= requests
              && Affordable(limit, |batch| / 2, left) && Affordable(limit, |batch| - |batch| / 2, requests - left)
    ensures 1 <= requests <= 2 * |batch| - 2
    ensures old(p.calls) <= p.calls <= old(p.calls) + MAX_TRIES * requests
    ensures r.Embedded? ==> Possible(p.reply, batch, r.vecs)
    ensures NeverRaises(p.reply) ==> r.Embedded?
    ensures r.Failed? ==> p.calls > 0 && LastFailure(p.reply, p.calls - 1, batch, r.f)
    ensures r.RateAbort? ==> rl.consecutive > rl.maxConsecutive
    decreases |batch|, 0
  {
    var mid := |batch| / 2;
    var first, second := batch[..mid], batch[mid..];
    var a, n := EmbedBatchResilient(p, first, rl, limit);
    if !a.Embedded? {
      if a.Failed? { PartFails(p.reply, p.calls - 1, batch, 0, mid, a.f); }
      return a, n, n;
    }
    var b, m := EmbedBatchResilient(p, second, rl, limit);
    if !b.Embedded? {
      if b.Failed? { TailFails(p.reply, p.calls - 1, batch, mid, b.f); }
      return b, n + m, n;
    }
    PossibleParts(p.reply, batch, mid, a.vecs, b.vecs);
    return Embedded(a.vecs + b.vecs), n + m, n;
  }

  /** Its loop over the rows of a batch that failed permanently. */
  method EmbedRowByRow(p: Provider, batch: seq<Row>, rl: RateLimitGuard)
    returns (r: Outcome, requests: nat)
    requires |batch| > SPLIT_MIN_BATCH
    modifies p, rl
    ensures 1 <= requests <= |batch|
    ensures old(p.calls) <= p.calls <= old(p.calls) + MAX_TRIES * requests
    ensures r.Embedded? ==> Possible(p.reply, batch, r.vecs)
    ensures Honest(p.reply) && r.Embedded? ==> Faithful(batch, r.vecs)
    ensures NeverRaises(p.reply) ==> r.Embedded?
    ensures r.Failed? ==> p.calls > 0 && LastFailure(p.reply, p.calls - 1, batch, r.f)
    ensures r.RateAbort? ==> rl.consecutive > rl.maxConsecutive
    decreases |batch|, 0
  {
    var out := [];
    requests := 0;
    for i := 0 to |batch|
      invariant requests == i
      invariant old(p.calls) <= p.calls <= old(p.calls) + MAX_TRIES * requests
      invariant Possible(p.reply, batch[..i], out)
    {
      var single, n := EmbedBatchResilient(p, [batch[i]], rl, 1);
      requests := requests + n;
      if !single.Embedded? {
        if single.Failed? {
          assert [batch[i]] == batch[i..i + 1];
          PartFails(p.reply, p.calls - 1, batch, i, i + 1, single.f);
        }
        return single, requests;
      }
      PossibleNext(p.reply, batch, i, out, single.vecs);
      out := out + single.vecs;
    }
    assert batch[..|batch|] == batch;
    HonestIsFaithful(p.reply, batch, out);
    return Embedded(out), requests;
  }

  // ---------------------------------------------------------------- checkpoint and target

  class Checkpoint {
    var file: File
    var done: set<Key>

    /** Write the header into a fresh file, then read back what is already done. */
    constructor (f: File, meta: Meta)
      ensures file == HeaderIfFresh(f, meta) && done == Load(file, meta)
    {
      file := HeaderIfFresh(f, meta);
      done := {};
      new;
      var s := Loaded({}, false);
      for i := 0 to |file.lines|
        invariant file == HeaderIfFresh(f, meta)
        invariant s == LoadLines(file.lines[..i], meta)
      {
        assert file.lines[..i + 1][..i] == file.lines[..i];
        s := LoadLine(s, file.lines[i], meta);
      }
      assert file.lines[..|file.lines|] == file.lines;
      if file.tail.Unterminated? {
        s := LoadLine(s, file.tail.line, meta);
      }
      done := s.done;
    }

    method Add(keys: seq<Key>)
      modifies this
      ensures file == Append(old(file), DoneLines(keys))
      ensures done == old(done) + (set k | k in keys)
    {
      file := Append(file, DoneLines(keys));
      for i := 0 to |keys|
        invariant file == Append(old(file), DoneLines(keys))
        invariant done == old(done) + (set k | k in keys[..i])
      {
        assert keys[..i + 1] == keys[..i] + [keys[i]];
        done := done + {keys[i]};
      }
      assert keys[..|keys|] == keys;
    }
  }

  class VectorStore {
    var target: Target

    constructor (target: Target)
      ensures this.target == target
    {
      this.target := target;
    }

    /** One transaction: `executemany` over the zipped pairs. */
    method UpsertBatch(batch: seq<Row>, vecs: seq<Vec>)
      modifies this
      ensures target == Upsert(old(target), batch, vecs)
    {
      var n := if |batch| < |vecs| then |batch| else |vecs|;
      for i := 0 to n
        invariant Upsert(target, batch[i..], vecs[i..]) == Upsert(old(target), batch, vecs)
      {
        var r := batch[i];
        target := target[r.key := Entry(r.text, vecs[i])];
      }
    }
  }

  class Report {
    var updated: nat
    var failed: nat

    constructor ()
      ensures updated == 0 && failed == 0
    {
      updated, failed := 0, 0;
    }
  }

  // ---------------------------------------------------------------- one plan

  /** The job reckons with everything this provider may make of a batch. */
  ghost predicate Allows(job: Job, reply: (nat, seq<string>) -> Reply) {
    forall batch, vecs :: Possible(reply, batch, vecs) ==> job.replies(batch, vecs)
  }

  lemma {:induction false} Extend(job: Job, trace: seq<World>, w: World)
    requires IsTrace(job, trace) && Next(job, trace[|trace| - 1], w)
    ensures IsTrace(job, trace + [w])
  {
    var t := trace + [w];
    forall i | 0 <= i < |t| - 1 ensures Next(job, t[i], t[i + 1]) {
      if i < |trace| - 1 { assert t[i] == trace[i] && t[i + 1] == trace[i + 1]; }
    }
  }

  /** The world a run sees from inside: its files and the in-memory state. */
  ghost predicate Sees(w: World, target: Target, file: File, done: set<Key>, rows: seq<Row>, updated: nat, failed: nat) {
    && w.phase.Running? && w.phase.run.unlogged == []
    && TargetOf(w.disk, w.phase.run.meta.targetSuffix) == target && w.disk.file == file
    && w.phase.run.rows == rows && w.phase.run.done == done
    && w.phase.run.updated == updated && w.phase.run.failed == failed
  }


  /** A history ending in a world the run sees. */
  ghost predicate Ends(job: Job, trace: seq<World>, w0: World, queue: seq<seq<Row>>, target: Target,
                       file: File, done: set<Key>, rows: seq<Row>, updated: nat, failed: nat) {
    && IsTrace(job, trace) && trace[0] == w0
    && Sees(trace[|trace| - 1], target, file, done, rows, updated, failed)
    && trace[|trace| - 1].phase.run.queue == queue
  }

  ghost predicate EndsAborted(job: Job, trace: seq<World>, w0: World, target: Target, file: File,
                              updated: nat, failed: nat) {
    && IsTrace(job, trace) && trace[0] == w0
    && var w := trace[|trace| - 1];
    && w.phase.Aborted? && TargetOf(w.disk, w.phase.run.meta.targetSuffix) == target && w.disk.file == file
    && w.phase.run.updated == updated && w.phase.run.failed == failed
  }

  lemma {:induction false} StepStart(job: Job, w: World, target: Target, file: File,
                                     done: set<Key>, updated: nat, failed: nat)
    returns (trace: seq<World>)
    requires Sees(w, target, file, done, [], updated, failed) && w.phase.run.queue != []
    ensures var q := w.phase.run.queue;
            Ends(job, trace, w, q[1..], target, file, done, DropDone(q[0], done), updated, failed)
  {
    var r := w.phase.run;
    var rows := DropDone(r.queue[0], done);
    var w' := w.(phase := Running(r.(queue := r.queue[1..], rows := rows, considered := r.considered + |rows|)));
    assert NextPlan(w, w');
    Extend(job, [w], w');
    trace := [w] + [w'];
  }

  lemma {:induction false} StepCommit(job: Job, trace: seq<World>, w0: World, queue: seq<seq<Row>>,
                                      target: Target, file: File, done: set<Key>, rows: seq<Row>,
                                      updated: nat, failed: nat, n: nat, vecs: seq<Vec>)
    returns (trace': seq<World>)
    requires Ends(job, trace, w0, queue, target, file, done, rows, updated, failed)
    requires 1 <= n <= |rows| && job.replies(rows[..n], vecs)
    ensures var keys := RowKeys(rows[..n]);
            Ends(job, trace', w0, queue, Upsert(target, rows[..n], vecs), Append(file, DoneLines(keys)),
                 done + (set k | k in keys), rows[n..], updated + n, failed)
  {
    var w := trace[|trace| - 1];
    var r, keys := w.phase.run, RowKeys(rows[..n]);
    var w1 := World(Stored(w.disk, r.meta.targetSuffix, Upsert(target, rows[..n], vecs)),
                    Running(r.(rows := rows[n..], unlogged := keys)));
    assert Commit(job, w, w1, n, vecs);
    Extend(job, trace, w1);
    var r1 := w1.phase.run;
    var w2 := World(w1.disk.(file := Append(file, DoneLines(keys))),
                    Running(r1.(unlogged := [], done := r1.done + (set k | k in r1.unlogged),
                                updated := r1.updated + |r1.unlogged|)));
    assert Log(w1, w2);
    Extend(job, trace + [w1], w2);
    trace' := trace + [w1] + [w2];
  }

  lemma {:induction false} StepFail(job: Job, trace: seq<World>, w0: World, queue: seq<seq<Row>>,
                                    target: Target, file: File, done: set<Key>, rows: seq<Row>,
                                    updated: nat, failed: nat, n: nat)
    returns (trace': seq<World>)
    requires Ends(job, trace, w0, queue, target, file, done, rows, updated, failed)
    requires 1 <= n <= |rows|
    ensures Ends(job, trace', w0, queue, target, file, done, rows[n..], updated, failed + n)
  {
    var w := trace[|trace| - 1];
    var w' := w.(phase := Running(w.phase.run.(rows := rows[n..], failed := failed + n)));
    assert FailBatch(w, w', n);
    Extend(job, trace, w');
    trace' := trace + [w'];
  }

  lemma {:induction false} StepAbort(job: Job, trace: seq<World>, w0: World, queue: seq<seq<Row>>,
                                     target: Target, file: File, done: set<Key>, rows: seq<Row>,
                                     updated: nat, failed: nat)
    returns (trace': seq<World>)
    requires Ends(job, trace, w0, queue, target, file, done, rows, updated, failed)
    requires rows != []
    ensures EndsAborted(job, trace', w0, target, file, updated, failed + |rows|)
  {
    var w := trace[|trace| - 1];
    var w' := w.(phase := Aborted(w.phase.run.(rows := [], failed := failed + |rows|)));
    assert Abort(w, w');
    Extend(job, trace, w');
    trace' := trace + [w'];
  }

  /** The body of the loop of `process_plan`: one batch, `rows[..n]` of the rows still to embed. */
  method ProcessBatch(ghost job: Job, ghost w0: World, ghost queue: seq<seq<Row>>,
                      ghost before: seq<World>, rows: seq<Row>, n: nat,
                      store: VectorStore, cp: Checkpoint, p: Provider, rl: RateLimitGuard, report: Report)
    returns (aborted: bool, ghost trace: seq<World>)
    requires 1 <= n <= |rows| && Allows(job, p.reply)
    requires Ends(job, before, w0, queue, store.target, cp.file, cp.done, rows, report.updated, report.failed)
    modifies store, cp, p, rl, report
    ensures NeverRaises(p.reply) ==> !aborted && report.failed == old(report.failed)
    ensures aborted ==> report.updated + report.failed == old(report.updated) + old(report.failed) + |rows|
    ensures aborted ==> EndsAborted(job, trace, w0, store.target, cp.file, report.updated, report.failed)
    ensures !aborted ==> report.updated + report.failed == old(report.updated) + old(report.failed) + n
    ensures !aborted ==> Ends(job, trace, w0, queue, store.target, cp.file, cp.done, rows[n..],
                              report.updated, report.failed)
  {
    var batch := rows[..n];
    var outcome, _ := EmbedBatchResilient(p, batch, rl, 1);
    aborted := false;
    match outcome {
      case RateAbort =>
        trace := StepAbort(job, before, w0, queue, store.target, cp.file, cp.done, rows,
                           report.updated, report.failed);
        report.failed := report.failed + |rows|;
        aborted := true;
      case Failed(_) =>
        trace := StepFail(job, before, w0, queue, store.target, cp.file, cp.done, rows,
                          report.updated, report.failed, n);
        report.failed := report.failed + |batch|;
      case Embedded(vecs) =>
        trace := StepCommit(job, before, w0, queue, store.target, cp.file, cp.done, rows,
                            report.updated, report.failed, n, vecs);
        store.UpsertBatch(batch, vecs);
        cp.Add(RowKeys(batch));
        report.updated := report.updated + |batch|;
    }
  }

  /**
   `process_plan`: every way through it is a history of the step system, and
   the report accounts for every row that was not checkpointed.
   */
  method ProcessPlan(ghost job: Job, ghost w0: World, plan: seq<Row>, batchSize: nat,
                     store: VectorStore, cp: Checkpoint, p: Provider, rl: RateLimitGuard, report: Report)
    returns (aborted: bool, ghost trace: seq<World>)
    requires batchSize >= 1 && Allows(job, p.reply)
    requires Sees(w0, store.target, cp.file, cp.done, [], report.updated, report.failed)
    requires w0.phase.run.queue != [] && w0.phase.run.queue[0] == plan
    modifies store, cp, p, rl, report
    ensures NeverRaises(p.reply) ==> !aborted && report.failed == old(report.failed)
    ensures report.updated + report.failed
            == old(report.updated) + old(report.failed) + |DropDone(plan, old(cp.done))|
    ensures aborted ==> EndsAborted(job, trace, w0, store.target, cp.file, report.updated, report.failed)
    ensures !aborted ==>
              Ends(job, trace, w0, w0.phase.run.queue[1..], store.target, cp.file, cp.done, [],
                   report.updated, report.failed)
  {
    var rows := DropDone(plan, cp.done);
    ghost var queue := w0.phase.run.queue[1..];
    trace := StepStart(job, w0, store.target, cp.file, cp.done, report.updated, report.failed);
    var start := 0;
    while start < |rows|
      invariant start <= |rows|
      invariant Ends(job, trace, w0, queue, store.target, cp.file, cp.done, rows[start..],
                     report.updated, report.failed)
      invariant report.updated + report.failed == old(report.updated) + old(report.failed) + start
      invariant NeverRaises(p.reply) ==> report.failed == old(report.failed)
    {
      var n := if start + batchSize < |rows| then batchSize else |rows| - start;
      aborted, trace := ProcessBatch(job, w0, queue, trace, rows[start..], n, store, cp, p, rl, report);
      if aborted {
        return true, trace;
      }
      assert rows[start..][n..] == rows[start + n..];
      start := start + n;
    }
    aborted := false;
  }
}
