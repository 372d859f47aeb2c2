/**
 What the re-embedding job makes of its provider: when batches come back whole,
 and the embedder of the repository, which refuses an answer of the wrong length
 (ingest/lightrag_init.py).
 */
module ReembedReplies {
  import opened Common
  import opened ReembedModel
  import opened ReembedRuns
  import opened ReembedLosses
  import opened Reembed

  type Endpoint = (nat, seq<string>) -> Reply

  /** No answer holds fewer vectors than there were texts. */
  ghost predicate NeverShort(reply: Endpoint) {
    forall call: nat, texts: seq<string> :: reply(call, texts).Vectors? && texts != [] ==> |reply(call, texts).vs| >= |texts|
  }

  lemma {:induction false} WholeFromWhole(reply: Endpoint, batch: seq<Row>, vecs: seq<Vec>)
    requires NeverShort(reply) && Possible(reply, batch, vecs)
    ensures |vecs| >= |batch|
    decreases |batch|
  {
    if batch != [] {
      if call: nat :| Answers(reply, call, batch, vecs) {
        assert |Texts(batch)| == |batch| && reply(call, Texts(batch)).vs == vecs;
      } else {
        var i, a, b :| 0 < i < |batch| && vecs == a + b && Possible(reply, batch[..i], a) && Possible(reply, batch[i..], b);
        WholeFromWhole(reply, batch[..i], a);
        WholeFromWhole(reply, batch[i..], b);
      }
    }
  }

  /** Some rows with these texts. */
  function RowsWith(texts: seq<string>): (rows: seq<Row>)
    ensures Texts(rows) == texts && |rows| == |texts|
  {
    seq(|texts|, i requires 0 <= i < |texts| => Row(Key(Chunks, "", ""), texts[i]))
  }

  /** Splitting never shortens: batches come back whole exactly when every single answer is. */
  lemma {:induction false} WholeExactlyWhen(reply: Endpoint)
    ensures (forall batch, vecs :: Possible(reply, batch, vecs) ==> |vecs| >= |batch|) <==> NeverShort(reply)
  {
    if NeverShort(reply) {
      forall batch, vecs | Possible(reply, batch, vecs) ensures |vecs| >= |batch| {
        WholeFromWhole(reply, batch, vecs);
      }
    } else {
      var call: nat, texts: seq<string> :|
        reply(call, texts).Vectors? && texts != [] && |reply(call, texts).vs| < |texts|;
      var batch := RowsWith(texts);
      assert Answers(reply, call, batch, reply(call, texts).vs);
      assert Possible(reply, batch, reply(call, texts).vs);
    }
  }

  /** The embedder's check: one vector per text, or it raises. */
  function Checked(endpoint: Endpoint): Endpoint {
    (call: nat, texts: seq<string>) =>
      var r := endpoint(call, texts);
      if r.Vectors? && |r.vs| != |texts| then Raised(Failure(None, false, None)) else r
  }

  /** The job reckons with just what this provider may make of a batch. */
  ghost predicate Serves(job: Job, reply: Endpoint) {
    forall batch, vecs :: job.replies(batch, vecs) <==> Possible(reply, batch, vecs)
  }

  /** Behind that check no endpoint makes the job lose a row, as long as its runs write to the same tables. */
  lemma {:induction false} CheckedIsLossless(job: Job, endpoint: Endpoint)
    requires Serves(job, Checked(endpoint)) && OneTarget(job)
    ensures Lossless(job)
  {
    WholeExactlyWhen(Checked(endpoint));
    OneTargetIsLossless(job);
  }
}
