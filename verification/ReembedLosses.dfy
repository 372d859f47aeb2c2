/**
 When rows do get lost: histories of the re-embedding job in which a run ends
 without a failure and leaves a wanted row out, and the exact setting that rules
 them out.
 */
module ReembedLosses {
  import opened Common
  import opened ReembedModel
  import opened ReembedRuns

  // ---------------------------------------------------------------- a batch left to do

  /** A target that holds every row there is to embed but these. */
  function Filled(source: Source, except: set<Key>): Target {
    map x | x in source && Embeddable(source, x) && x !in except :: Entry(source[x].value, Vec(source[x].value, 0))
  }

  /** What a run can ask for in one batch. */
  ghost predicate Askable(source: Source, batch: seq<Row>) {
    batch != [] && RowsOf(source, batch)
  }

  function RowOf(source: Source, k: Key): Row
    requires Embeddable(source, k)
  {
    Row(k, source[k].value)
  }

  lemma {:induction false} BatchPlan(source: Source, batch: seq<Row>)
    requires Askable(source, batch)
    ensures IsPlan(source, Filled(source, KeysOf(batch)), batch[0].key.kind, None, batch)
  {
    forall k | k in KeysOf(batch) ensures k.kind == batch[0].key.kind {
      var i :| 0 <= i < |batch| && batch[i].key == k;
      assert i > 0 ==> Siblings(batch[0], batch[i]);
    }
  }

  lemma {:induction false} OneRowIsAskable(source: Source, k: Key)
    requires Embeddable(source, k)
    ensures Askable(source, [RowOf(source, k)]) && KeysOf([RowOf(source, k)]) == {k}
  {
    var batch := [RowOf(source, k)];
    assert forall r :: r in batch <==> r == RowOf(source, k);
  }

  lemma {:induction false} FilledIsSourced(job: Job, suffix: string, except: set<Key>)
    ensures Sourced(job.sources, Filled(job.sources(suffix), except))
  {
    var t := Filled(job.sources(suffix), except);
    forall x | x in t ensures FromRow(job.sources, x, t[x]) {
      assert x in job.sources(suffix) && job.sources(suffix)[x] == Some(t[x].text);
    }
  }

  function Opened(disk: Disk, meta: Meta): Disk {
    disk.(file := HeaderIfFresh(disk.file, meta))
  }

  /** What a run over that batch knows when it starts. */
  function Started(meta: Meta, disk: Disk, batch: seq<Row>): Run
    requires batch != []
  {
    Run(meta, [batch[0].key.kind], None, [batch], [], [], Load(Opened(disk, meta).file, meta), 0, 0, 0)
  }

  /** The tables of this setting lack just this batch. */
  ghost predicate Lacks(job: Job, meta: Meta, disk: Disk, batch: seq<Row>) {
    && meta in job.metas && Askable(job.sources(meta.sourceSuffix), batch)
    && TargetOf(disk, meta.targetSuffix) == Filled(job.sources(meta.sourceSuffix), KeysOf(batch))
  }

  lemma {:induction false} Starts(job: Job, meta: Meta, w: World, batch: seq<Row>)
    requires Lacks(job, meta, w.disk, batch) && !w.phase.Running?
    ensures Next(job, w, World(Opened(w.disk, meta), Running(Started(meta, w.disk, batch))))
  {
    var w' := World(Opened(w.disk, meta), Running(Started(meta, w.disk, batch)));
    BatchPlan(job.sources(meta.sourceSuffix), batch);
    assert Begin(job, meta, w, w');
  }

  // ---------------------------------------------------------------- histories

  lemma {:induction false} Join(job: Job, a: seq<World>, b: seq<World>)
    requires IsTrace(job, a) && IsTrace(job, b) && a[|a| - 1] == b[0]
    ensures IsTrace(job, a + b[1..])
    ensures (a + b[1..])[0] == a[0] && (a + b[1..])[|a + b[1..]| - 1] == b[|b| - 1]
  {
    var t := a + b[1..];
    forall i | 0 <= i < |t| - 1 ensures Next(job, t[i], t[i + 1]) {
      if i < |a| - 1 {
        assert t[i] == a[i] && t[i + 1] == a[i + 1];
      } else {
        var m := i - (|a| - 1);
        assert t[i] == b[m] && t[i + 1] == b[m + 1];
      }
    }
  }

  /** A run that starts and dies before it embeds anything: only the header is left. */
  lemma {:induction false} HeaderOnly(job: Job, meta: Meta, w: World, batch: seq<Row>) returns (trace: seq<World>)
    requires Lacks(job, meta, w.disk, batch) && !w.phase.Running?
    ensures IsTrace(job, trace) && trace[0] == w
    ensures trace[|trace| - 1] == World(Opened(w.disk, meta), Idle)
  {
    Starts(job, meta, w, batch);
    var w1 := World(Opened(w.disk, meta), Running(Started(meta, w.disk, batch)));
    var w2 := World(w1.disk, Idle);
    assert CutAppend(w1.disk.file, DoneLines([]), 0, Clean) == w1.disk.file;
    assert Crash(w1, w2);
    trace := [w, w1, w2];
  }

  /** A run that asks for the batch, gets this reply, records all of it, and ends without a failure. */
  lemma {:induction false} EmbedsIt(job: Job, meta: Meta, w: World, batch: seq<Row>, vecs: seq<Vec>) returns (trace: seq<World>)
    requires Lacks(job, meta, w.disk, batch) && !w.phase.Running?
    requires KeysOf(batch) !! Load(Opened(w.disk, meta).file, meta) && job.replies(batch, vecs)
    ensures IsTrace(job, trace) && trace[0] == w
    ensures var end := trace[|trace| - 1];
            var d := Opened(w.disk, meta);
            && end.disk.file == Append(d.file, DoneLines(RowKeys(batch)))
            && end.disk.targets == d.targets[meta.targetSuffix := Upsert(TargetOf(d, meta.targetSuffix), batch, vecs)]
            && end.phase.Finished? && end.phase.run.meta == meta && end.phase.run.failed == 0
            && end.phase.run.kinds == [batch[0].key.kind] && end.phase.run.workspaces == None
  {
    Starts(job, meta, w, batch);
    var d, r1 := Opened(w.disk, meta), Started(meta, w.disk, batch);
    var w1 := World(d, Running(r1));
    NothingDropped(batch, r1.done);
    var r2 := r1.(queue := r1.queue[1..], rows := batch, considered := |batch|);
    var w2 := World(d, Running(r2));
    assert NextPlan(w1, w2);
    var keys := RowKeys(batch);
    assert batch[..|batch|] == batch && batch[|batch|..] == [] && keys != [];
    var d3 := Stored(d, meta.targetSuffix, Upsert(TargetOf(d, meta.targetSuffix), batch, vecs));
    var r3 := r2.(rows := [], unlogged := keys);
    var w3 := World(d3, Running(r3));
    assert Commit(job, w2, w3, |batch|, vecs);
    var r4 := r3.(unlogged := [], done := r3.done + (set x | x in r3.unlogged), updated := |keys|);
    var w4 := World(d3.(file := Append(d.file, DoneLines(keys))), Running(r4));
    assert Log(w3, w4);
    var w5 := World(w4.disk, Finished(r4));
    assert Finish(w4, w5);
    trace := [w, w1, w2, w3, w4, w5];
  }

  lemma {:induction false} DropOne(row: Row, done: set<Key>)
    ensures DropDone([row], done) == if row.key in done then [] else [row]
  {
    assert [row][1..] == [];
  }

  /** A run to which the checkpoint hides the row: it ends without a failure and without the row. */
  lemma {:induction false} SkipsIt(job: Job, meta: Meta, w: World, row: Row) returns (trace: seq<World>)
    requires Lacks(job, meta, w.disk, [row]) && !w.phase.Running?
    requires row.key in Load(Opened(w.disk, meta).file, meta)
    ensures IsTrace(job, trace) && trace[0] == w
    ensures !NothingMissing(job, trace[|trace| - 1])
  {
    Starts(job, meta, w, [row]);
    var d, r1 := Opened(w.disk, meta), Started(meta, w.disk, [row]);
    var w1 := World(d, Running(r1));
    DropOne(row, r1.done);
    var r2 := r1.(queue := r1.queue[1..], rows := [], considered := 0);
    var w2 := World(d, Running(r2));
    assert NextPlan(w1, w2);
    var w3 := World(d, Finished(r2));
    assert Finish(w2, w3);
    trace := [w, w1, w2, w3];
    StillMissing(job, meta, w3, row);
  }

  lemma {:induction false} StillMissing(job: Job, meta: Meta, w: World, row: Row)
    requires Lacks(job, meta, w.disk, [row]) && w.phase.Finished?
    requires var r := w.phase.run;
             r.meta == meta && r.failed == 0 && r.kinds == [row.key.kind] && r.workspaces == None
    ensures !NothingMissing(job, w)
  {
    assert [row][0] == row && row in [row];
    assert row.key in KeysOf([row]);
    assert Wanted(job.sources(meta.sourceSuffix), w.phase.run, row.key);
  }

  // ---------------------------------------------------------------- the two ways to lose a row

  /** A batch whose reply may be short: all of it is recorded as done, and not all of it is stored. */
  lemma {:induction false} ShortReplyHistory(job: Job, meta: Meta, batch: seq<Row>, vecs: seq<Vec>) returns (trace: seq<World>)
    requires meta in job.metas && Askable(job.sources(meta.sourceSuffix), batch)
    requires job.replies(batch, vecs) && |vecs| < |batch|
    ensures IsTrace(job, trace) && Initial(job, trace[0])
    ensures !NothingMissing(job, trace[|trace| - 1])
  {
    var source := job.sources(meta.sourceSuffix);
    var t := Filled(source, KeysOf(batch));
    var w := World(Disk(map[meta.targetSuffix := t], File([], Clean)), Idle);
    FilledIsSourced(job, meta.sourceSuffix, KeysOf(batch));
    LoadIsMarked(Opened(w.disk, meta).file, meta);
    HeaderMarks(w.disk.file, meta, Clean);
    trace := EmbedsIt(job, meta, w, batch, vecs);
    SomethingUnstored(source, t, batch, vecs, trace[|trace| - 1].phase.run);
  }

  lemma {:induction false} SomethingUnstored(source: Source, t: Target, batch: seq<Row>, vecs: seq<Vec>, r: Run)
    requires Askable(source, batch) && t == Filled(source, KeysOf(batch)) && |vecs| < |batch|
    requires r.kinds == [batch[0].key.kind] && r.workspaces == None
    ensures exists k :: Wanted(source, r, k) && k !in Upsert(t, batch, vecs)
  {
    ShortReplyLosesRows(t, batch, vecs);
    var k :| k in RowKeys(batch) && k !in Upsert(t, batch, vecs);
    var i :| 0 <= i < |batch| && RowKeys(batch)[i] == k;
    assert batch[i] in batch && (i > 0 ==> Siblings(batch[0], batch[i]));
    assert Wanted(source, r, k);
  }

  lemma {:induction false} HeaderAndDone(a: Meta, k: Key)
    ensures Load(File([Header(a), Done(k)], Clean), a) == {k}
  {
    var lines := [Header(a), Done(k)];
    assert lines[..1] == [Header(a)] && [Header(a)][..0] == [];
    assert LoadLines([], a) == Loaded({}, false);
    assert LoadLines([Header(a)], a) == Loaded({}, true);
    assert LoadLines(lines, a) == Loaded({k}, true);
  }

  /** Under another setting's header, a run of the second embeds the row and records it. */
  lemma {:induction false} RecordsUnderOther(job: Job, a: Meta, b: Meta, w: World, ra: Row, rb: Row, vecs: seq<Vec>)
    returns (trace: seq<World>)
    requires a.targetSuffix != b.targetSuffix && w.phase.Idle? && w.disk.file == File([Header(a)], Clean)
    requires Lacks(job, a, w.disk, [ra]) && Lacks(job, b, w.disk, [rb]) && job.replies([rb], vecs)
    ensures IsTrace(job, trace) && trace[0] == w
    ensures var end := trace[|trace| - 1];
            && end.disk.file == File([Header(a), Done(rb.key)], Clean) && !end.phase.Running?
            && Lacks(job, a, end.disk, [ra])
  {
    assert Marked(w.disk.file) == {};
    LoadIsMarked(w.disk.file, b);
    trace := EmbedsIt(job, b, w, [rb], vecs);
    assert DoneLines(RowKeys([rb])) == [Done(rb.key)];
    assert [Header(a)] + [Done(rb.key)] == [Header(a), Done(rb.key)];
  }

  /** A run of the first setting dies after its header; one of the second records the row under that header. */
  lemma {:induction false} RecordedUnderOther(job: Job, a: Meta, b: Meta, w: World, ra: Row, rb: Row, vecs: seq<Vec>)
    returns (trace: seq<World>)
    requires a.targetSuffix != b.targetSuffix && w.phase.Idle? && w.disk.file == File([], Clean)
    requires Lacks(job, a, w.disk, [ra]) && Lacks(job, b, w.disk, [rb]) && job.replies([rb], vecs)
    ensures IsTrace(job, trace) && trace[0] == w
    ensures var end := trace[|trace| - 1];
            && end.disk.file == File([Header(a), Done(rb.key)], Clean) && !end.phase.Running?
            && Lacks(job, a, end.disk, [ra])
  {
    var first := HeaderOnly(job, a, w, [ra]);
    assert [] + [Header(a)] == [Header(a)];
    var second := RecordsUnderOther(job, a, b, first[|first| - 1], ra, rb, vecs);
    Join(job, first, second);
    trace := first + second[1..];
  }

  /**
   Two settings with different target tables over one checkpoint file, and a row
   that the second can get answered: the next run of the first takes the row
   recorded for the second as done.
   */
  lemma {:induction false} SharedCheckpointHistory(job: Job, a: Meta, b: Meta, k: Key, vecs: seq<Vec>)
    returns (trace: seq<World>)
    requires a in job.metas && b in job.metas && a.targetSuffix != b.targetSuffix
    requires Embeddable(job.sources(a.sourceSuffix), k) && Embeddable(job.sources(b.sourceSuffix), k)
    requires job.replies([RowOf(job.sources(b.sourceSuffix), k)], vecs)
    ensures IsTrace(job, trace) && Initial(job, trace[0])
    ensures !NothingMissing(job, trace[|trace| - 1])
  {
    var ra, rb := RowOf(job.sources(a.sourceSuffix), k), RowOf(job.sources(b.sourceSuffix), k);
    OneRowIsAskable(job.sources(a.sourceSuffix), k);
    OneRowIsAskable(job.sources(b.sourceSuffix), k);
    var ta, tb := Filled(job.sources(a.sourceSuffix), {k}), Filled(job.sources(b.sourceSuffix), {k});
    var w := World(Disk(map[a.targetSuffix := ta, b.targetSuffix := tb], File([], Clean)), Idle);
    FilledIsSourced(job, a.sourceSuffix, {k});
    FilledIsSourced(job, b.sourceSuffix, {k});
    var before := RecordedUnderOther(job, a, b, w, ra, rb, vecs);
    HeaderAndDone(a, k);
    var last := SkipsIt(job, a, before[|before| - 1], ra);
    Join(job, before, last);
    trace := before + last[1..];
  }

  // ---------------------------------------------------------------- exactly when

  /** No history loses a row. */
  ghost predicate Lossless(job: Job) {
    forall trace: seq<World>, j: nat :: IsTrace(job, trace) && Initial(job, trace[0]) && j < |trace| ==>
      NothingMissing(job, trace[j])
  }

  /** Every setting has to embed this row, and can get it answered. */
  ghost predicate Answerable(job: Job, k: Key) {
    forall m :: m in job.metas ==>
      && Embeddable(job.sources(m.sourceSuffix), k)
      && exists vecs :: job.replies([RowOf(job.sources(m.sourceSuffix), k)], vecs)
  }

  ghost predicate OneTarget(job: Job) {
    forall a, b :: a in job.metas && b in job.metas ==> a.targetSuffix == b.targetSuffix
  }

  /**
   With some row that every setting can get embedded: no history loses a row
   exactly when whatever may come back for a batch holds a vector for each of its
   rows and all settings over the checkpoint file write to the same target tables.
   */
  lemma {:induction false} LosslessExactly(job: Job, k: Key)
    requires job.metas != {} && Answerable(job, k)
    ensures Lossless(job) <==> Enough(job) && OneTarget(job)
  {
    if !Enough(job) {
      ShortRepliesLose(job);
    } else if !OneTarget(job) {
      TwoTargetsLose(job, k);
    } else {
      OneTargetIsLossless(job);
    }
  }

  lemma {:induction false} ShortRepliesLose(job: Job)
    requires !Enough(job)
    ensures !Lossless(job)
  {
    var m, batch, vecs :| m in job.metas && RowsOf(job.sources(m.sourceSuffix), batch)
                          && job.replies(batch, vecs) && |vecs| < |batch|;
    var trace := ShortReplyHistory(job, m, batch, vecs);
    assert !NothingMissing(job, trace[|trace| - 1]);
  }

  lemma {:induction false} TwoTargetsLose(job: Job, k: Key)
    requires Answerable(job, k) && !OneTarget(job)
    ensures !Lossless(job)
  {
    var a, b :| a in job.metas && b in job.metas && a.targetSuffix != b.targetSuffix;
    var vecs :| job.replies([RowOf(job.sources(b.sourceSuffix), k)], vecs);
    var trace := SharedCheckpointHistory(job, a, b, k, vecs);
    assert !NothingMissing(job, trace[|trace| - 1]);
  }

  lemma {:induction false} OneTargetIsLossless(job: Job)
    requires Enough(job) && OneTarget(job)
    ensures Lossless(job)
  {
    forall trace: seq<World>, j: nat | IsTrace(job, trace) && Initial(job, trace[0]) && j < |trace|
      ensures NothingMissing(job, trace[j])
    {
      if trace[j].phase.Finished? {
        TraceMetas(job, trace, j);
        NoRowIsLost(job, trace[j].phase.run.meta.targetSuffix, trace, j, j);
      }
    }
  }

  /** Settings whose headers match write to the same target tables. */
  lemma {:induction false} SameSpaceIsLossless(job: Job)
    requires Enough(job) && forall a, b :: a in job.metas && b in job.metas ==> SameSpace(a, b)
    ensures Lossless(job)
  {
    OneTargetIsLossless(job);
  }

  lemma {:induction false} TraceMetas(job: Job, trace: seq<World>, j: nat)
    requires IsTrace(job, trace) && trace[0].phase.Idle? && j < |trace|
    ensures !trace[j].phase.Idle? ==> trace[j].phase.run.meta in job.metas
  {
    if j > 0 {
      TraceMetas(job, trace, j - 1);
      assert Next(job, trace[j - 1], trace[j]);
    }
  }
}
