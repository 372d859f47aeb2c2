/**
 Safety of the re-embedding job over any sequence of runs, each cut anywhere:
 nothing is lost, the checkpoint never claims more than the target holds.
 */
module ReembedRuns {
  import opened Common
  import opened ReembedModel

  // ---------------------------------------------------------------- invariant

  /** The entry was computed from the text of its own row in some old-model table. */
  ghost predicate FromRow(sources: string -> Source, k: Key, e: Entry) {
    e.vec.of == e.text && exists suffix :: k in sources(suffix) && sources(suffix)[k] == Some(e.text)
  }

  /** Every stored vector was computed from the text of its own source row. */
  ghost predicate Sourced(sources: string -> Source, t: Target) {
    forall k :: k in t ==> FromRow(sources, k, t[k])
  }

  predicate Siblings(a: Row, b: Row) {
    a.key != b.key && a.key.kind == b.key.kind
  }

  /** Different rows of one kind, each with its text, none of them blank: what a plan is made of. */
  ghost predicate RowsOf(source: Source, rows: seq<Row>) {
    && (forall i, j :: 0 <= i < j < |rows| ==> Siblings(rows[i], rows[j]))
    && (forall r :: r in rows ==> Embeddable(source, r.key) && source[r.key] == Some(r.text))
  }

  /** Whatever may come back for a batch that a run can ask for holds a vector for each of its rows. */
  ghost predicate Enough(job: Job) {
    forall m, batch, vecs :: m in job.metas && RowsOf(job.sources(m.sourceSuffix), batch) && job.replies(batch, vecs) ==>
      |vecs| >= |batch|
  }

  /** ... exactly one for each, computed from its own text. */
  ghost predicate Exact(job: Job) {
    forall m, batch, vecs :: m in job.metas && RowsOf(job.sources(m.sourceSuffix), batch) && job.replies(batch, vecs) ==>
      Faithful(batch, vecs)
  }

  /** A key this run still has to account for. */
  ghost predicate Wanted(source: Source, r: Run, k: Key) {
    Embeddable(source, k) && k.kind in r.kinds && InScope(k, r.workspaces)
  }

  ghost predicate Queued(r: Run, k: Key) {
    exists q :: q in r.queue && k in KeysOf(q)
  }

  ghost predicate RunInv(source: Source, t: Target, r: Run) {
    && r.done <= t.Keys
    && (forall k :: k in r.unlogged ==> k in t)
    && RowsOf(source, r.rows)
    && KeysOf(r.rows) !! t.Keys
    && (forall q :: q in r.queue ==> RowsOf(source, q))
    && (forall q, k :: q in r.queue && k in KeysOf(q) && k in t ==> k in r.done || k in r.unlogged)
    && r.considered == r.updated + r.failed + |r.rows| + |r.unlogged|
    && (r.failed == 0 ==> Covered(source, t, r))
  }

  /** Every wanted key is stored, about to be embedded, or waiting in a later plan. */
  ghost predicate Covered(source: Source, t: Target, r: Run) {
    forall k :: Wanted(source, r, k) ==> k in t || k in KeysOf(r.rows) || Queued(r, k)
  }

  ghost predicate PhaseInv(job: Job, t: Target, p: Phase) {
    match p
    case Idle => true
    case Running(r) => RunInv(job.sources(r.meta.sourceSuffix), t, r)
    case Finished(r) =>
      && r.considered == r.updated + r.failed
      && (r.failed == 0 ==> forall k :: Wanted(job.sources(r.meta.sourceSuffix), r, k) ==> k in t)
    case Aborted(r) => r.failed > 0 && r.considered == r.updated + r.failed
  }

  /** All settings write to the tables of this suffix. */
  predicate SharesTarget(metas: set<Meta>, suffix: string) {
    forall m :: m in metas ==> m.targetSuffix == suffix
  }

  /** Keys a checkpoint file marks done, under whatever header. */
  function Marked(f: File): set<Key> {
    (set l | l in f.lines && l.Done? :: l.key)
    + (if f.tail.Unterminated? && f.tail.line.Done? then {f.tail.line.key} else {})
  }

  ghost predicate Inv(job: Job, suffix: string, w: World) {
    var t := TargetOf(w.disk, suffix);
    && Marked(w.disk.file) <= t.Keys
    && (!w.phase.Idle? ==> w.phase.run.meta in job.metas)
    && PhaseInv(job, t, w.phase)
  }

  /** Nothing is removed from the target and nothing in it is overwritten. */
  ghost predicate Grows(t: Target, t': Target) {
    forall k :: k in t ==> k in t' && t'[k] == t[k]
  }

  // ---------------------------------------------------------------- checkpoint lemmas

  lemma {:induction false} LinesMark(lines: seq<Line>, meta: Meta)
    ensures forall k :: k in LoadLines(lines, meta).done ==> Done(k) in lines
  {
    if lines != [] {
      LinesMark(lines[..|lines| - 1], meta);
    }
  }

  /** A load never yields a key the file does not mark. */
  lemma {:induction false} LoadIsMarked(f: File, meta: Meta)
    ensures Load(f, meta) <= Marked(f)
  {
    LinesMark(f.lines, meta);
  }

  lemma {:induction false} DoneLinesMark(keys: seq<Key>)
    ensures forall l :: l in DoneLines(keys) <==> l.Done? && l.key in keys
  {
    var lines := DoneLines(keys);
    forall l | l in lines ensures l.Done? && l.key in keys {
      var i :| 0 <= i < |lines| && lines[i] == l;
    }
    forall l: Line | l.Done? && l.key in keys ensures l in lines {
      var i :| 0 <= i < |keys| && keys[i] == l.key;
      assert lines[i] == l;
    }
  }

  /** Appended keys are all a checkpoint file can gain. */
  lemma {:induction false} AppendMarks(f: File, keys: seq<Key>)
    ensures Marked(Append(f, DoneLines(keys))) <= Marked(f) + (set k | k in keys)
  {
    var lines := DoneLines(keys);
    DoneLinesMark(keys);
    if lines != [] {
      forall l | l in lines[1..] ensures l in lines {
      }
    }
  }

  /** However the write is cut. */
  lemma {:induction false} CutAppendMarks(f: File, keys: seq<Key>, n: nat, part: Tail)
    requires n <= |keys|
    ensures Marked(CutAppend(f, DoneLines(keys), n, part)) <= Marked(f) + (set k | k in keys)
  {
    assert DoneLines(keys)[..n] == DoneLines(keys[..n]);
    AppendMarks(f, keys[..n]);
    assert forall k :: k in keys[..n] ==> k in keys;
  }

  lemma {:induction false} HeaderMarks(f: File, meta: Meta, part: Tail)
    ensures Marked(HeaderIfFresh(f, meta)) == Marked(f)
    ensures Fresh(f) ==> Marked(CutAppend(f, [Header(meta)], 0, part)) == {}
  {
    assert [Header(meta)][..0] == [];
  }

  // ---------------------------------------------------------------- target lemmas

  lemma {:induction false} UpsertKeys(t: Target, batch: seq<Row>, vecs: seq<Vec>)
    requires |vecs| >= |batch|
    ensures Upsert(t, batch, vecs).Keys == t.Keys + KeysOf(batch)
    decreases |batch|
  {
    if batch != [] {
      UpsertKeys(t[batch[0].key := Entry(batch[0].text, vecs[0])], batch[1..], vecs[1..]);
      assert forall r :: r in batch <==> r == batch[0] || r in batch[1..];
    }
  }

  /** The keys behind the first row of a batch stay new once that row is stored. */
  lemma {:induction false} RestIsNew(t: Target, batch: seq<Row>, e: Entry)
    requires batch != [] && KeysOf(batch) !! t.Keys
    requires forall i, j :: 0 <= i < j < |batch| ==> batch[i].key != batch[j].key
    ensures batch[0].key !in t && KeysOf(batch[1..]) !! t[batch[0].key := e].Keys
  {
    var rest := batch[1..];
    assert batch[0] in batch && batch[0].key in KeysOf(batch);
    forall k | k in KeysOf(rest) ensures k !in t[batch[0].key := e].Keys {
      var i :| 0 <= i < |rest| && rest[i].key == k;
      assert batch[i + 1] == rest[i];
      assert k in KeysOf(batch);
    }
  }

  lemma {:induction false} UpsertGrows(t: Target, batch: seq<Row>, vecs: seq<Vec>)
    requires KeysOf(batch) !! t.Keys
    requires forall i, j :: 0 <= i < j < |batch| ==> batch[i].key != batch[j].key
    ensures Grows(t, Upsert(t, batch, vecs))
    decreases |batch|
  {
    if batch != [] && vecs != [] {
      var e := Entry(batch[0].text, vecs[0]);
      RestIsNew(t, batch, e);
      UpsertGrows(t[batch[0].key := e], batch[1..], vecs[1..]);
    }
  }

  lemma {:induction false} UpsertFaithful(job: Job, suffix: string, t: Target, batch: seq<Row>, vecs: seq<Vec>)
    requires RowsOf(job.sources(suffix), batch) && Faithful(batch, vecs)
    requires Sourced(job.sources, t) && KeysOf(batch) !! t.Keys
    ensures Sourced(job.sources, Upsert(t, batch, vecs))
    decreases |batch|
  {
    if batch != [] {
      var r, e := batch[0], Entry(batch[0].text, vecs[0]);
      var t1 := t[r.key := e];
      assert r in batch;
      assert FromRow(job.sources, r.key, t1[r.key]);
      RestIsNew(t, batch, e);
      UpsertFaithful(job, suffix, t1, batch[1..], vecs[1..]);
    }
  }

  /**
   What a batch leaves checkpointed is in the target exactly when the provider
   returned a vector for every row not there before: `zip` drops the rest, the
   checkpoint does not.
   */
  lemma {:induction false} ShortReplyLosesRows(t: Target, batch: seq<Row>, vecs: seq<Vec>)
    requires forall i, j :: 0 <= i < j < |batch| ==> batch[i].key != batch[j].key
    requires KeysOf(batch) !! t.Keys
    ensures (forall k :: k in RowKeys(batch) ==> k in Upsert(t, batch, vecs)) <==> |vecs| >= |batch|
    decreases |batch|
  {
    if |vecs| >= |batch| {
      UpsertKeys(t, batch, vecs);
      forall k | k in RowKeys(batch) ensures k in KeysOf(batch) {
        var i :| 0 <= i < |batch| && RowKeys(batch)[i] == k;
        assert batch[i] in batch;
      }
    } else {
      var m := |vecs|;
      UpsertShort(t, batch, vecs);
      UpsertKeys(t, batch[..m], vecs);
      var k := batch[m].key;
      assert RowKeys(batch)[m] == k;
      assert batch[m] in batch && k in KeysOf(batch);
      assert k !in KeysOf(batch[..m]);
    }
  }

  lemma {:induction false} UpsertShort(t: Target, batch: seq<Row>, vecs: seq<Vec>)
    requires |vecs| <= |batch|
    ensures Upsert(t, batch, vecs) == Upsert(t, batch[..|vecs|], vecs)
    decreases |batch|
  {
    if batch != [] && vecs != [] {
      UpsertShort(t[batch[0].key := Entry(batch[0].text, vecs[0])], batch[1..], vecs[1..]);
      assert batch[1..][..|vecs| - 1] == batch[..|vecs|][1..];
    }
  }

  // ---------------------------------------------------------------- row lists

  lemma {:induction false} FirstAndSiblings(first: Row, rest: seq<Row>)
    requires forall i, j :: 0 <= i < j < |rest| ==> Siblings(rest[i], rest[j])
    requires forall j :: 0 <= j < |rest| ==> Siblings(first, rest[j])
    ensures var all := [first] + rest; forall i, j :: 0 <= i < j < |all| ==> Siblings(all[i], all[j])
  {
    var all := [first] + rest;
    forall i, j | 0 <= i < j < |all| ensures Siblings(all[i], all[j]) {
      if i > 0 { assert all[i] == rest[i - 1]; }
      assert all[j] == rest[j - 1];
    }
  }

  lemma {:induction false} DropDoneFacts(source: Source, rows: seq<Row>, done: set<Key>)
    requires RowsOf(source, rows)
    ensures var d := DropDone(rows, done);
            && RowsOf(source, d)
            && (forall r :: r in d <==> r in rows && r.key !in done)
  {
    if rows != [] {
      var rest := rows[1..];
      DropDoneFacts(source, rest, done);
      var d, e := DropDone(rows, done), DropDone(rest, done);
      assert forall r :: r in rows <==> r == rows[0] || r in rest;
      if rows[0].key !in done {
        assert d == [rows[0]] + e;
        forall j | 0 <= j < |e| ensures Siblings(rows[0], e[j]) {
          assert e[j] in rest;
          var i :| 0 <= i < |rest| && rest[i] == e[j];
          assert rows[i + 1] == e[j];
        }
        FirstAndSiblings(rows[0], e);
      } else {
        assert d == e;
      }
    }
  }

  lemma {:induction false} SplitRows(source: Source, rows: seq<Row>, n: nat)
    requires RowsOf(source, rows) && n <= |rows|
    ensures RowsOf(source, rows[..n]) && RowsOf(source, rows[n..])
    ensures KeysOf(rows) == KeysOf(rows[..n]) + KeysOf(rows[n..])
    ensures KeysOf(rows[..n]) !! KeysOf(rows[n..])
    ensures forall k :: k in RowKeys(rows[..n]) <==> k in KeysOf(rows[..n])
  {
    var a, b := rows[..n], rows[n..];
    assert rows == a + b;
    forall i, j | 0 <= i < |a| && 0 <= j < |b| ensures a[i].key != b[j].key {
      assert rows[i] == a[i] && rows[n + j] == b[j];
    }
    forall k ensures k in RowKeys(a) <==> k in KeysOf(a) {
      if k in RowKeys(a) {
        var i :| 0 <= i < |a| && RowKeys(a)[i] == k;
        assert a[i] in a;
      }
      if k in KeysOf(a) {
        var i :| 0 <= i < |a| && a[i].key == k;
        assert RowKeys(a)[i] == k;
      }
    }
  }

  // ---------------------------------------------------------------- steps keep the invariant

  lemma {:induction false} PlanIsRows(source: Source, t: Target, kind: Kind, workspaces: Option<set<string>>, rows: seq<Row>)
    requires IsPlan(source, t, kind, workspaces, rows)
    ensures RowsOf(source, rows) && KeysOf(rows) !! t.Keys
  {
    forall r | r in rows ensures Embeddable(source, r.key) && r.key.kind == kind {
      assert r.key in KeysOf(rows);
    }
  }

  lemma {:induction false} BeginRun(source: Source, t: Target, r: Run)
    requires |r.queue| == |r.kinds| && r.done <= t.Keys
    requires forall i :: 0 <= i < |r.kinds| ==> IsPlan(source, t, r.kinds[i], r.workspaces, r.queue[i])
    requires r == Run(r.meta, r.kinds, r.workspaces, r.queue, [], [], r.done, 0, 0, 0)
    ensures RunInv(source, t, r)
  {
    forall q | q in r.queue ensures RowsOf(source, q) && KeysOf(q) !! t.Keys {
      var i :| 0 <= i < |r.queue| && r.queue[i] == q;
      PlanIsRows(source, t, r.kinds[i], r.workspaces, q);
    }
    forall k | Wanted(source, r, k) && k !in t ensures Queued(r, k) {
      var i :| 0 <= i < |r.kinds| && r.kinds[i] == k.kind;
      assert IsPlan(source, t, r.kinds[i], r.workspaces, r.queue[i]);
      assert r.queue[i] in r.queue && k in KeysOf(r.queue[i]);
    }
  }

  lemma {:induction false} BeginKeeps(job: Job, suffix: string, meta: Meta, w: World, w': World)
    requires SharesTarget(job.metas, suffix) && Inv(job, suffix, w) && Begin(job, meta, w, w')
    ensures Inv(job, suffix, w')
  {
    HeaderMarks(w.disk.file, meta, Clean);
    LoadIsMarked(w'.disk.file, meta);
    BeginRun(job.sources(meta.sourceSuffix), TargetOf(w.disk, suffix), w'.phase.run);
  }

  lemma {:induction false} NextPlanCovers(source: Source, t: Target, r: Run, r': Run)
    requires Covered(source, t, r) && r.rows == [] && r.queue != []
    requires RowsOf(source, r.queue[0]) && r.done <= t.Keys
    requires r' == r.(queue := r.queue[1..], rows := DropDone(r.queue[0], r.done), considered := r'.considered)
    ensures Covered(source, t, r')
  {
    var q := r.queue[0];
    DropDoneFacts(source, q, r.done);
    forall k | k in KeysOf(q) && k !in t ensures k in KeysOf(r'.rows) {
      var row :| row in q && row.key == k;
      assert row in r'.rows;
    }
    forall k | Wanted(source, r', k) && k !in t && k !in KeysOf(r'.rows) ensures Queued(r', k) {
      assert Wanted(source, r, k);
      var p :| p in r.queue && k in KeysOf(p);
      assert p in r'.queue;
    }
  }

  lemma {:induction false} NextPlanRun(source: Source, t: Target, r: Run)
    requires RunInv(source, t, r) && r.rows == [] && r.unlogged == [] && r.queue != []
    ensures var rows := DropDone(r.queue[0], r.done);
            RunInv(source, t, r.(queue := r.queue[1..], rows := rows, considered := r.considered + |rows|))
  {
    var q := r.queue[0];
    assert q in r.queue;
    DropDoneFacts(source, q, r.done);
    var rows := DropDone(q, r.done);
    var r' := r.(queue := r.queue[1..], rows := rows, considered := r.considered + |rows|);
    assert forall p :: p in r'.queue ==> p in r.queue;
    forall row | row in rows ensures row.key !in t { assert row.key in KeysOf(q); }
    if r.failed == 0 {
      NextPlanCovers(source, t, r, r');
    }
  }

  lemma {:induction false} CoverageKept(source: Source, t: Target, r: Run, t': Target, r': Run)
    requires Covered(source, t, r)
    requires r'.kinds == r.kinds && r'.workspaces == r.workspaces && r'.queue == r.queue
    requires t.Keys + KeysOf(r.rows) <= t'.Keys + KeysOf(r'.rows)
    ensures Covered(source, t', r')
  {
    forall k | Wanted(source, r', k) && k !in t' && k !in KeysOf(r'.rows) ensures Queued(r', k) {
      assert Wanted(source, r, k);
      assert Queued(r, k);
    }
  }

  lemma {:induction false} CommitRun(source: Source, t: Target, r: Run, t': Target, n: nat)
    requires RunInv(source, t, r) && r.unlogged == [] && n <= |r.rows|
    requires t'.Keys == t.Keys + KeysOf(r.rows[..n])
    ensures RunInv(source, t', r.(rows := r.rows[n..], unlogged := RowKeys(r.rows[..n])))
  {
    var r' := r.(rows := r.rows[n..], unlogged := RowKeys(r.rows[..n]));
    SplitRows(source, r.rows, n);
    if r.failed == 0 {
      CoverageKept(source, t, r, t', r');
    }
  }

  lemma {:induction false} CommitGrows(job: Job, suffix: string, w: World, w': World, n: nat, vecs: seq<Vec>)
    requires SharesTarget(job.metas, suffix) && Inv(job, suffix, w) && Commit(job, w, w', n, vecs)
    ensures Grows(TargetOf(w.disk, suffix), TargetOf(w'.disk, suffix))
  {
    var r := w.phase.run;
    SplitRows(job.sources(r.meta.sourceSuffix), r.rows, n);
    UpsertGrows(TargetOf(w.disk, suffix), r.rows[..n], vecs);
  }

  lemma {:induction false} CommitSourced(job: Job, suffix: string, w: World, w': World, n: nat, vecs: seq<Vec>)
    requires Exact(job) && SharesTarget(job.metas, suffix) && Inv(job, suffix, w) && Commit(job, w, w', n, vecs)
    requires Sourced(job.sources, TargetOf(w.disk, suffix))
    ensures Sourced(job.sources, TargetOf(w'.disk, suffix))
  {
    var r := w.phase.run;
    SplitRows(job.sources(r.meta.sourceSuffix), r.rows, n);
    UpsertFaithful(job, r.meta.sourceSuffix, TargetOf(w.disk, suffix), r.rows[..n], vecs);
  }

  lemma {:induction false} CommitKeeps(job: Job, suffix: string, w: World, w': World, n: nat, vecs: seq<Vec>)
    requires Enough(job) && SharesTarget(job.metas, suffix) && Inv(job, suffix, w) && Commit(job, w, w', n, vecs)
    ensures Inv(job, suffix, w')
  {
    var r := w.phase.run;
    SplitRows(job.sources(r.meta.sourceSuffix), r.rows, n);
    UpsertKeys(TargetOf(w.disk, suffix), r.rows[..n], vecs);
    CommitRun(job.sources(r.meta.sourceSuffix), TargetOf(w.disk, suffix), r, TargetOf(w'.disk, suffix), n);
  }

  lemma {:induction false} LogKeeps(job: Job, suffix: string, w: World, w': World)
    requires Inv(job, suffix, w) && Log(w, w')
    ensures Inv(job, suffix, w')
  {
    var r, r', t := w.phase.run, w'.phase.run, TargetOf(w.disk, suffix);
    AppendMarks(w.disk.file, r.unlogged);
    if r.failed == 0 {
      CoverageKept(job.sources(r.meta.sourceSuffix), t, r, t, r');
    }
  }

  lemma {:induction false} FailKeeps(job: Job, suffix: string, w: World, w': World, n: nat)
    requires Inv(job, suffix, w) && FailBatch(w, w', n)
    ensures Inv(job, suffix, w')
  {
    SplitRows(job.sources(w.phase.run.meta.sourceSuffix), w.phase.run.rows, n);
  }

  lemma {:induction false} FinishKeeps(job: Job, suffix: string, w: World, w': World)
    requires Inv(job, suffix, w) && Finish(w, w')
    ensures Inv(job, suffix, w')
  {
    var r := w.phase.run;
    if r.failed == 0 {
      forall k | Wanted(job.sources(r.meta.sourceSuffix), r, k) ensures k in TargetOf(w.disk, suffix) {
        assert !Queued(r, k);
      }
    }
  }

  lemma {:induction false} CrashKeeps(job: Job, suffix: string, w: World, w': World)
    requires Inv(job, suffix, w) && Crash(w, w')
    ensures Inv(job, suffix, w')
  {
    var unlogged := w.phase.run.unlogged;
    var n: nat, part :| n <= |unlogged| && w' == World(w.disk.(file := CutAppend(w.disk.file, DoneLines(unlogged), n, part)), Idle);
    CutAppendMarks(w.disk.file, unlogged, n, part);
  }

  lemma {:induction false} StepKeeps(job: Job, suffix: string, w: World, w': World)
    requires Enough(job) && SharesTarget(job.metas, suffix) && Inv(job, suffix, w) && Next(job, w, w')
    ensures Inv(job, suffix, w')
  {
    if w.phase.Running? {
      RunningKeeps(job, suffix, w, w');
    } else if meta :| Begin(job, meta, w, w') {
      BeginKeeps(job, suffix, meta, w, w');
    } else {
      var meta :| BeginCrash(job, meta, w, w');
      var part :| w' == World(w.disk.(file := CutAppend(w.disk.file, [Header(meta)], 0, part)), Idle);
      HeaderMarks(w.disk.file, meta, part);
    }
  }

  lemma {:induction false} RunningKeeps(job: Job, suffix: string, w: World, w': World)
    requires Enough(job) && SharesTarget(job.metas, suffix) && Inv(job, suffix, w) && Next(job, w, w') && w.phase.Running?
    ensures Inv(job, suffix, w')
  {
    if n: nat, vecs :| Commit(job, w, w', n, vecs) {
      CommitKeeps(job, suffix, w, w', n, vecs);
    } else {
      QuietKeeps(job, suffix, w, w');
    }
  }

  /** Steps of a run that leave the targets alone. */
  lemma {:induction false} QuietKeeps(job: Job, suffix: string, w: World, w': World)
    requires SharesTarget(job.metas, suffix) && Inv(job, suffix, w)
    requires || NextPlan(w, w') || Log(w, w') || (exists n: nat :: FailBatch(w, w', n))
             || Abort(w, w') || Finish(w, w') || Crash(w, w')
    ensures Inv(job, suffix, w')
  {
    if NextPlan(w, w') {
      NextPlanRun(job.sources(w.phase.run.meta.sourceSuffix), TargetOf(w.disk, suffix), w.phase.run);
    } else if Log(w, w') {
      LogKeeps(job, suffix, w, w');
    } else if n: nat :| FailBatch(w, w', n) {
      FailKeeps(job, suffix, w, w', n);
    } else if Abort(w, w') {
    } else if Finish(w, w') {
      FinishKeeps(job, suffix, w, w');
    } else {
      CrashKeeps(job, suffix, w, w');
    }
  }

  lemma {:induction false} StepGrows(job: Job, suffix: string, w: World, w': World)
    requires SharesTarget(job.metas, suffix) && Inv(job, suffix, w) && Next(job, w, w')
    ensures Grows(TargetOf(w.disk, suffix), TargetOf(w'.disk, suffix))
  {
    if n: nat, vecs :| Commit(job, w, w', n, vecs) {
      CommitGrows(job, suffix, w, w', n, vecs);
    } else {
      assert w'.disk.targets == w.disk.targets;
    }
  }

  lemma {:induction false} StepSourced(job: Job, suffix: string, w: World, w': World)
    requires Exact(job) && SharesTarget(job.metas, suffix) && Inv(job, suffix, w) && Next(job, w, w')
    requires Sourced(job.sources, TargetOf(w.disk, suffix))
    ensures Sourced(job.sources, TargetOf(w'.disk, suffix))
  {
    if n: nat, vecs :| Commit(job, w, w', n, vecs) {
      CommitSourced(job, suffix, w, w', n, vecs);
    } else {
      assert w'.disk.targets == w.disk.targets;
    }
  }

  lemma {:induction false} GrowsTransitive(a: Target, b: Target, c: Target)
    requires Grows(a, b) && Grows(b, c)
    ensures Grows(a, c)
  {
  }

  // ---------------------------------------------------------------- over whole histories

  lemma {:induction false} TraceInv(job: Job, suffix: string, trace: seq<World>, i: nat)
    requires Enough(job) && SharesTarget(job.metas, suffix)
    requires IsTrace(job, trace) && Inv(job, suffix, trace[0]) && i < |trace|
    ensures Inv(job, suffix, trace[i])
  {
    if i > 0 {
      TraceInv(job, suffix, trace, i - 1);
      StepKeeps(job, suffix, trace[i - 1], trace[i]);
    }
  }

  lemma {:induction false} GrowsAlong(ts: seq<Target>, i: nat, j: nat)
    requires i <= j < |ts|
    requires forall k :: 0 < k < |ts| ==> Grows(ts[k - 1], ts[k])
    ensures Grows(ts[i], ts[j])
  {
    if i < j {
      GrowsAlong(ts, i, j - 1);
      GrowsTransitive(ts[i], ts[j - 1], ts[j]);
    }
  }

  lemma {:induction false} TraceStepGrows(job: Job, suffix: string, trace: seq<World>, k: nat)
    requires Enough(job) && SharesTarget(job.metas, suffix)
    requires IsTrace(job, trace) && Inv(job, suffix, trace[0]) && 0 < k < |trace|
    ensures Grows(TargetOf(trace[k - 1].disk, suffix), TargetOf(trace[k].disk, suffix))
  {
    TraceInv(job, suffix, trace, k - 1);
    StepGrows(job, suffix, trace[k - 1], trace[k]);
  }

  lemma {:induction false} TraceGrows(job: Job, suffix: string, trace: seq<World>, i: nat, j: nat)
    requires Enough(job) && SharesTarget(job.metas, suffix)
    requires IsTrace(job, trace) && Inv(job, suffix, trace[0]) && i <= j < |trace|
    ensures Grows(TargetOf(trace[i].disk, suffix), TargetOf(trace[j].disk, suffix))
  {
    var ts := seq(|trace|, k requires 0 <= k < |trace| => TargetOf(trace[k].disk, suffix));
    forall k | 0 < k < |ts| ensures Grows(ts[k - 1], ts[k]) {
      TraceStepGrows(job, suffix, trace, k);
    }
    GrowsAlong(ts, i, j);
  }

  lemma {:induction false} TraceSourced(job: Job, suffix: string, trace: seq<World>, i: nat)
    requires Enough(job) && Exact(job) && SharesTarget(job.metas, suffix)
    requires IsTrace(job, trace) && Inv(job, suffix, trace[0]) && i < |trace|
    requires Sourced(job.sources, TargetOf(trace[0].disk, suffix))
    ensures Sourced(job.sources, TargetOf(trace[i].disk, suffix))
  {
    if i > 0 {
      var k := i - 1;
      TraceInv(job, suffix, trace, k);
      TraceSourced(job, suffix, trace, k);
      var w, w' := trace[k], trace[k + 1];
      StepSourced(job, suffix, w, w');
    }
  }

  /** Where every history starts: nothing checkpointed, whatever the targets already hold is sourced. */
  ghost predicate Initial(job: Job, w: World) {
    Fresh(w.disk.file) && w.phase == Idle && forall suffix :: Sourced(job.sources, TargetOf(w.disk, suffix))
  }

  /**
   Over any sequence of runs into the tables of one suffix, each cut at any step,
   with at least one vector coming back per text: the target only grows, every
   checkpointed key is in it, a run accounts for every row it considered, and a
   run that ends with no failure has embedded every non-blank row in its scope.
   With just the right vectors coming back, every stored one is its own row's.
   */
  lemma {:induction false} NoRowIsLost(job: Job, suffix: string, trace: seq<World>, i: nat, j: nat)
    requires Enough(job) && SharesTarget(job.metas, suffix)
    requires IsTrace(job, trace) && Initial(job, trace[0]) && i <= j < |trace|
    ensures Grows(TargetOf(trace[i].disk, suffix), TargetOf(trace[j].disk, suffix))
    ensures Marked(trace[j].disk.file) <= TargetOf(trace[j].disk, suffix).Keys
    ensures Exact(job) ==> Sourced(job.sources, TargetOf(trace[j].disk, suffix))
    ensures trace[j].phase.Finished? || trace[j].phase.Aborted? ==>
              trace[j].phase.run.considered == trace[j].phase.run.updated + trace[j].phase.run.failed
    ensures trace[j].phase.Aborted? ==> trace[j].phase.run.failed > 0
    ensures NothingMissing(job, trace[j])
  {
    TraceInv(job, suffix, trace, j);
    TraceGrows(job, suffix, trace, i, j);
    if Exact(job) {
      TraceSourced(job, suffix, trace, j);
    }
  }

  /** A run that ended without a failure has embedded all it was asked to. */
  ghost predicate NothingMissing(job: Job, w: World) {
    w.phase.Finished? && w.phase.run.failed == 0 ==>
      var r := w.phase.run;
      forall k :: Wanted(job.sources(r.meta.sourceSuffix), r, k) ==> k in TargetOf(w.disk, r.meta.targetSuffix)
  }

  /** The checkpoint never hides a planned row: a freshly planned row is never in it. */
  lemma {:induction false} PlannedRowsAreNeverSkipped(job: Job, suffix: string, meta: Meta, w: World, w': World, i: nat)
    requires SharesTarget(job.metas, suffix) && Inv(job, suffix, w)
    requires Begin(job, meta, w, w') && i < |w'.phase.run.queue|
    ensures DropDone(w'.phase.run.queue[i], w'.phase.run.done) == w'.phase.run.queue[i]
  {
    BeginKeeps(job, suffix, meta, w, w');
    var r := w'.phase.run;
    assert IsPlan(job.sources(meta.sourceSuffix), TargetOf(w.disk, suffix), r.kinds[i], r.workspaces, r.queue[i]);
    NothingDropped(r.queue[i], r.done);
  }

  lemma {:induction false} NothingDropped(rows: seq<Row>, done: set<Key>)
    requires KeysOf(rows) !! done
    ensures DropDone(rows, done) == rows
  {
    if rows != [] {
      assert rows[0] in rows && rows[0].key in KeysOf(rows);
      assert KeysOf(rows[1..]) <= KeysOf(rows);
      NothingDropped(rows[1..], done);
    }
  }
}
