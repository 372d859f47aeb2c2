/**
 What the re-embedding job embeds and what its checkpoint says
 (scripts/reembed_embeddings.py), said without the functions that decide it.
 */
module ReembedMeaning {
  import opened Common
  import opened ReembedModel
  import opened ReembedRuns

  // ---------------------------------------------------------------- which rows

  /** A row there is something to embed of, of this run's kinds and workspaces: a text that is not just spaces. */
  ghost predicate ToEmbed(source: Source, r: Run, k: Key, text: string) {
    && k in source && source[k] == Some(text)
    && (exists i :: 0 <= i < |text| && text[i] != ' ')
    && k.kind in r.kinds && (r.workspaces == None || k.workspace in r.workspaces.value)
  }

  /** A run that ends without a failure has left no such row without a vector. */
  lemma {:induction false} FinishedRunIsComplete(job: Job, suffix: string, trace: seq<World>, j: nat, k: Key, text: string)
    requires Enough(job) && SharesTarget(job.metas, suffix)
    requires IsTrace(job, trace) && Initial(job, trace[0]) && j < |trace|
    requires trace[j].phase.Finished? && trace[j].phase.run.failed == 0
    requires ToEmbed(job.sources(trace[j].phase.run.meta.sourceSuffix), trace[j].phase.run, k, text)
    ensures k in TargetOf(trace[j].disk, trace[j].phase.run.meta.targetSuffix)
  {
    NoRowIsLost(job, suffix, trace, j, j);
    assert Wanted(job.sources(trace[j].phase.run.meta.sourceSuffix), trace[j].phase.run, k);
  }

  /** Rows a run still holds are to be embedded. */
  ghost predicate HoldsOnlyWanted(job: Job, w: World) {
    w.phase.Running? ==>
      var r := w.phase.run;
      && (forall x :: x in r.rows ==> ToEmbed(job.sources(r.meta.sourceSuffix), r, x.key, x.text))
      && forall q, x :: q in r.queue && x in q ==> ToEmbed(job.sources(r.meta.sourceSuffix), r, x.key, x.text)
  }

  lemma {:induction false} PlannedIsWanted(source: Source, target: Target, r: Run, i: nat, x: Row)
    requires i < |r.kinds| && i < |r.queue| && IsPlan(source, target, r.kinds[i], r.workspaces, r.queue[i])
    requires x in r.queue[i]
    ensures ToEmbed(source, r, x.key, x.text)
  {
    assert x.key in KeysOf(r.queue[i]);
  }

  lemma {:induction false} BeginHoldsOnlyWanted(job: Job, meta: Meta, w: World, w': World)
    requires Begin(job, meta, w, w')
    ensures HoldsOnlyWanted(job, w')
  {
    var r := w'.phase.run;
    var source := job.sources(meta.sourceSuffix);
    forall q, x | q in r.queue && x in q ensures ToEmbed(source, r, x.key, x.text) {
      var i :| 0 <= i < |r.queue| && r.queue[i] == q;
      PlannedIsWanted(source, TargetOf(w.disk, meta.targetSuffix), r, i, x);
    }
  }

  lemma {:induction false} DropDoneKeeps(rows: seq<Row>, done: set<Key>)
    ensures forall x :: x in DropDone(rows, done) <==> x in rows && x.key !in done
  {
    if rows != [] {
      DropDoneKeeps(rows[1..], done);
      assert rows == [rows[0]] + rows[1..];
    }
  }

  lemma {:induction false} StepHoldsOnlyWanted(job: Job, w: World, w': World)
    requires HoldsOnlyWanted(job, w) && Next(job, w, w')
    ensures HoldsOnlyWanted(job, w')
  {
    if w'.phase.Running? {
      if NextPlan(w, w') {
        DropDoneKeeps(w.phase.run.queue[0], w.phase.run.done);
      } else if meta :| Begin(job, meta, w, w') {
        BeginHoldsOnlyWanted(job, meta, w, w');
      }
    }
  }

  /** A batch adds nothing but its own rows. */
  lemma {:induction false} UpsertAddsRows(t: Target, batch: seq<Row>, vecs: seq<Vec>, k: Key)
    requires k in Upsert(t, batch, vecs) && k !in t
    ensures exists x :: x in batch && x.key == k && Upsert(t, batch, vecs)[k].text in TextsOf(batch, k)
    decreases |batch|
  {
    var t1 := t[batch[0].key := Entry(batch[0].text, vecs[0])];
    assert batch[0] in batch;
    if k != batch[0].key {
      UpsertAddsRows(t1, batch[1..], vecs[1..], k);
      var x :| x in batch[1..] && x.key == k && Upsert(t, batch, vecs)[k].text in TextsOf(batch[1..], k);
      assert x in batch;
    } else {
      UpsertKeepsText(t1, batch[1..], vecs[1..], k);
    }
  }

  /** The texts the rows of this key have. */
  function TextsOf(batch: seq<Row>, k: Key): set<string> {
    set x | x in batch && x.key == k :: x.text
  }

  lemma {:induction false} UpsertKeepsText(t: Target, batch: seq<Row>, vecs: seq<Vec>, k: Key)
    requires k in t
    ensures k in Upsert(t, batch, vecs)
    ensures Upsert(t, batch, vecs)[k].text == t[k].text || Upsert(t, batch, vecs)[k].text in TextsOf(batch, k)
    decreases |batch|
  {
    if batch != [] && vecs != [] {
      var t1 := t[batch[0].key := Entry(batch[0].text, vecs[0])];
      assert batch[0] in batch;
      UpsertKeepsText(t1, batch[1..], vecs[1..], k);
    }
  }

  /**
   In every history, what a step adds to the tables of some suffix is the row of a
   text that the run was to embed, and that run writes to that suffix.
   */
  lemma {:induction false} OnlyWantedIsAdded(job: Job, w: World, w': World, suffix: string, k: Key)
    requires HoldsOnlyWanted(job, w) && Next(job, w, w')
    requires k in TargetOf(w'.disk, suffix) && k !in TargetOf(w.disk, suffix)
    ensures w.phase.Running? && w.phase.run.meta.targetSuffix == suffix
    ensures ToEmbed(job.sources(w.phase.run.meta.sourceSuffix), w.phase.run, k, TargetOf(w'.disk, suffix)[k].text)
  {
    var n, vecs := OnlyCommitsAdd(job, w, w');
    var batch := w.phase.run.rows[..n];
    UpsertAddsRows(TargetOf(w.disk, suffix), batch, vecs, k);
    var text := TargetOf(w'.disk, suffix)[k].text;
    var x :| x in batch && x.key == k && x.text == text;
    assert x in w.phase.run.rows;
  }

  lemma {:induction false} OnlyCommitsAdd(job: Job, w: World, w': World) returns (n: nat, vecs: seq<Vec>)
    requires Next(job, w, w') && w'.disk.targets != w.disk.targets
    ensures Commit(job, w, w', n, vecs)
  {
    n, vecs :| Commit(job, w, w', n, vecs);
  }

  lemma {:induction false} TraceHoldsOnlyWanted(job: Job, trace: seq<World>, i: nat)
    requires IsTrace(job, trace) && Initial(job, trace[0]) && i < |trace|
    ensures HoldsOnlyWanted(job, trace[i])
  {
    if i > 0 {
      var k := i - 1;
      TraceHoldsOnlyWanted(job, trace, k);
      StepHoldsOnlyWanted(job, trace[k], trace[k + 1]);
    }
  }

  // ---------------------------------------------------------------- the checkpoint

  /** The records of a file, a last one without its line end among them. */
  function Records(f: File): seq<Line> {
    f.lines + if f.tail.Unterminated? then [f.tail.line] else []
  }

  /** The last header before record `i` is record `h`, of the same model, dimension and target tables. */
  ghost predicate UnderHeader(ls: seq<Line>, meta: Meta, h: nat, i: nat) {
    && h < i <= |ls| && ls[h].Header?
    && ls[h].meta.model == meta.model && ls[h].meta.dim == meta.dim && ls[h].meta.targetSuffix == meta.targetSuffix
    && forall m :: h < m < i ==> !ls[m].Header?
  }

  ghost predicate Headed(ls: seq<Line>, meta: Meta, i: nat) {
    exists h: nat :: UnderHeader(ls, meta, h, i)
  }

  ghost predicate DoneUnder(ls: seq<Line>, meta: Meta, k: Key) {
    exists i: nat, h: nat :: i < |ls| && ls[i] == Done(k) && UnderHeader(ls, meta, h, i)
  }

  lemma {:induction false} UnderInFront(ls: seq<Line>, meta: Meta, h: nat, i: nat)
    requires ls != [] && i < |ls|
    ensures UnderHeader(ls[..|ls| - 1], meta, h, i) <==> UnderHeader(ls, meta, h, i)
  {
    var front := ls[..|ls| - 1];
    assert forall m :: 0 <= m < |front| ==> front[m] == ls[m];
  }

  lemma {:induction false} LoadLinesExactly(ls: seq<Line>, meta: Meta)
    ensures LoadLines(ls, meta).reused <==> Headed(ls, meta, |ls|)
    ensures forall k :: k in LoadLines(ls, meta).done <==> DoneUnder(ls, meta, k)
  {
    if ls != [] {
      var n := |ls| - 1;
      var front, last := ls[..n], ls[n];
      LoadLinesExactly(front, meta);
      forall h: nat, i: nat | i <= n ensures UnderHeader(front, meta, h, i) <==> UnderHeader(ls, meta, h, i) {
        UnderInFront(ls, meta, h, i);
      }
      HeaderAtEnd(ls, meta);
      forall k ensures k in LoadLines(ls, meta).done <==> DoneUnder(ls, meta, k) {
        LastRecord(ls, meta, k);
      }
    }
  }

  lemma {:induction false} HeaderAtEnd(ls: seq<Line>, meta: Meta)
    requires ls != []
    ensures var last := ls[|ls| - 1];
            Headed(ls, meta, |ls|) <==> if last.Header? then SameSpace(last.meta, meta) else Headed(ls, meta, |ls| - 1)
  {
    var n := |ls| - 1;
    if ls[n].Header? {
      if SameSpace(ls[n].meta, meta) {
        assert UnderHeader(ls, meta, n, |ls|);
      }
    } else {
      forall h: nat ensures UnderHeader(ls, meta, h, |ls|) <==> UnderHeader(ls, meta, h, n) {
      }
    }
  }

  lemma {:induction false} LastRecord(ls: seq<Line>, meta: Meta, k: Key)
    requires ls != []
    ensures var front, n := ls[..|ls| - 1], |ls| - 1;
            DoneUnder(ls, meta, k) <==>
            DoneUnder(front, meta, k) || (ls[n] == Done(k) && exists h: nat :: UnderHeader(front, meta, h, n))
  {
    var front, n := ls[..|ls| - 1], |ls| - 1;
    if i: nat, h: nat :| i < |ls| && ls[i] == Done(k) && UnderHeader(ls, meta, h, i) {
      UnderInFront(ls, meta, h, i);
      if i < n { assert front[i] == Done(k); }
    }
    if DoneUnder(front, meta, k) {
      var i: nat, h: nat :| i < |front| && front[i] == Done(k) && UnderHeader(front, meta, h, i);
      UnderInFront(ls, meta, h, i);
      assert ls[i] == Done(k);
    }
    if ls[n] == Done(k) && exists h: nat :: UnderHeader(front, meta, h, n) {
      var h: nat :| UnderHeader(front, meta, h, n);
      UnderInFront(ls, meta, h, n);
    }
  }

  /**
   A checkpoint counts a key as done exactly when a record says so below a header of
   the same model, dimension and target tables, with no other header in between.
   */
  lemma {:induction false} LoadExactlyWhen(f: File, meta: Meta, k: Key)
    ensures k in Load(f, meta) <==> DoneUnder(Records(f), meta, k)
  {
    var ls := Records(f);
    LoadLinesExactly(ls, meta);
    if f.tail.Unterminated? {
      assert ls[..|ls| - 1] == f.lines;
    } else {
      assert ls == f.lines;
    }
  }

  /**
   What a checkpoint file marks after keys were appended: all of them, if the file
   ended in a line end; else the first is lost in the broken line, and with it a
   last record that had no line end.
   */
  lemma {:induction false} AppendMarksExactly(f: File, keys: seq<Key>)
    requires keys != []
    ensures var kept := if f.tail == Clean then keys else keys[1..];
            Marked(Append(f, DoneLines(keys))) == (set l | l in f.lines && l.Done? :: l.key) + (set k | k in kept)
  {
    var lines := DoneLines(keys);
    var kept := if f.tail == Clean then keys else keys[1..];
    DoneLinesMark(kept);
    assert lines[1..] == DoneLines(keys[1..]);
    assert Append(f, lines).lines == f.lines + (if f.tail == Clean then [] else [Garbage]) + DoneLines(kept);
    forall k ensures k in kept <==> Done(k) in DoneLines(kept) {
    }
  }

  /**
   What a crash leaves of an append to a whole file: some of the keys, and behind
   them nothing, a part of the next record, or all of it but its line end.
   */
  lemma {:induction false} CutLeavesExactly(f: File, keys: seq<Key>, n: nat, part: Tail)
    requires f.tail == Clean && n <= |keys|
    ensures var g := CutAppend(f, DoneLines(keys), n, part);
            && g.lines == f.lines + DoneLines(keys[..n])
            && g.tail == if n == |keys| then Clean else match part
                         case Clean => Clean
                         case Torn => Torn
                         case Unterminated(_) => Unterminated(Done(keys[n]))
  {
    assert DoneLines(keys)[..n] == DoneLines(keys[..n]);
    assert n == 0 ==> f.lines + DoneLines(keys[..n]) == f.lines;
  }
}
