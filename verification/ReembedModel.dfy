/**
 The re-embedding job (scripts/reembed_embeddings.py) as durable state plus
 steps: what is on disk (target table, checkpoint file), what a run holds in
 memory, and every step it can take, a crash included.
 */
module ReembedModel {
  import opened Common

  // ---------------------------------------------------------------- rows and vectors

  datatype Kind = Chunks | Entities | Relations

  datatype Key = Key(kind: Kind, workspace: string, id: string)

  /** One set of old-model tables: text by key, None for NULL. */
  type Source = map<Key, Option<string>>

  datatype Row = Row(key: Key, text: string)

  /** A vector, tagged with the text it was computed from. */
  datatype Vec = Vec(of: string, payload: int)

  datatype Entry = Entry(text: string, vec: Vec)

  type Target = map<Key, Entry>

  /** `btrim(content) = ''` */
  predicate Blank(text: string) {
    forall i :: 0 <= i < |text| ==> text[i] == ' '
  }

  /** The source text of a key a run has to embed. */
  predicate Embeddable(source: Source, key: Key) {
    key in source && source[key].Some? && !Blank(source[key].value)
  }

  /** `None` means all workspaces. */
  predicate InScope(key: Key, workspaces: Option<set<string>>) {
    workspaces.None? || key.workspace in workspaces.value
  }

  function KeysOf(rows: seq<Row>): set<Key> {
    set r | r in rows :: r.key
  }

  // ---------------------------------------------------------------- checkpoint file

  datatype Meta = Meta(model: string, dim: nat, sourceSuffix: string, targetSuffix: string)

  datatype Line = Header(meta: Meta) | Done(key: Key) | Garbage

  /** What follows the last line end: nothing, unreadable text, or a whole record without its line end. */
  datatype Tail = Clean | Torn | Unterminated(line: Line)

  datatype File = File(lines: seq<Line>, tail: Tail)

  predicate Fresh(f: File) { f.lines == [] && f.tail == Clean }

  /** The source suffix is not compared. */
  predicate SameSpace(a: Meta, b: Meta) {
    a.model == b.model && a.dim == b.dim && a.targetSuffix == b.targetSuffix
  }

  datatype Loaded = Loaded(done: set<Key>, reused: bool)

  function LoadLine(s: Loaded, line: Line, meta: Meta): Loaded {
    match line
    case Header(m) => s.(reused := SameSpace(m, meta))
    case Done(k) => if s.reused then s.(done := s.done + {k}) else s
    case Garbage => s
  }

  function LoadLines(lines: seq<Line>, meta: Meta): Loaded {
    if lines == [] then Loaded({}, false)
    else LoadLine(LoadLines(lines[..|lines| - 1], meta), lines[|lines| - 1], meta)
  }

  /** `Checkpoint._load` */
  function Load(f: File, meta: Meta): set<Key> {
    var s := LoadLines(f.lines, meta);
    if f.tail.Unterminated? then LoadLine(s, f.tail.line, meta).done else s.done
  }

  /** Appending whole lines; the first one is glued to whatever an earlier crash left behind. */
  function Append(f: File, lines: seq<Line>): File {
    if lines == [] then f
    else if f.tail == Clean then File(f.lines + lines, Clean)
    else File(f.lines + [Garbage] + lines[1..], Clean)
  }

  /** A write cut short after `n` whole lines and `part` of the next one. */
  function CutAppend(f: File, lines: seq<Line>, n: nat, part: Tail): File
    requires n <= |lines|
  {
    var g := Append(f, lines[..n]);
    if n == |lines| || part == Clean then g
    else if g.tail != Clean then g.(tail := Torn)
    else if part == Torn then g.(tail := Torn)
    else g.(tail := Unterminated(lines[n]))
  }

  function DoneLines(keys: seq<Key>): seq<Line> {
    seq(|keys|, i requires 0 <= i < |keys| => Done(keys[i]))
  }

  // ---------------------------------------------------------------- target table

  /** `executemany` over `zip(batch, vecs)`. */
  function Upsert(t: Target, batch: seq<Row>, vecs: seq<Vec>): Target
    decreases |batch|
  {
    if batch == [] || vecs == [] then t
    else Upsert(t[batch[0].key := Entry(batch[0].text, vecs[0])], batch[1..], vecs[1..])
  }

  function RowKeys(batch: seq<Row>): seq<Key> {
    seq(|batch|, i requires 0 <= i < |batch| => batch[i].key)
  }

  /** One vector per row, each computed from its own row's text. */
  predicate Faithful(batch: seq<Row>, vecs: seq<Vec>) {
    |vecs| == |batch| && forall i :: 0 <= i < |batch| ==> vecs[i].of == batch[i].text
  }

  // ---------------------------------------------------------------- runs

  datatype Run = Run(
    meta: Meta, kinds: seq<Kind>, workspaces: Option<set<string>>,
    queue: seq<seq<Row>>,      // plans not yet processed
    rows: seq<Row>,            // rows of the current plan still to embed
    unlogged: seq<Key>,        // committed but not yet in the checkpoint
    done: set<Key>,            // the in-memory checkpoint
    considered: nat, updated: nat, failed: nat)

  datatype Phase = Idle | Running(run: Run) | Finished(run: Run) | Aborted(run: Run)

  /** The target tables by suffix, and one checkpoint file. */
  datatype Disk = Disk(targets: map<string, Target>, file: File)

  datatype World = World(disk: Disk, phase: Phase)

  function TargetOf(d: Disk, suffix: string): Target {
    if suffix in d.targets then d.targets[suffix] else map[]
  }

  function Stored(d: Disk, suffix: string, t: Target): Disk {
    d.(targets := d.targets[suffix := t])
  }

  /**
   The old-model tables by suffix, the settings runs may be started with over the
   one checkpoint file, and the vectors that may come back for a batch.
   */
  datatype Job = Job(sources: string -> Source, metas: set<Meta>, replies: (seq<Row>, seq<Vec>) -> bool)

  /** What the plan query returns, in some order: source minus target, in scope, not blank. */
  ghost predicate IsPlan(source: Source, target: Target, kind: Kind, workspaces: Option<set<string>>, rows: seq<Row>) {
    && (forall i, j :: 0 <= i < j < |rows| ==> rows[i].key != rows[j].key)
    && (forall r :: r in rows ==> r.key in source && source[r.key] == Some(r.text))
    && (forall k :: k in KeysOf(rows) <==>
          Embeddable(source, k) && k.kind == kind && InScope(k, workspaces) && k !in target)
  }

  function DropDone(rows: seq<Row>, done: set<Key>): seq<Row> {
    if rows == [] then []
    else (if rows[0].key in done then [] else [rows[0]]) + DropDone(rows[1..], done)
  }

  function HeaderIfFresh(f: File, meta: Meta): File {
    if Fresh(f) then Append(f, [Header(meta)]) else f
  }

  ghost predicate Begin(job: Job, meta: Meta, w: World, w': World) {
    && meta in job.metas
    && !w.phase.Running?
    && w'.phase.Running?
    && var r := w'.phase.run;
    && w'.disk == w.disk.(file := HeaderIfFresh(w.disk.file, meta))
    && |r.queue| == |r.kinds|
    && (forall i :: 0 <= i < |r.kinds| ==>
          IsPlan(job.sources(meta.sourceSuffix), TargetOf(w.disk, meta.targetSuffix), r.kinds[i], r.workspaces, r.queue[i]))
    && r == Run(meta, r.kinds, r.workspaces, r.queue, [], [], Load(w'.disk.file, meta), 0, 0, 0)
  }

  /** A crash while the header is being written. */
  ghost predicate BeginCrash(job: Job, meta: Meta, w: World, w': World) {
    && meta in job.metas && !w.phase.Running? && Fresh(w.disk.file)
    && exists part :: w' == World(w.disk.(file := CutAppend(w.disk.file, [Header(meta)], 0, part)), Idle)
  }

  ghost predicate NextPlan(w: World, w': World) {
    && w.phase.Running? && w.phase.run.rows == [] && w.phase.run.unlogged == [] && w.phase.run.queue != []
    && var r := w.phase.run;
    var rows := DropDone(r.queue[0], r.done);
    w' == w.(phase := Running(r.(queue := r.queue[1..], rows := rows, considered := r.considered + |rows|)))
  }

  /** One batch embedded and committed in a single transaction. */
  ghost predicate Commit(job: Job, w: World, w': World, n: nat, vecs: seq<Vec>) {
    && w.phase.Running? && w.phase.run.unlogged == [] && 1 <= n <= |w.phase.run.rows|
    && var r := w.phase.run;
    && job.replies(r.rows[..n], vecs)
    && var suffix := r.meta.targetSuffix;
    w' == World(Stored(w.disk, suffix, Upsert(TargetOf(w.disk, suffix), r.rows[..n], vecs)),
                Running(r.(rows := r.rows[n..], unlogged := RowKeys(r.rows[..n]))))
  }

  /** The committed keys are appended to the checkpoint. */
  ghost predicate Log(w: World, w': World) {
    && w.phase.Running? && w.phase.run.unlogged != []
    && var r := w.phase.run;
    w' == World(w.disk.(file := Append(w.disk.file, DoneLines(r.unlogged))),
                Running(r.(unlogged := [], done := r.done + (set k | k in r.unlogged),
                           updated := r.updated + |r.unlogged|)))
  }

  ghost predicate FailBatch(w: World, w': World, n: nat) {
    && w.phase.Running? && w.phase.run.unlogged == [] && 1 <= n <= |w.phase.run.rows|
    && var r := w.phase.run;
    w' == w.(phase := Running(r.(rows := r.rows[n..], failed := r.failed + n)))
  }

  /** Too many consecutive 429s: the rest of this plan counts as failed, later plans are not started. */
  ghost predicate Abort(w: World, w': World) {
    && w.phase.Running? && w.phase.run.unlogged == [] && w.phase.run.rows != []
    && var r := w.phase.run;
    w' == w.(phase := Aborted(r.(rows := [], failed := r.failed + |r.rows|)))
  }

  ghost predicate Finish(w: World, w': World) {
    && w.phase.Running? && w.phase.run.rows == [] && w.phase.run.unlogged == [] && w.phase.run.queue == []
    && w' == w.(phase := Finished(w.phase.run))
  }

  /** The process dies; a checkpoint write in progress may be cut anywhere. */
  ghost predicate Crash(w: World, w': World) {
    && w.phase.Running?
    && exists n: nat, part ::
         n <= |w.phase.run.unlogged|
         && w' == World(w.disk.(file := CutAppend(w.disk.file, DoneLines(w.phase.run.unlogged), n, part)), Idle)
  }

  ghost predicate Next(job: Job, w: World, w': World) {
    || (exists meta :: Begin(job, meta, w, w'))
    || (exists meta :: BeginCrash(job, meta, w, w'))
    || NextPlan(w, w')
    || (exists n: nat, vecs :: Commit(job, w, w', n, vecs))
    || Log(w, w')
    || (exists n: nat :: FailBatch(w, w', n))
    || Abort(w, w')
    || Finish(w, w')
    || Crash(w, w')
  }

  ghost predicate IsTrace(job: Job, trace: seq<World>) {
    && trace != []
    && forall i :: 0 <= i < |trace| - 1 ==> Next(job, trace[i], trace[i + 1])
  }
}
