/**
 Loading a document (ingest/load.py): one transaction over the registry tables,
 then, after the commit, the LightRAG store in the document's workspace. The
 registry ids are structured here; the tables' reference rows and log lines only
 appear as statements that can raise.
 */
module IngestLoad {
  import opened Common
  import opened Filtering
  import opened FactTargets
  import Placeholder

  datatype ChunkId = ChunkId(doc: string, version: nat, index: nat)

  /** A fact; a seeded one has no chunk. */
  datatype FactRow = FactRow(doc: string, chunk: Option<ChunkId>, key: Key, fact: Fact, dates: Interval)

  datatype Tables = Tables(versions: map<string, nat>, chunks: map<ChunkId, string>, facts: seq<FactRow>)

  /** None is the shared default instance. */
  type Workspace = Option<string>

  /** A text as LightRAG gets it, before it is rendered: a section, and the references in front of it. */
  datatype Annotated = Annotated(section: string, refs: seq<Placeholder.FactRef>) {
    function Render(): string {
      Placeholder.Annotate(Placeholder.Sanitize(section), refs)
    }
  }

  /** LightRAG documents, by workspace and id. */
  type Light = map<(Workspace, ChunkId), Annotated>

  datatype State = State(tables: Tables, light: Light)

  datatype Request = Request(
    doc: string, sections: seq<string>, facts: seq<Fact>, dates: Interval, preserveSeeds: bool, status: string)

  // ---------------------------------------------------------------- refusals

  predicate KnownStatus(status: string) {
    status in {"extract_failed", "chunks_only", "facts_loaded", "review_required"}
  }

  predicate Refused(req: Request) {
    (req.preserveSeeds && req.facts != []) || !KnownStatus(req.status)
  }

  // ---------------------------------------------------------------- what a commit leaves

  function VersionOf(t: Tables, doc: string): nat {
    if doc in t.versions then t.versions[doc] else 0
  }

  function InputOf(req: Request, lower: string -> string): Input {
    Input(req.sections, req.facts, lower)
  }

  function RowOf(req: Request, version: nat, t: Target): FactRow
    requires t.fact < |req.facts|
  {
    FactRow(req.doc, Some(ChunkId(req.doc, version, t.chunk)), t.key, req.facts[t.fact], req.dates)
  }

  predicate InRange(ts: seq<Target>, req: Request) {
    forall n :: 0 <= n < |ts| ==> ts[n].fact < |req.facts| && ts[n].chunk < |req.sections|
  }

  function RowsOf(req: Request, version: nat, ts: seq<Target>): seq<FactRow>
    requires InRange(ts, req)
  {
    seq(|ts|, n requires 0 <= n < |ts| => RowOf(req, version, ts[n]))
  }

  predicate RowsClash(a: FactRow, b: FactRow) {
    Clash(a.key, a.dates, b.key, b.dates)
  }

  /** The constraint lets one more row in. */
  predicate Accepts(table: seq<FactRow>, row: FactRow) {
    Proper(row.dates) && forall n :: 0 <= n < |table| ==> !RowsClash(table[n], row)
  }

  /** And all of these, one after another. */
  predicate AcceptsAll(table: seq<FactRow>, rows: seq<FactRow>) {
    rows == [] || (AcceptsAll(table, rows[..|rows| - 1]) && Accepts(table + rows[..|rows| - 1], rows[|rows| - 1]))
  }

  lemma {:induction false} AcceptsAppend(table: seq<FactRow>, a: seq<FactRow>, b: seq<FactRow>)
    ensures AcceptsAll(table, a + b) <==> AcceptsAll(table, a) && AcceptsAll(table + a, b)
  {
    if b == [] {
      assert a + b == a;
    } else {
      var n := |b| - 1;
      AcceptsAppend(table, a, b[..n]);
      assert (a + b)[..|a| + n] == a + b[..n];
      assert table + (a + b[..n]) == (table + a) + b[..n];
    }
  }

  /** The rows the load's DELETE leaves. */
  function Kept(req: Request): FactRow -> bool {
    (r: FactRow) => !(r.doc == req.doc && (req.preserveSeeds ==> r.chunk.Some?))
  }

  function WithoutDoc(chunks: map<ChunkId, string>, doc: string): map<ChunkId, string> {
    map c | c in chunks && c.doc != doc :: chunks[c]
  }

  /** Chunk ids a document has in the registry. */
  function IdsOf(t: Tables, doc: string): set<ChunkId> {
    set c | c in t.chunks && c.doc == doc
  }

  function NewIds(req: Request, version: nat, n: nat): set<ChunkId> {
    set i | 0 <= i < n :: ChunkId(req.doc, version, i)
  }

  function NewChunks(req: Request, version: nat, n: nat): map<ChunkId, string>
    requires n <= |req.sections|
  {
    map c | c in NewIds(req, version, n) :: req.sections[c.index]
  }

  lemma {:induction false} TargetsInRange(req: Request, lower: string -> string)
    ensures InRange(Targets(InputOf(req, lower)), req)
  {
    TargetsFacts(InputOf(req, lower));
  }

  /** The facts a load stores, and where. */
  ghost function Plan(req: Request, lower: string -> string): (ts: seq<Target>)
    ensures InRange(ts, req)
  {
    TargetsInRange(req, lower);
    Targets(InputOf(req, lower))
  }

  datatype Planned = Planned(req: Request, plan: seq<Target>)

  /** A request together with where its facts go. */
  type Load = l: Planned | InRange(l.plan, l.req) witness Planned(Request("", [], [], Interval(0, Option.None), false, ""), [])

  function NewVersion(t: Tables, doc: string): nat {
    VersionOf(t, doc) + 1
  }

  /** The fact rows a load inserts. */
  function NewRows(t: Tables, ld: Load): seq<FactRow> {
    RowsOf(ld.req, NewVersion(t, ld.req.doc), ld.plan)
  }

  /** The exclusion constraint takes every row of the load, after its deletes. */
  predicate FitsTable(t: Tables, ld: Load) {
    AcceptsAll(Filter(Kept(ld.req), t.facts), NewRows(t, ld))
  }

  /** The transaction's outcome. */
  function Committed(t: Tables, ld: Load): Tables {
    var v := NewVersion(t, ld.req.doc);
    Tables(
      t.versions[ld.req.doc := v],
      WithoutDoc(t.chunks, ld.req.doc) + NewChunks(ld.req, v, |ld.req.sections|),
      Filter(Kept(ld.req), t.facts) + NewRows(t, ld))
  }

  // ---------------------------------------------------------------- what LightRAG is sent

  function RefsOf(req: Request, ts: seq<Target>): seq<Placeholder.FactRef>
    requires InRange(ts, req)
  {
    seq(|ts|, n requires 0 <= n < |ts| =>
      var f := req.facts[ts[n].fact]; Placeholder.FactRef(f.factKey, f.subject, f.policy))
  }

  function AnnotatedText(req: Request, ts: seq<Target>, i: nat): Annotated
    requires InRange(ts, req) && i < |req.sections|
  {
    OfChunkInRange(req, ts, i);
    Annotated(req.sections[i], RefsOf(req, OfChunk(ts, i)))
  }

  lemma {:induction false} OfChunkInRange(req: Request, ts: seq<Target>, i: nat)
    requires InRange(ts, req)
    ensures InRange(OfChunk(ts, i), req)
  {
    if ts != [] {
      OfChunkInRange(req, ts[..|ts| - 1], i);
    }
  }

  /** `ainsert_texts` */
  function Texts(req: Request, ts: seq<Target>): (r: seq<Annotated>)
    requires InRange(ts, req)
    ensures |r| == |req.sections|
  {
    seq(|req.sections|, i requires 0 <= i < |req.sections| => AnnotatedText(req, ts, i))
  }

  function Sent(req: Request, texts: seq<Annotated>, version: nat, w: Workspace): Light {
    map c | c in NewIds(req, version, |texts|) :: (w, c) := texts[c.index]
  }

  function Drop(light: Light, w: Workspace, ids: set<ChunkId>): Light {
    map k | k in light && !(k.0 == w && k.1 in ids) :: light[k]
  }

  function SentBy(t: Tables, ld: Load, w: Workspace): Light {
    Sent(ld.req, Texts(ld.req, ld.plan), NewVersion(t, ld.req.doc), w)
  }

  /** The post-commit step, all its calls having succeeded. */
  function Published(s: State, ld: Load, w: Workspace): Light {
    Drop(s.light, w, if NewVersion(s.tables, ld.req.doc) > 1 then IdsOf(s.tables, ld.req.doc) else {})
    + SentBy(s.tables, ld, w)
  }

  /** One of its calls having raised: some old ids gone, some new ones there, nothing else touched. */
  ghost predicate CutShort(before: Light, after: Light, w: Workspace, outgoing: set<ChunkId>, sent: Light) {
    && (forall k :: k in after ==> (k in sent && after[k] == sent[k]) || (k in before && after[k] == before[k]))
    && (forall k :: k in before && k !in after ==> k.0 == w && k.1 in outgoing)
  }

  // ---------------------------------------------------------------- steps

  datatype Outcome = Refusal | RolledBack | Done(published: bool)

  /** A load, the workspace its project resolves to (None if that raises), and how it ended. */
  datatype Event = Event(load: Load, workspace: Option<Workspace>, outcome: Outcome)

  ghost predicate Step(s: State, e: Event, s': State) {
    && (e.outcome.Refusal? <==> Refused(e.load.req))
    && match e.outcome
       case Refusal => s' == s
       case RolledBack => s' == s
       case Done(published) =>
         && FitsTable(s.tables, e.load)
         && s'.tables == Committed(s.tables, e.load)
         && if e.workspace.None? then !published && s'.light == s.light
            else if published then s'.light == Published(s, e.load, e.workspace.value)
            else CutShort(s.light, s'.light, e.workspace.value, IdsOf(s.tables, e.load.req.doc),
                          SentBy(s.tables, e.load, e.workspace.value))
  }

  datatype LoadResult = LoadResult(version: nat, chunkCount: nat, factCount: nat, published: bool)

  datatype LoadError = ValueError | LoadError

  function OutcomeOf(r: Result<LoadResult, LoadError>): Outcome {
    match r
    case Ok(l) => Done(l.published)
    case Err(ValueError) => Refusal
    case Err(LoadError) => RolledBack
  }

  /** Database statements of one load: four, one a chunk, three a fact, and the log line. */
  ghost function Statements(req: Request, lower: string -> string): nat {
    4 + |req.sections| + 3 * |Plan(req, lower)| + 1
  }

  /** LightRAG calls of one load: a delete for each old id, and the insert. */
  ghost function Calls(t: Tables, req: Request): nat {
    (if VersionOf(t, req.doc) > 0 then |IdsOf(t, req.doc)| else 0) + 1
  }

  predicate Raises(failAt: Option<nat>, n: nat) { failAt == Some(n) }

  predicate NotYet(failAt: Option<nat>, n: nat) { failAt.Some? ==> failAt.value >= n }

  class Registry {
    const lower: string -> string
    var tables: Tables
    var light: Light

    constructor (lower: string -> string)
      ensures this.lower == lower && tables == Tables(map[], map[], []) && light == map[]
    {
      this.lower := lower;
      tables := Tables(map[], map[], []);
      light := map[];
    }

    function Current(): State
      reads this
    {
      State(tables, light)
    }

    /**
     `load_document`. `failAt` names the statement that raises, `callFailAt` the
     LightRAG call that does, `stored` what a failing insert had stored.
     */
    method LoadDocument(req: Request, workspace: Option<Workspace>, failAt: Option<nat>, callFailAt: Option<nat>, stored: set<nat>)
      returns (r: Result<LoadResult, LoadError>)
      modifies this
      ensures Step(old(Current()), Event(Planned(req, Plan(req, lower)), workspace, OutcomeOf(r)), Current())
      ensures r == Err(LoadError) <==>
                !Refused(req) && !(NotYet(failAt, Statements(req, lower)) && FitsTable(old(tables), Planned(req, Plan(req, lower))))
      ensures r.Ok? ==>
                && r.value.version == VersionOf(tables, req.doc) && r.value.chunkCount == |req.sections|
                && r.value.factCount == |Plan(req, lower)|
                && (r.value.published <==> workspace.Some? && NotYet(callFailAt, Calls(old(tables), req)))
    {
      if req.preserveSeeds && req.facts != [] {
        return Err(ValueError);
      }
      if !KnownStatus(req.status) {
        return Err(ValueError);
      }
      var oldIds := IdsOf(tables, req.doc);
      var done, tx, targets := Transact(req, failAt);
      if !done {
        return Err(LoadError);
      }
      tables := tx;
      var published := false;
      if workspace.Some? {
        published := Publish(req, workspace.value, oldIds, VersionOf(tx, req.doc), Texts(req, targets), callFailAt, stored);
      }
      r := Ok(LoadResult(VersionOf(tx, req.doc), |req.sections|, |targets|, published));
    }

    /** The transaction: `tx` is what it would commit. */
    method Transact(req: Request, failAt: Option<nat>) returns (done: bool, tx: Tables, targets: seq<Target>)
      ensures done <==> NotYet(failAt, Statements(req, lower)) && FitsTable(tables, Planned(req, Plan(req, lower)))
      ensures done ==> targets == Plan(req, lower) && tx == Committed(tables, Planned(req, targets))
      ensures done ==> VersionOf(tx, req.doc) == VersionOf(tables, req.doc) + 1
    {
      TargetsInRange(req, lower);
      tx, done, targets := tables, false, [];
      if Raises(failAt, 0) { return; }
      var version := VersionOf(tx, req.doc) + 1;
      tx := tx.(versions := tx.versions[req.doc := version]);
      if Raises(failAt, 1) { return; }
      if Raises(failAt, 2) { return; }
      tx := tx.(facts := Filter(Kept(req), tx.facts));
      if Raises(failAt, 3) { return; }
      tx := tx.(chunks := WithoutDoc(tx.chunks, req.doc));
      targets := AssignFacts(InputOf(req, lower));
      RowsAreTargets(InputOf(req, lower));
      var n;
      done, tx, n := InsertChunks(tx, req, version, targets, failAt, 4);
      if !done { return; }
      done := false;
      for m := 0 to |targets|
        invariant NotYet(failAt, n + m)
      {
        if Raises(failAt, n + m) { return; }
      }
      if Raises(failAt, n + |targets|) { return; }
      done := true;
    }

    /** Every chunk, each followed by its facts. */
    method InsertChunks(tables: Tables, req: Request, version: nat, targets: seq<Target>, failAt: Option<nat>, first: nat)
      returns (ok: bool, tx: Tables, n: nat)
      requires InRange(targets, req) && ByChunk(targets, |req.sections|) == targets
      requires NotYet(failAt, first)
      ensures ok <==> NotYet(failAt, first + |req.sections| + 2 * |targets|)
                      && AcceptsAll(tables.facts, RowsOf(req, version, targets))
      ensures ok ==> n == first + |req.sections| + 2 * |targets|
      ensures ok ==> Inserted(tables, tx, req, version, targets, |req.sections|)
    {
      var chunkFacts := GroupByChunk(targets);
      tx, n, ok := tables, first, false;
      InsertedNone(tables, req, version, targets);
      for i := 0 to |req.sections|
        invariant Inserted(tables, tx, req, version, targets, i)
        invariant n == first + i + 2 * |ByChunk(targets, i)| && NotYet(failAt, n)
        invariant AcceptsAll(tables.facts, RowsOf(req, version, ByChunk(targets, i)))
      {
        ghost var before := tx;
        OfChunkInRange(req, targets, i);
        ByChunkPrefix(targets, i, |req.sections|);
        AcceptedSoFar(tables.facts, req, version, targets, i);
        ok, tx, n := InsertChunk(tx, req, version, i, FactsAt(chunkFacts, i), failAt, n);
        if !ok { return; }
        InsertedOneMore(tables, before, req, version, targets, i);
      }
      ok := true;
    }

    method InsertChunk(before: Tables, req: Request, version: nat, i: nat, here: seq<Target>, failAt: Option<nat>, first: nat)
      returns (ok: bool, tx: Tables, n: nat)
      requires i < |req.sections| && InRange(here, req) && NotYet(failAt, first)
      ensures ok <==> NotYet(failAt, first + 1 + 2 * |here|) && AcceptsAll(before.facts, RowsOf(req, version, here))
      ensures ok ==> n == first + 1 + 2 * |here|
      ensures ok ==> tx == Tables(before.versions, before.chunks[ChunkId(req.doc, version, i) := req.sections[i]],
                                  before.facts + RowsOf(req, version, here))
    {
      tx, n, ok := before, first, false;
      if Raises(failAt, n) { return; }
      tx := tx.(chunks := tx.chunks[ChunkId(req.doc, version, i) := req.sections[i]]);
      var facts;
      ok, facts, n := InsertFacts(tx.facts, req, version, here, failAt, n + 1);
      tx := tx.(facts := facts);
    }

    /** The facts of one chunk: two statements each. */
    method InsertFacts(table: seq<FactRow>, req: Request, version: nat, here: seq<Target>, failAt: Option<nat>, first: nat)
      returns (ok: bool, facts: seq<FactRow>, n: nat)
      requires InRange(here, req) && NotYet(failAt, first)
      ensures ok <==> NotYet(failAt, first + 2 * |here|) && AcceptsAll(table, RowsOf(req, version, here))
      ensures ok ==> n == first + 2 * |here| && facts == table + RowsOf(req, version, here)
    {
      facts, n := table, first;
      for m := 0 to |here|
        invariant n == first + 2 * m && NotYet(failAt, n)
        invariant facts == table + RowsOf(req, version, here[..m])
        invariant AcceptsAll(table, RowsOf(req, version, here[..m]))
      {
        AcceptedRow(table, req, version, here, m);
        if Raises(failAt, n) || Raises(failAt, n + 1) || !Accepts(facts, RowOf(req, version, here[m])) {
          return false, facts, n;
        }
        RowAdded(req, version, here, m, table);
        facts := facts + [RowOf(req, version, here[m])];
        n := n + 2;
      }
      assert here[..|here|] == here;
      ok := true;
    }

    /** The post-commit step: the old version's ids go, then the new ones come. */
    method Publish(req: Request, w: Workspace, oldIds: set<ChunkId>, version: nat, texts: seq<Annotated>,
                   callFailAt: Option<nat>, stored: set<nat>) returns (published: bool)
      modifies this`light
      ensures published <==> NotYet(callFailAt, (if version > 1 then |oldIds| else 0) + 1)
      ensures published ==>
                light == Drop(old(light), w, if version > 1 then oldIds else {}) + Sent(req, texts, version, w)
      ensures !published ==> CutShort(old(light), light, w, oldIds, Sent(req, texts, version, w))
    {
      var n := 0;
      if version > 1 {
        var ok := DropAll(w, oldIds, callFailAt);
        if !ok {
          return false;
        }
        n := |oldIds|;
      } else {
        assert Drop(light, w, {}) == light;
      }
      var sent := Sent(req, texts, version, w);
      if Raises(callFailAt, n) {
        light := light + (map k | k in sent && k.1.index in stored :: sent[k]);
        return false;
      }
      light := light + sent;
      published := true;
    }

    /** One call an id, in whatever order the ids were fetched. */
    method DropAll(w: Workspace, ids: set<ChunkId>, callFailAt: Option<nat>) returns (ok: bool)
      modifies this`light
      ensures ok <==> NotYet(callFailAt, |ids|)
      ensures exists gone :: gone <= ids && light == Drop(old(light), w, gone) && (ok ==> gone == ids)
    {
      var rest := ids;
      var n := 0;
      assert Drop(light, w, {}) == light;
      while rest != {}
        invariant rest <= ids && n == |ids| - |rest| && NotYet(callFailAt, n)
        invariant light == Drop(old(light), w, ids - rest)
        decreases |rest|
      {
        var c :| c in rest;
        if Raises(callFailAt, n) {
          assert ids - rest <= ids;
          return false;
        }
        DropOne(old(light), w, ids - rest, c);
        light := Drop(light, w, {c});
        assert ids - rest + {c} == ids - (rest - {c});
        rest := rest - {c};
        n := n + 1;
      }
      assert ids - rest == ids;
      ok := true;
    }
  }

  lemma {:induction false} DropOne(light: Light, w: Workspace, gone: set<ChunkId>, c: ChunkId)
    ensures Drop(Drop(light, w, gone), w, {c}) == Drop(light, w, gone + {c})
  {
  }

  lemma {:induction false} ByChunkPrefix(ts: seq<Target>, i: nat, n: nat)
    requires i < n
    ensures |ByChunk(ts, i)| + |OfChunk(ts, i)| <= |ByChunk(ts, n)|
    decreases n
  {
    if i < n - 1 {
      ByChunkPrefix(ts, i, n - 1);
    }
  }

  lemma {:induction false} ChunkAdded(req: Request, version: nat, i: nat, chunks: map<ChunkId, string>)
    requires i < |req.sections|
    ensures (chunks + NewChunks(req, version, i))[ChunkId(req.doc, version, i) := req.sections[i]]
            == chunks + NewChunks(req, version, i + 1)
  {
    var c := ChunkId(req.doc, version, i);
    assert NewIds(req, version, i + 1) == NewIds(req, version, i) + {c};
  }

  /** One more row accepted is one step of the whole list, which fails where the row does. */
  lemma {:induction false} AcceptedRow(table: seq<FactRow>, req: Request, version: nat, ts: seq<Target>, m: nat)
    requires InRange(ts, req) && m < |ts|
    ensures AcceptsAll(table, RowsOf(req, version, ts[..m + 1]))
            <==> AcceptsAll(table, RowsOf(req, version, ts[..m]))
                 && Accepts(table + RowsOf(req, version, ts[..m]), RowOf(req, version, ts[m]))
    ensures AcceptsAll(table, RowsOf(req, version, ts)) ==> AcceptsAll(table, RowsOf(req, version, ts[..m + 1]))
  {
    var rows := RowsOf(req, version, ts);
    assert RowsOf(req, version, ts[..m + 1]) == rows[..m + 1] && RowsOf(req, version, ts[..m]) == rows[..m + 1][..m];
    assert rows == rows[..m + 1] + rows[m + 1..];
    AcceptsAppend(table, rows[..m + 1], rows[m + 1..]);
  }

  lemma {:induction false} ByChunkStartsWith(ts: seq<Target>, i: nat, n: nat)
    requires i <= n
    ensures ByChunk(ts, i) <= ByChunk(ts, n)
    decreases n
  {
    if i < n {
      ByChunkStartsWith(ts, i, n - 1);
    }
  }

  /** The same for the rows of one chunk. */
  lemma {:induction false} AcceptedSoFar(table: seq<FactRow>, req: Request, version: nat, ts: seq<Target>, i: nat)
    requires i < |req.sections| && InRange(ts, req) && ByChunk(ts, |req.sections|) == ts
    requires InRange(ByChunk(ts, i), req) && InRange(OfChunk(ts, i), req)
    ensures InRange(ByChunk(ts, i + 1), req)
    ensures AcceptsAll(table, RowsOf(req, version, ByChunk(ts, i + 1)))
            <==> AcceptsAll(table, RowsOf(req, version, ByChunk(ts, i)))
                 && AcceptsAll(table + RowsOf(req, version, ByChunk(ts, i)), RowsOf(req, version, OfChunk(ts, i)))
    ensures AcceptsAll(table, RowsOf(req, version, ts)) ==> AcceptsAll(table, RowsOf(req, version, ByChunk(ts, i + 1)))
  {
    var a, b := RowsOf(req, version, ByChunk(ts, i)), RowsOf(req, version, OfChunk(ts, i));
    assert RowsOf(req, version, ByChunk(ts, i + 1)) == a + b;
    AcceptsAppend(table, a, b);
    ByChunkStartsWith(ts, i + 1, |req.sections|);
    var rows := RowsOf(req, version, ts);
    assert rows == (a + b) + rows[|a + b|..];
    AcceptsAppend(table, a + b, rows[|a + b|..]);
  }

  /** What the tables hold once the first `i` chunks and their facts are in. */
  ghost predicate Inserted(before: Tables, tx: Tables, req: Request, version: nat, ts: seq<Target>, i: nat)
    requires i <= |req.sections|
  {
    && InRange(ByChunk(ts, i), req)
    && tx.versions == before.versions
    && tx.chunks == before.chunks + NewChunks(req, version, i)
    && tx.facts == before.facts + RowsOf(req, version, ByChunk(ts, i))
  }

  lemma {:induction false} InsertedNone(before: Tables, req: Request, version: nat, ts: seq<Target>)
    ensures Inserted(before, before, req, version, ts, 0)
  {
    assert before.chunks + NewChunks(req, version, 0) == before.chunks;
  }

  lemma {:induction false} InsertedOneMore(before: Tables, tx: Tables, req: Request, version: nat, ts: seq<Target>, i: nat)
    requires i < |req.sections| && Inserted(before, tx, req, version, ts, i) && InRange(OfChunk(ts, i), req)
    ensures var chunks := tx.chunks[ChunkId(req.doc, version, i) := req.sections[i]];
            Inserted(before, Tables(tx.versions, chunks, tx.facts + RowsOf(req, version, OfChunk(ts, i))), req, version, ts, i + 1)
  {
    ChunkAdded(req, version, i, before.chunks);
    RowsAppend(req, version, ByChunk(ts, i), OfChunk(ts, i), before.facts);
  }

  lemma {:induction false} RowAdded(req: Request, version: nat, ts: seq<Target>, m: nat, table: seq<FactRow>)
    requires InRange(ts, req) && m < |ts|
    ensures table + RowsOf(req, version, ts[..m + 1])
            == table + RowsOf(req, version, ts[..m]) + [RowOf(req, version, ts[m])]
  {
  }

  lemma {:induction false} RowsAppend(req: Request, version: nat, a: seq<Target>, b: seq<Target>, table: seq<FactRow>)
    requires InRange(a, req) && InRange(b, req)
    ensures InRange(a + b, req)
    ensures table + RowsOf(req, version, a + b) == table + RowsOf(req, version, a) + RowsOf(req, version, b)
  {
  }
}
