/**
 What any sequence of loads leaves behind: versions, chunk ids, facts that point
 at current chunks, seeded facts, and agreement with the LightRAG store.
 */
module IngestRuns {
  import opened Common
  import opened Filtering
  import opened FactTargets
  import opened IngestLoad
  import Placeholder

  /** States before, between and after the loads. */
  ghost predicate IsRun(states: seq<State>, events: seq<Event>) {
    && |states| == |events| + 1
    && forall n :: 0 <= n < |events| ==> Step(states[n], events[n], states[n + 1])
  }

  predicate Commits(e: Event, doc: string) {
    e.outcome.Done? && e.load.req.doc == doc
  }

  function CommitCount(events: seq<Event>, doc: string): nat {
    if events == [] then 0
    else CommitCount(events[..|events| - 1], doc) + (if Commits(events[|events| - 1], doc) then 1 else 0)
  }

  /** The last committed load of a document. */
  function LastCommit(events: seq<Event>, doc: string): Option<Load> {
    if events == [] then None
    else if Commits(events[|events| - 1], doc) then Some(events[|events| - 1].load)
    else LastCommit(events[..|events| - 1], doc)
  }

  function Last(states: seq<State>): State
    requires states != []
  {
    states[|states| - 1]
  }

  lemma {:induction false} DropLast(states: seq<State>, events: seq<Event>)
    requires IsRun(states, events) && events != []
    ensures IsRun(states[..|states| - 1], events[..|events| - 1])
    ensures Step(Last(states[..|states| - 1]), events[|events| - 1], Last(states))
  {
    var n := |events| - 1;
    assert Step(states[n], events[n], states[n + 1]);
  }

  // ---------------------------------------------------------------- versions

  /** The version rises by exactly one for every committed load of the document. */
  lemma {:induction false} VersionCountsCommits(states: seq<State>, events: seq<Event>, doc: string)
    requires IsRun(states, events)
    ensures VersionOf(Last(states).tables, doc) == VersionOf(states[0].tables, doc) + CommitCount(events, doc)
  {
    if events != [] {
      DropLast(states, events);
      VersionCountsCommits(states[..|states| - 1], events[..|events| - 1], doc);
    }
  }

  // ---------------------------------------------------------------- chunks

  /** The registry holds exactly this load's sections for the document, under its current version. */
  ghost predicate HoldsSections(t: Tables, req: Request) {
    forall c: ChunkId :: c.doc == req.doc ==>
      if c.version == VersionOf(t, req.doc) && c.index < |req.sections|
      then c in t.chunks && t.chunks[c] == req.sections[c.index]
      else c !in t.chunks
  }

  lemma {:induction false} CommitHoldsSections(t: Tables, ld: Load)
    ensures HoldsSections(Committed(t, ld), ld.req)
  {
    var t' := Committed(t, ld);
    var v := NewVersion(t, ld.req.doc);
    forall c: ChunkId | c.doc == ld.req.doc
      ensures if c.version == VersionOf(t', ld.req.doc) && c.index < |ld.req.sections|
              then c in t'.chunks && t'.chunks[c] == ld.req.sections[c.index]
              else c !in t'.chunks
    {
      assert c in NewIds(ld.req, v, |ld.req.sections|) <==> c.version == v && c.index < |ld.req.sections|;
    }
  }

  /** A committed load leaves other documents' versions and chunks alone. */
  lemma {:induction false} OtherChunksKept(t: Tables, ld: Load, c: ChunkId)
    requires c.doc != ld.req.doc
    ensures var t' := Committed(t, ld);
            && VersionOf(t', c.doc) == VersionOf(t, c.doc)
            && (c in t'.chunks <==> c in t.chunks) && (c in t.chunks ==> t'.chunks[c] == t.chunks[c])
  {
  }

  /**
   After any run, a document some load of which was committed has exactly the
   chunks doc:version:0 .. doc:version:n-1 of the last such load, with its texts.
   */
  lemma {:induction false} ChunksAreExact(states: seq<State>, events: seq<Event>, doc: string)
    requires IsRun(states, events) && LastCommit(events, doc).Some?
    ensures LastCommit(events, doc).value.req.doc == doc
    ensures HoldsSections(Last(states).tables, LastCommit(events, doc).value.req)
  {
    var e := events[|events| - 1];
    DropLast(states, events);
    var before := Last(states[..|states| - 1]).tables;
    if Commits(e, doc) {
      CommitHoldsSections(before, e.load);
    } else {
      ChunksAreExact(states[..|states| - 1], events[..|events| - 1], doc);
      if e.outcome.Done? {
        SectionsKept(before, e.load, LastCommit(events, doc).value.req);
      }
    }
  }

  lemma {:induction false} SectionsKept(t: Tables, ld: Load, held: Request)
    requires HoldsSections(t, held) && held.doc != ld.req.doc
    ensures HoldsSections(Committed(t, ld), held)
  {
    forall c: ChunkId | c.doc == held.doc
      ensures var t' := Committed(t, ld);
              && VersionOf(t', c.doc) == VersionOf(t, c.doc)
              && (c in t'.chunks <==> c in t.chunks) && (c in t.chunks ==> t'.chunks[c] == t.chunks[c])
    {
      OtherChunksKept(t, ld, c);
    }
  }

  // ---------------------------------------------------------------- facts

  /** A fact that names a chunk names a current one of its own document. */
  ghost predicate PointsHome(t: Tables, r: FactRow) {
    r.chunk.Some? ==> r.chunk.value in t.chunks && r.chunk.value.doc == r.doc
  }

  ghost predicate FactsPointHome(t: Tables) {
    forall n :: 0 <= n < |t.facts| ==> PointsHome(t, t.facts[n])
  }

  lemma {:induction false} KeptPointsHome(t: Tables, ld: Load, r: FactRow)
    requires PointsHome(t, r) && Kept(ld.req)(r)
    ensures PointsHome(Committed(t, ld), r)
  {
    if r.chunk.Some? {
      OtherChunksKept(t, ld, r.chunk.value);
    }
  }

  lemma {:induction false} NewPointsHome(t: Tables, ld: Load, n: nat)
    requires n < |ld.plan|
    ensures PointsHome(Committed(t, ld), RowOf(ld.req, NewVersion(t, ld.req.doc), ld.plan[n]))
  {
    CommitHoldsSections(t, ld);
  }

  lemma {:induction false} CommitPointsHome(t: Tables, ld: Load)
    requires FactsPointHome(t)
    ensures FactsPointHome(Committed(t, ld))
  {
    var t' := Committed(t, ld);
    var kept := Filter(Kept(ld.req), t.facts);
    forall n | 0 <= n < |t'.facts| ensures PointsHome(t', t'.facts[n]) {
      if n < |kept| {
        FilterIn(Kept(ld.req), t.facts, n);
        KeptPointsHome(t, ld, kept[n]);
      } else {
        NewPointsHome(t, ld, n - |kept|);
      }
    }
  }

  /** Over any run no fact is left pointing at a chunk that is gone. */
  lemma {:induction false} FactsAlwaysPointHome(states: seq<State>, events: seq<Event>)
    requires IsRun(states, events) && FactsPointHome(states[0].tables)
    ensures FactsPointHome(Last(states).tables)
  {
    if events != [] {
      DropLast(states, events);
      FactsAlwaysPointHome(states[..|states| - 1], events[..|events| - 1]);
      var e := events[|events| - 1];
      if e.outcome.Done? {
        CommitPointsHome(Last(states[..|states| - 1]).tables, e.load);
      }
    }
  }

  // ---------------------------------------------------------------- seeded facts

  function IsSeedOf(doc: string): FactRow -> bool {
    (r: FactRow) => r.doc == doc && r.chunk.None?
  }

  /** Facts of a document that were seeded outside ingest, in order. */
  function Seeds(t: Tables, doc: string): seq<FactRow> {
    Filter(IsSeedOf(doc), t.facts)
  }

  lemma {:induction false} KeptSeeds(facts: seq<FactRow>, req: Request, doc: string)
    ensures Filter(IsSeedOf(doc), Filter(Kept(req), facts))
            == if doc == req.doc && !req.preserveSeeds then [] else Filter(IsSeedOf(doc), facts)
  {
    if doc == req.doc && !req.preserveSeeds {
      FilterOpposite(IsSeedOf(doc), Kept(req), facts);
    } else {
      FilterWeaker(IsSeedOf(doc), Kept(req), facts);
    }
  }

  /** Rows a load inserts are never seeds. */
  lemma {:induction false} RowsAreNotSeeds(kept: seq<FactRow>, req: Request, version: nat, ts: seq<Target>, doc: string)
    requires InRange(ts, req)
    ensures Filter(IsSeedOf(doc), kept + RowsOf(req, version, ts)) == Filter(IsSeedOf(doc), kept)
  {
    FilterAppend(IsSeedOf(doc), kept, RowsOf(req, version, ts));
    FilterNone(IsSeedOf(doc), RowsOf(req, version, ts));
  }

  lemma {:induction false} CommitSeeds(t: Tables, ld: Load, doc: string)
    ensures Seeds(Committed(t, ld), doc) == if doc == ld.req.doc && !ld.req.preserveSeeds then [] else Seeds(t, doc)
  {
    var kept := Filter(Kept(ld.req), t.facts);
    var v, ts := NewVersion(t, ld.req.doc), ld.plan;
    RowsAreNotSeeds(kept, ld.req, v, ts, doc);
    KeptSeeds(t.facts, ld.req, doc);
    var facts := kept + RowsOf(ld.req, v, ts);
    assert Committed(t, ld).facts == facts;
  }

  predicate Spares(e: Event, doc: string) {
    Commits(e, doc) ==> e.load.req.preserveSeeds
  }

  /** Every committed load of the document asked for its seeds to be kept. */
  ghost predicate AllSpare(events: seq<Event>, doc: string) {
    forall n :: 0 <= n < |events| ==> Spares(events[n], doc)
  }

  /** What is left of the seeds after a run: all, or none. */
  lemma {:induction false} SeedsAfter(states: seq<State>, events: seq<Event>, doc: string)
    requires IsRun(states, events)
    ensures Seeds(Last(states).tables, doc) == if AllSpare(events, doc) then Seeds(states[0].tables, doc) else []
  {
    if events != [] {
      var n := |events| - 1;
      DropLast(states, events);
      SeedsAfter(states[..n + 1], events[..n], doc);
      SpareStep(events, doc);
      if events[n].outcome.Done? {
        CommitSeeds(states[n].tables, events[n].load, doc);
      }
    }
  }

  lemma {:induction false} SpareStep(events: seq<Event>, doc: string)
    requires events != []
    ensures AllSpare(events, doc) <==> AllSpare(events[..|events| - 1], doc) && Spares(events[|events| - 1], doc)
  {
    var front := events[..|events| - 1];
    if AllSpare(front, doc) && Spares(events[|events| - 1], doc) {
      forall n | 0 <= n < |events| ensures Spares(events[n], doc) {
        if n < |front| { assert front[n] == events[n]; }
      }
    }
  }

  /** Seeded facts survive a run exactly while every commit of their document kept them. */
  lemma {:induction false} SeedsSurviveExactly(states: seq<State>, events: seq<Event>, doc: string)
    requires IsRun(states, events) && Seeds(states[0].tables, doc) != []
    ensures Seeds(Last(states).tables, doc) == Seeds(states[0].tables, doc) <==> AllSpare(events, doc)
  {
    SeedsAfter(states, events, doc);
  }

  // ---------------------------------------------------------------- loaded facts

  function IsLoadedOf(doc: string): FactRow -> bool {
    (r: FactRow) => r.doc == doc && r.chunk.Some?
  }

  /** Facts of a document that this loader created, in order. */
  function Loaded(t: Tables, doc: string): seq<FactRow> {
    Filter(IsLoadedOf(doc), t.facts)
  }

  lemma {:induction false} CommitLoaded(t: Tables, ld: Load)
    ensures Loaded(Committed(t, ld), ld.req.doc) == RowsOf(ld.req, NewVersion(t, ld.req.doc), ld.plan)
  {
    var p := IsLoadedOf(ld.req.doc);
    var kept, rows := Filter(Kept(ld.req), t.facts), RowsOf(ld.req, NewVersion(t, ld.req.doc), ld.plan);
    FilterAppend(p, kept, rows);
    FilterOpposite(p, Kept(ld.req), t.facts);
    FilterAll(p, rows);
  }

  lemma {:induction false} OtherLoadedKept(t: Tables, ld: Load, doc: string)
    requires doc != ld.req.doc
    ensures Loaded(Committed(t, ld), doc) == Loaded(t, doc)
  {
    var p := IsLoadedOf(doc);
    var kept, rows := Filter(Kept(ld.req), t.facts), RowsOf(ld.req, NewVersion(t, ld.req.doc), ld.plan);
    FilterAppend(p, kept, rows);
    FilterWeaker(p, Kept(ld.req), t.facts);
    FilterNone(p, rows);
  }

  /**
   After any run, the loader's facts of a document are those of its last
   committed load, each under its chunk, and no others.
   */
  lemma {:induction false} LoadedFactsAreExact(states: seq<State>, events: seq<Event>, doc: string)
    requires IsRun(states, events) && LastCommit(events, doc).Some?
    ensures var ld := LastCommit(events, doc).value;
            Loaded(Last(states).tables, doc) == RowsOf(ld.req, VersionOf(Last(states).tables, doc), ld.plan)
  {
    var n := |events| - 1;
    var e, before := events[n], states[n].tables;
    DropLast(states, events);
    if Commits(e, doc) {
      CommitLoaded(before, e.load);
    } else {
      LoadedFactsAreExact(states[..n + 1], events[..n], doc);
      if e.outcome.Done? {
        OtherLoadedKept(before, e.load, doc);
      }
    }
  }

  // ---------------------------------------------------------------- the exclusion constraint

  ghost predicate NoClash(facts: seq<FactRow>) {
    forall m, n :: 0 <= m < n < |facts| ==> !RowsClash(facts[m], facts[n])
  }

  ghost predicate Apart(a: seq<FactRow>, b: seq<FactRow>) {
    forall m, n :: 0 <= m < |a| && 0 <= n < |b| ==> !RowsClash(a[m], b[n])
  }

  ghost predicate AllProper(rows: seq<FactRow>) {
    forall n :: 0 <= n < |rows| ==> Proper(rows[n].dates)
  }

  /** Rows are let in one after another exactly when their ranges can be built and no two, old or new, clash. */
  lemma {:induction false} AcceptsAllExactly(table: seq<FactRow>, rows: seq<FactRow>)
    ensures AcceptsAll(table, rows) <==> AllProper(rows) && Apart(table, rows) && NoClash(rows)
  {
    if rows != [] {
      var front, last := rows[..|rows| - 1], rows[|rows| - 1];
      AcceptsAllExactly(table, front);
      var all := table + front;
      if AcceptsAll(table, rows) {
        forall m | 0 <= m < |table| ensures !RowsClash(table[m], last) { assert all[m] == table[m]; }
        forall m | 0 <= m < |front| ensures !RowsClash(front[m], last) { assert all[|table| + m] == front[m]; }
      }
    }
  }

  lemma {:induction false} FilterApart(p: FactRow -> bool, facts: seq<FactRow>)
    requires NoClash(facts)
    ensures NoClash(Filter(p, facts))
  {
    if facts != [] {
      var front, last := facts[..|facts| - 1], facts[|facts| - 1];
      FilterApart(p, front);
      forall m | 0 <= m < |Filter(p, front)| ensures !RowsClash(Filter(p, front)[m], last) {
        FilterIn(p, front, m);
        var i :| 0 <= i < |front| && front[i] == Filter(p, front)[m];
        assert !RowsClash(facts[i], facts[|facts| - 1]);
      }
    }
  }

  /** Over any run the facts table never holds two rows the constraint keeps apart. */
  lemma {:induction false} FactsNeverClash(states: seq<State>, events: seq<Event>)
    requires IsRun(states, events) && NoClash(states[0].tables.facts)
    ensures NoClash(Last(states).tables.facts)
  {
    if events != [] {
      var n := |events| - 1;
      var e, t := events[n], states[n].tables;
      DropLast(states, events);
      FactsNeverClash(states[..n + 1], events[..n]);
      if e.outcome.Done? {
        FilterApart(Kept(e.load.req), t.facts);
        AcceptsAllExactly(Filter(Kept(e.load.req), t.facts), NewRows(t, e.load));
      }
    }
  }

  lemma {:induction false} RowsOfPlanClash(req: Request, version: nat, plan: seq<Target>)
    requires InRange(plan, req)
    ensures NoClash(RowsOf(req, version, plan)) <==> SlotsDistinct(plan, req.dates)
    ensures AllProper(RowsOf(req, version, plan)) <==> plan == [] || Proper(req.dates)
  {
    var rows := RowsOf(req, version, plan);
    if NoClash(rows) {
      forall m, n | 0 <= m < n < |plan| ensures !Clash(plan[m].key, req.dates, plan[n].key, req.dates) {
        assert !RowsClash(rows[m], rows[n]);
      }
    }
    if plan != [] {
      assert rows[0].dates == req.dates;
    }
  }

  /**
   The constraint lets a whole load in exactly when it inserts nothing, or its
   dates make a range, none of its rows clashes with a row that stays, and it
   does not mix a missing with an empty policy over dates that hold a day.
   */
  lemma {:induction false} LoadFitsExactlyWhen(t: Tables, req: Request, lower: string -> string)
    ensures var ld := Planned(req, Plan(req, lower));
            FitsTable(t, ld) <==>
              ld.plan == []
              || (&& Proper(req.dates) && Apart(Filter(Kept(req), t.facts), NewRows(t, ld))
                  && (!MixesPolicies(InputOf(req, lower)) || NoDay(req.dates)))
  {
    var ld := Planned(req, Plan(req, lower));
    AcceptsAllExactly(Filter(Kept(req), t.facts), NewRows(t, ld));
    RowsOfPlanClash(req, NewVersion(t, req.doc), ld.plan);
    RowsClashExactlyWhen(InputOf(req, lower), req.dates);
  }

  // ---------------------------------------------------------------- LightRAG

  /** Foreign keys and version numbers: a chunk's document is registered, and versions start at one. */
  ghost predicate Sound(t: Tables) {
    && (forall c :: c in t.chunks ==> c.doc in t.versions)
    && (forall d :: d in t.versions ==> t.versions[d] >= 1)
  }

  lemma {:induction false} StaysSound(s: State, e: Event, s': State)
    requires Sound(s.tables) && Step(s, e, s')
    ensures Sound(s'.tables)
  {
  }

  /** LightRAG's ids for a document are the registry's, all in one workspace. */
  ghost predicate Agrees(s: State, doc: string, w: Workspace) {
    forall k: (Workspace, ChunkId) :: k.1.doc == doc ==> (k in s.light <==> k.0 == w && k.1 in s.tables.chunks)
  }

  /** Nothing of the document is in LightRAG beyond what the coming load deletes or overwrites. */
  ghost predicate NothingStale(s: State, req: Request, w: Workspace) {
    forall k :: k in s.light && k.1.doc == req.doc ==>
      k.0 == w && (k.1 in s.tables.chunks || k.1 in NewIds(req, NewVersion(s.tables, req.doc), |req.sections|))
  }

  lemma {:induction false} SentKeys(req: Request, texts: seq<Annotated>, version: nat, w: Workspace, k: (Workspace, ChunkId))
    ensures k in Sent(req, texts, version, w) <==> k.0 == w && k.1 in NewIds(req, version, |texts|)
  {
    assert k == (k.0, k.1);
  }

  lemma {:induction false} NoIdsBefore(t: Tables, doc: string)
    requires Sound(t) && VersionOf(t, doc) == 0
    ensures IdsOf(t, doc) == {}
  {
  }

  lemma {:induction false} PublishedKeys(s: State, ld: Load, w: Workspace, k: (Workspace, ChunkId))
    requires Sound(s.tables)
    ensures k in Published(s, ld, w) <==>
              || (k.0 == w && k.1 in NewIds(ld.req, NewVersion(s.tables, ld.req.doc), |ld.req.sections|))
              || (k in s.light && !(k.0 == w && k.1 in IdsOf(s.tables, ld.req.doc)))
  {
    var v := NewVersion(s.tables, ld.req.doc);
    SentKeys(ld.req, Texts(ld.req, ld.plan), v, w, k);
    if v == 1 {
      NoIdsBefore(s.tables, ld.req.doc);
    }
  }

  lemma {:induction false} CommittedIds(t: Tables, ld: Load, c: ChunkId)
    requires c.doc == ld.req.doc
    ensures c in Committed(t, ld).chunks <==> c in NewIds(ld.req, NewVersion(t, ld.req.doc), |ld.req.sections|)
  {
  }

  /** Agreement over bare id sets: `gone` are deleted from the workspace, `came` are added. */
  lemma {:induction false} AgreementOfIds(
    doc: string, w: Workspace, before: set<(Workspace, ChunkId)>, after: set<(Workspace, ChunkId)>,
    gone: set<ChunkId>, came: set<ChunkId>)
    requires forall k: (Workspace, ChunkId) :: k.1.doc == doc ==>
      (k in after <==> (k.0 == w && k.1 in came) || (k in before && !(k.0 == w && k.1 in gone)))
    ensures (forall k: (Workspace, ChunkId) :: k.1.doc == doc ==> (k in after <==> k.0 == w && k.1 in came))
       <==> (forall k :: k in before && k.1.doc == doc ==> k.0 == w && (k.1 in gone || k.1 in came))
  {
    if forall k: (Workspace, ChunkId) :: k.1.doc == doc ==> (k in after <==> k.0 == w && k.1 in came) {
      forall k | k in before && k.1.doc == doc ensures k.0 == w && (k.1 in gone || k.1 in came) {
        assert k in after ==> k.0 == w && k.1 in came;
      }
    }
  }

  /**
   A load whose post-commit step succeeded leaves the two stores in agreement
   exactly when LightRAG held nothing stale of the document before.
   */
  lemma {:induction false} AgreementExactly(s: State, e: Event, s': State)
    requires Sound(s.tables) && Step(s, e, s')
    requires e.outcome == Done(true) && e.workspace.Some?
    ensures Agrees(s', e.load.req.doc, e.workspace.value) <==> NothingStale(s, e.load.req, e.workspace.value)
  {
    var w, req := e.workspace.value, e.load.req;
    var gone, came := IdsOf(s.tables, req.doc), NewIds(req, NewVersion(s.tables, req.doc), |req.sections|);
    forall k: (Workspace, ChunkId) | k.1.doc == req.doc
      ensures k in s'.light.Keys <==> (k.0 == w && k.1 in came) || (k in s.light.Keys && !(k.0 == w && k.1 in gone))
      ensures k.1 in s'.tables.chunks <==> k.1 in came
      ensures k.1 in gone <==> k.1 in s.tables.chunks
    {
      PublishedKeys(s, e.load, w, k);
      CommittedIds(s.tables, e.load, k.1);
    }
    AgreementOfIds(req.doc, w, s.light.Keys, s'.light.Keys, gone, came);
  }

  /** Loads of other documents, however they end, leave a document's ids alone in both stores. */
  lemma {:induction false} OthersLeaveAgreement(s: State, e: Event, s': State, doc: string, w: Workspace)
    requires Sound(s.tables) && Step(s, e, s') && Agrees(s, doc, w) && !Commits(e, doc)
    ensures Agrees(s', doc, w)
  {
    if e.outcome.Done? {
      forall k: (Workspace, ChunkId) | k.1.doc == doc
        ensures (k in s'.light <==> k in s.light) && (k.1 in s'.tables.chunks <==> k.1 in s.tables.chunks)
      {
        OtherChunksKept(s.tables, e.load, k.1);
        if e.workspace.Some? {
          if e.outcome.published {
            PublishedKeys(s, e.load, e.workspace.value, k);
          }
        }
      }
    }
  }

  /** Every committed load of the document went to this workspace, and its post-commit step succeeded. */
  ghost predicate AllPublished(events: seq<Event>, doc: string, w: Workspace) {
    forall n :: 0 <= n < |events| && Commits(events[n], doc) ==>
      events[n].workspace == Some(w) && events[n].outcome.published
  }

  lemma {:induction false} AgreementStep(s: State, e: Event, s': State, doc: string, w: Workspace)
    requires Sound(s.tables) && Agrees(s, doc, w) && Step(s, e, s')
    requires Commits(e, doc) ==> e.workspace == Some(w) && e.outcome.published
    ensures Sound(s'.tables) && Agrees(s', doc, w)
  {
    StaysSound(s, e, s');
    if Commits(e, doc) {
      assert NothingStale(s, e.load.req, w);
      AgreementExactly(s, e, s');
    } else {
      OthersLeaveAgreement(s, e, s', doc, w);
    }
  }

  /**
   If every post-commit step of a document's loads succeeded, in one workspace,
   LightRAG's ids for the document are the registry's, whatever happened to
   other documents' loads in between.
   */
  lemma {:induction false} StoresAgree(states: seq<State>, events: seq<Event>, doc: string, w: Workspace)
    requires IsRun(states, events) && AllPublished(events, doc, w)
    requires Sound(states[0].tables) && Agrees(states[0], doc, w)
    ensures Sound(Last(states).tables) && Agrees(Last(states), doc, w)
  {
    if events != [] {
      var n := |events| - 1;
      var e := events[n];
      DropLast(states, events);
      StoresAgree(states[..n + 1], events[..n], doc, w);
      AgreementStep(states[n], e, states[n + 1], doc, w);
    }
  }

  /** A load that resolves to another workspace leaves the old ids behind, even when every call succeeds. */
  lemma {:induction false} MovedWorkspaceLeavesStaleIds(s: State, e: Event, s': State, w: Workspace)
    requires Sound(s.tables) && Step(s, e, s') && e.outcome == Done(true)
    requires Agrees(s, e.load.req.doc, w) && IdsOf(s.tables, e.load.req.doc) != {}
    requires e.workspace.Some? && e.workspace.value != w
    ensures !Agrees(s', e.load.req.doc, e.workspace.value)
  {
    var c :| c in IdsOf(s.tables, e.load.req.doc);
    assert (w, c) in s.light;
    AgreementExactly(s, e, s');
  }

  // ---------------------------------------------------------------- texts

  lemma {:induction false} SentAt(req: Request, texts: seq<Annotated>, version: nat, w: Workspace, i: nat, before: Light)
    requires i < |texts|
    ensures var k := (w, ChunkId(req.doc, version, i));
            k in before + Sent(req, texts, version, w) && (before + Sent(req, texts, version, w))[k] == texts[i]
  {
    assert ChunkId(req.doc, version, i) in NewIds(req, version, |texts|);
  }

  lemma {:induction false} PublishedAt(s: State, ld: Load, w: Workspace, texts: seq<Annotated>, i: nat)
    requires texts == Texts(ld.req, ld.plan) && i < |texts|
    ensures var k := (w, ChunkId(ld.req.doc, NewVersion(s.tables, ld.req.doc), i));
            k in Published(s, ld, w) && Published(s, ld, w)[k] == texts[i]
  {
    var v := NewVersion(s.tables, ld.req.doc);
    SentAt(ld.req, texts, v, w, i, Drop(s.light, w, if v > 1 then IdsOf(s.tables, ld.req.doc) else {}));
  }

  /** A load whose post-commit step succeeded leaves each current chunk in LightRAG with its annotated text. */
  lemma {:induction false} StoredTextIsAnnotated(s: State, e: Event, s': State, i: nat)
    requires Step(s, e, s') && e.outcome == Done(true) && e.workspace.Some?
    requires i < |e.load.req.sections|
    ensures var k := (e.workspace.value, ChunkId(e.load.req.doc, VersionOf(s'.tables, e.load.req.doc), i));
            k in s'.light && s'.light[k] == Texts(e.load.req, e.load.plan)[i]
  {
    PublishedAt(s, e.load, e.workspace.value, Texts(e.load.req, e.load.plan), i);
  }

  /**
   Such a text names exactly the facts stored under the chunk, in order, when
   their references can be written as tokens, and only then.
   */
  lemma {:induction false} RenderedTextNamesItsFacts(req: Request, ts: seq<Target>, i: nat)
    requires InRange(ts, req) && i < |req.sections|
    ensures InRange(OfChunk(ts, i), req)
    ensures Placeholder.Extract(AnnotatedText(req, ts, i).Render()) == RefsOf(req, OfChunk(ts, i))
            <==> Placeholder.AllWellFormed(RefsOf(req, OfChunk(ts, i)))
  {
    OfChunkInRange(req, ts, i);
    Placeholder.ExtractUndoesAnnotate(req.sections[i], RefsOf(req, OfChunk(ts, i)));
  }

  /**
   So the text LightRAG holds for a current chunk after a load whose post-commit
   step succeeded names exactly the facts stored under that chunk, in order, when
   their references can be written as tokens, and only then.
   */
  lemma {:induction false} LightNamesItsFacts(s: State, e: Event, s': State, i: nat)
    requires Step(s, e, s') && e.outcome == Done(true) && e.workspace.Some?
    requires i < |e.load.req.sections|
    ensures InRange(OfChunk(e.load.plan, i), e.load.req)
    ensures var k := (e.workspace.value, ChunkId(e.load.req.doc, VersionOf(s'.tables, e.load.req.doc), i));
            var refs := RefsOf(e.load.req, OfChunk(e.load.plan, i));
            && k in s'.light
            && (Placeholder.Extract(s'.light[k].Render()) == refs <==> Placeholder.AllWellFormed(refs))
  {
    StoredTextIsAnnotated(s, e, s', i);
    RenderedTextNamesItsFacts(e.load.req, e.load.plan, i);
  }
}
