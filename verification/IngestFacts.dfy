/**
 Where the facts of a document end up, over any sequence of loads, said without
 the functions that plan and write the rows.
 */
module IngestFacts {
  import opened Common
  import opened Text
  import opened Filtering
  import opened FactTargets
  import opened IngestLoad
  import opened IngestRuns

  // ---------------------------------------------------------------- spans and keys

  /** The text holds the span somewhere. */
  ghost predicate Mentions(text: string, span: string) {
    exists a, b :: text == a + span + b
  }

  lemma {:induction false} ContainsExactlyWhen(text: string, span: string)
    ensures Contains(text, span) <==> Mentions(text, span)
  {
    if Contains(text, span) {
      var i: nat :| i <= |text| && OccursAt(text, span, i);
      assert text == text[..i] + span + text[i + |span|..];
    }
    if Mentions(text, span) {
      var a, b :| text == a + span + b;
      assert OccursAt(text, span, |a|);
    }
  }

  lemma {:induction false} WithoutAppend(p: char -> bool, a: string, b: string)
    ensures Without(p, a + b) == Without(p, a) + Without(p, b)
  {
    if a == "" {
      assert a + b == b;
    } else {
      WithoutAppend(p, a[1..], b);
      assert (a + b)[0] == a[0] && (a + b)[1..] == a[1..] + b;
      var x, y := Without(p, a[1..]), Without(p, b);
      assert [a[0]] + (x + y) == ([a[0]] + x) + y;
    }
  }

  /** Where a fact's subject has a dot or a dash more, its key is the same. */
  lemma {:induction false} PunctuationDoesNotCount(lower: string -> string, x: string, y: string, a: string, c: char, b: string)
    requires c == '.' || c == '-'
    requires lower(Strip(x)) == a + [c] + b && lower(Strip(y)) == a + b
    ensures NormalizeSubject(lower, x) == NormalizeSubject(lower, y)
  {
    WithoutAppend(IsPunctuation, a + [c], b);
    WithoutAppend(IsPunctuation, a, [c]);
    WithoutAppend(IsPunctuation, a, b);
  }

  /** Nothing else is lost: without dots and dashes the key is the trimmed subject in lower case. */
  lemma {:induction false} NothingElseIsLost(lower: string -> string, x: string)
    requires forall i :: 0 <= i < |lower(Strip(x))| ==> lower(Strip(x))[i] != '.' && lower(Strip(x))[i] != '-'
    ensures NormalizeSubject(lower, x) == lower(Strip(x))
  {
    WithoutNothing(IsPunctuation, lower(Strip(x)));
  }

  lemma {:induction false} WithoutNothing(p: char -> bool, s: string)
    requires forall i :: 0 <= i < |s| ==> !p(s[i])
    ensures Without(p, s) == s
  {
    if s != "" {
      WithoutNothing(p, s[1..]);
    }
  }

  // ---------------------------------------------------------------- stored facts

  /** Every load found its facts' chunks as the source does. */
  ghost predicate LoadsAsInSource(events: seq<Event>, lower: string -> string) {
    forall n :: 0 <= n < |events| ==> events[n].load.plan == Targets(InputOf(events[n].load.req, lower))
  }

  /** Fact `j` may be stored under section `i`: it has no span, or the section mentions it. */
  ghost predicate MayStand(req: Request, i: nat, j: nat) {
    && i < |req.sections| && j < |req.facts|
    && (req.facts[j].span.None? || Mentions(req.sections[i], req.facts[j].span.value))
  }

  /** The row is that of fact `j` under section `i` of this version. */
  ghost predicate IsRowOf(r: FactRow, req: Request, version: nat, lower: string -> string, i: nat, j: nat)
    requires j < |req.facts|
  {
    && r.doc == req.doc && r.chunk == Some(ChunkId(req.doc, version, i))
    && r.fact == req.facts[j] && r.dates == req.dates
    && r.key == Key(NormalizeSubject(lower, req.facts[j].subject), req.facts[j].factKey, req.facts[j].policy)
  }

  /** No pair that may stand, with this key, comes before: section by section, and fact by fact in each. */
  ghost predicate IsFirst(req: Request, lower: string -> string, i: nat, j: nat, key: Key) {
    forall i': nat, j': nat :: MayStand(req, i', j') && KeyOf(lower, req.facts[j']) == key ==> i < i' || (i == i' && j <= j')
  }

  lemma {:induction false} FitsExactlyWhen(req: Request, lower: string -> string, i: nat, j: nat)
    ensures InputOf(req, lower).FitsAt(i, j) <==> MayStand(req, i, j)
  {
    if i < |req.sections| && j < |req.facts| && req.facts[j].span.Some? {
      ContainsExactlyWhen(req.sections[i], req.facts[j].span.value);
    }
  }

  lemma {:induction false} TargetStands(req: Request, lower: string -> string, n: nat)
    requires n < |Targets(InputOf(req, lower))|
    ensures var t := Targets(InputOf(req, lower))[n];
            && MayStand(req, t.chunk, t.fact) && t.key == KeyOf(lower, req.facts[t.fact])
            && IsFirst(req, lower, t.chunk, t.fact, t.key)
  {
    var inp := InputOf(req, lower);
    TargetsFacts(inp);
    var t := Targets(inp)[n];
    FitsExactlyWhen(req, lower, t.chunk, t.fact);
    forall i': nat, j': nat | MayStand(req, i', j') && KeyOf(lower, req.facts[j']) == t.key
      ensures t.chunk < i' || (t.chunk == i' && t.fact <= j')
    {
      FitsExactlyWhen(req, lower, i', j');
      TargetIsLeast(inp, n, i', j');
    }
  }

  /** A row of the loader's, as the source wants it. */
  ghost predicate WellPlaced(r: FactRow, req: Request, version: nat, lower: string -> string) {
    exists i: nat, j: nat :: MayStand(req, i, j) && IsRowOf(r, req, version, lower, i, j) && IsFirst(req, lower, i, j, r.key)
  }

  lemma {:induction false} LoadedRow(t: Tables, doc: string, r: FactRow)
    requires r in t.facts && r.doc == doc && r.chunk.Some?
    ensures r in Loaded(t, doc)
  {
    FilterHolds(IsLoadedOf(doc), t.facts, r);
  }

  lemma {:induction false} FilterHolds<T>(p: T -> bool, s: seq<T>, x: T)
    requires x in s && p(x)
    ensures x in Filter(p, s)
  {
    if x in s[..|s| - 1] {
      FilterHolds(p, s[..|s| - 1], x);
    }
  }

  /**
   After any run, every fact the loader stored for a document comes from a fact of
   its last committed load: under the current version of the first section in which
   it may stand, no earlier pair of section and fact having its key.
   */
  lemma {:induction false} StoredFactsAreWellPlaced(states: seq<State>, events: seq<Event>, doc: string,
                                                    lower: string -> string, r: FactRow)
    requires IsRun(states, events) && LoadsAsInSource(events, lower) && LastCommit(events, doc).Some?
    requires r in Last(states).tables.facts && r.doc == doc && r.chunk.Some?
    ensures WellPlaced(r, LastCommit(events, doc).value.req, VersionOf(Last(states).tables, doc), lower)
  {
    var ld, v := LastCommit(events, doc).value, VersionOf(Last(states).tables, doc);
    LoadedFactsAreExact(states, events, doc);
    ChunksAreExact(states, events, doc);
    LastCommitIsPlanned(events, doc, lower);
    LoadedRow(Last(states).tables, doc, r);
    var rows := RowsOf(ld.req, v, ld.plan);
    var n :| 0 <= n < |rows| && rows[n] == r;
    TargetStands(ld.req, lower, n);
    assert IsRowOf(r, ld.req, v, lower, ld.plan[n].chunk, ld.plan[n].fact);
  }

  lemma {:induction false} LastCommitIsPlanned(events: seq<Event>, doc: string, lower: string -> string)
    requires LoadsAsInSource(events, lower) && LastCommit(events, doc).Some?
    ensures var ld := LastCommit(events, doc).value;
            ld.plan == Targets(InputOf(ld.req, lower))
  {
    var n := |events| - 1;
    if !Commits(events[n], doc) {
      LastCommitIsPlanned(events[..n], doc, lower);
    }
  }

  /** And every key with a pair that may stand is stored, once. */
  lemma {:induction false} EveryKeyIsStoredOnce(states: seq<State>, events: seq<Event>, doc: string,
                                                lower: string -> string, i: nat, j: nat)
    requires IsRun(states, events) && LoadsAsInSource(events, lower) && LastCommit(events, doc).Some?
    requires MayStand(LastCommit(events, doc).value.req, i, j)
    ensures var rows := Loaded(Last(states).tables, doc);
            var key := KeyOf(lower, LastCommit(events, doc).value.req.facts[j]);
            exists n :: 0 <= n < |rows| && rows[n].key == key && forall m :: 0 <= m < |rows| && rows[m].key == key ==> m == n
  {
    var ld, v := LastCommit(events, doc).value, VersionOf(Last(states).tables, doc);
    var inp := InputOf(ld.req, lower);
    LoadedFactsAreExact(states, events, doc);
    LastCommitIsPlanned(events, doc, lower);
    FitsExactlyWhen(ld.req, lower, i, j);
    assert inp.KeyAt(j) in FittingKeys(inp);
    var n := KeyIsStored(inp, inp.KeyAt(j));
    TargetIsLeast(inp, n, i, j);
    var rows := RowsOf(ld.req, v, ld.plan);
    assert rows[n].key == inp.KeyAt(j);
    forall m | 0 <= m < |rows| && rows[m].key == inp.KeyAt(j) ensures m == n {
      assert ld.plan[m].key == inp.KeyAt(j);
    }
  }

  /**
   A load is refused, with nothing changed, exactly when it brings facts although
   seeds are to be kept, or names a status outside the four known ones.
   */
  lemma {:induction false} RefusedExactlyWhen(states: seq<State>, events: seq<Event>, n: nat)
    requires IsRun(states, events) && n < |events|
    ensures var req := events[n].load.req;
            events[n].outcome.Refusal? <==>
            || (req.preserveSeeds && |req.facts| > 0)
            || !(req.status == "extract_failed" || req.status == "chunks_only"
                 || req.status == "facts_loaded" || req.status == "review_required")
    ensures !events[n].outcome.Done? ==> states[n + 1] == states[n]
  {
    assert Step(states[n], events[n], states[n + 1]);
  }

  /**
   After a published load, the text LightRAG holds for section `i` names the facts
   stored under it: their key, subject and policy as the request has them, one for
   each of the section's entries, in order, and nothing else, if all can be written.
   */
  lemma {:induction false} LightNamesStoredFacts(s: State, e: Event, s': State, i: nat)
    requires Step(s, e, s') && e.outcome == Done(true) && e.workspace.Some?
    requires i < |e.load.req.sections|
    ensures InRange(OfChunk(e.load.plan, i), e.load.req)
    ensures var req, ts := e.load.req, OfChunk(e.load.plan, i);
            var k := (e.workspace.value, ChunkId(req.doc, VersionOf(s'.tables, req.doc), i));
            && k in s'.light
            && ((forall n :: 0 <= n < |ts| ==> Placeholder.WellFormed(RefOfFact(req.facts[ts[n].fact]))) ==>
                  var refs := Placeholder.Extract(s'.light[k].Render());
                  && |refs| == |ts|
                  && forall n :: 0 <= n < |ts| ==> refs[n] == RefOfFact(req.facts[ts[n].fact]))
  {
    LightNamesItsFacts(s, e, s', i);
  }

  function RefOfFact(f: Fact): Placeholder.FactRef {
    Placeholder.FactRef(f.factKey, f.subject, f.policy)
  }
}
