/**
 What the origin migration keeps: one applied pass is a fixpoint of planning,
 applying twice is applying once, and exactly when the rollback undoes it.
 */
module CdnFixpoint {
  import opened Common
  import opened MediaUrl
  import opened MediaKeys
  import opened Text
  import opened CdnMigration

  // ---------------------------------------------------------------- the table

  ghost predicate DistinctIds(rows: seq<Row>) {
    forall i, j :: 0 <= i < j < |rows| ==> rows[i].imageId != rows[j].imageId
  }

  /** The UNIQUE constraint on `images.url_cdn`. */
  ghost predicate DistinctUrls(rows: seq<Row>) {
    forall i, j :: 0 <= i < j < |rows| ==> rows[i].urlCdn != rows[j].urlCdn
  }

  /** No two rows are stored under the same URL once white space around it is cut off. */
  ghost predicate DistinctTrimmed(rows: seq<Row>) {
    forall i, j :: 0 <= i < j < |rows| ==> Strip(rows[i].urlCdn) != Strip(rows[j].urlCdn)
  }

  /** Every row to rewrite is stored without white space around its URL. */
  predicate Unpadded(rows: seq<Row>, plans: seq<RowPlan>)
    requires |plans| == |rows|
  {
    forall i :: 0 <= i < |plans| && plans[i].newUrl.Some? ==> rows[i].urlCdn == plans[i].oldUrl
  }

  /** Every row's URL gets into the first probe round. */
  predicate FitsFirstRound(env: Env, rows: seq<Row>) {
    |Collect(env, rows).urls| <= env.maxProbes
  }

  /** One plan per row, in row order; a rewrite changes the URL. */
  ghost predicate Aligned(rows: seq<Row>, plans: seq<RowPlan>) {
    && |plans| == |rows|
    && (forall i :: 0 <= i < |rows| ==> plans[i].imageId == rows[i].imageId)
    && (forall i :: 0 <= i < |rows| ==> (plans[i].decision == Rewrite <==> plans[i].newUrl.Some?))
    && (forall i :: 0 <= i < |rows| && plans[i].newUrl.Some? ==> plans[i].newUrl.value != plans[i].oldUrl)
  }

  predicate Rewrites(plans: seq<RowPlan>, i: nat)
    requires i < |plans|
  {
    plans[i].newUrl.Some?
  }

  /** Row `i` after the first `k` guarded updates. */
  function MovedRow(rows: seq<Row>, plans: seq<RowPlan>, k: nat, i: nat): Row
    requires |plans| == |rows| && i < |rows|
  {
    if i < k && plans[i].newUrl.Some? && rows[i].urlCdn == plans[i].oldUrl
    then rows[i].(urlCdn := plans[i].newUrl.value) else rows[i]
  }

  function Moved(rows: seq<Row>, plans: seq<RowPlan>, k: nat): seq<Row>
    requires |plans| == |rows|
  {
    seq(|rows|, i requires 0 <= i < |rows| => MovedRow(rows, plans, k, i))
  }

  lemma {:induction false} AlignedIsWellPlanned(rows: seq<Row>, plans: seq<RowPlan>)
    requires Aligned(rows, plans)
    ensures WellPlanned(plans)
  {
    forall p | p in plans && p.decision == Rewrite ensures p.newUrl.Some? {
      var i :| 0 <= i < |plans| && plans[i] == p;
    }
  }

  /** One forward update moves the row its plan was made for and no other. */
  lemma {:induction false} UpdateMovesOwnRow(rows: seq<Row>, plans: seq<RowPlan>, k: nat)
    requires Aligned(rows, plans) && DistinctIds(rows) && k < |plans| && plans[k].newUrl.Some?
    requires Update(Moved(rows, plans, k), plans[k], true).Ok?
    ensures Update(Moved(rows, plans, k), plans[k], true).value == Moved(rows, plans, k + 1)
  {
    var t := Moved(rows, plans, k);
    var u := Update(t, plans[k], true).value;
    forall i | 0 <= i < |rows| ensures u[i] == MovedRow(rows, plans, k + 1, i) {
      assert t[i] == MovedRow(rows, plans, k, i) && t[i].imageId == rows[i].imageId;
      assert plans[k].imageId == rows[k].imageId;
    }
  }

  /** Every row is moved by its own plan and by no other. */
  lemma {:induction false} AfterIsMoved(rows: seq<Row>, plans: seq<RowPlan>, k: nat)
    requires Aligned(rows, plans) && WellPlanned(plans) && DistinctIds(rows) && k <= |plans|
    requires After(rows, plans, true, k).Ok?
    ensures After(rows, plans, true, k).value == Moved(rows, plans, k)
  {
    if k == 0 {
      assert Moved(rows, plans, 0) == rows;
    } else {
      AfterIsMoved(rows, plans, k - 1);
      if plans[k - 1].newUrl.Some? {
        UpdateMovesOwnRow(rows, plans, k - 1);
      } else {
        assert Moved(rows, plans, k) == Moved(rows, plans, k - 1);
      }
    }
  }

  /** A row stored with white space around its URL is planned but never touched by the guarded update. */
  lemma {:induction false} PaddedRowNeverMoves(env: Env, rows: seq<Row>, projectKeys: seq<string>, second: set<string>, i: nat)
    requires UrlLaws(env) && DistinctIds(rows) && i < |rows|
    requires Strip(rows[i].urlCdn) != rows[i].urlCdn
    ensures var a := RunPlan(env, rows, projectKeys, second);
            && WellPlanned(a.plans)
            && |Committed(rows, a.plans, true)| == |rows|
            && Committed(rows, a.plans, true)[i] == rows[i]
  {
    var a := RunPlan(env, rows, projectKeys, second);
    PlansAligned(env, rows, projectKeys, second);
    AlignedIsWellPlanned(rows, a.plans);
    if After(rows, a.plans, true, |a.plans|).Ok? {
      AfterIsMoved(rows, a.plans, |a.plans|);
    }
  }

  lemma {:induction false} PlansAligned(env: Env, rows: seq<Row>, projectKeys: seq<string>, second: set<string>)
    ensures Aligned(rows, RunPlan(env, rows, projectKeys, second).plans)
  {
  }

  // ---------------------------------------------------------------- inventory and health

  /** Some row of project `p` is stored under `u`. */
  ghost predicate StoredUnder(env: Env, rows: seq<Row>, u: string, p: string) {
    exists i :: 0 <= i < |rows| && KeyOf(env, rows[i]) == Some(u) && rows[i].projectKey == p
  }

  lemma {:induction false} Collected(env: Env, rows: seq<Row>)
    ensures forall u :: u in Collect(env, rows).project <==> u in Collect(env, rows).urls
    ensures forall i :: 0 <= i < |rows| && KeyOf(env, rows[i]).Some? ==>
              KeyOf(env, rows[i]).value in Collect(env, rows).project
  {
    if rows != [] {
      Collected(env, rows[..|rows| - 1]);
      forall i | 0 <= i < |rows| && KeyOf(env, rows[i]).Some?
        ensures KeyOf(env, rows[i]).value in Collect(env, rows).project
      {
        if i < |rows| - 1 { assert rows[i] == rows[..|rows| - 1][i]; }
      }
    }
  }

  lemma {:induction false} CollectedIsStored(env: Env, rows: seq<Row>, u: string)
    requires u in Collect(env, rows).project
    ensures StoredUnder(env, rows, u, Collect(env, rows).project[u])
  {
    var n := |rows| - 1;
    var front := rows[..n];
    var before := Collect(env, front);
    if u in before.project {
      CollectedIsStored(env, front, u);
      var i :| 0 <= i < |front| && KeyOf(env, front[i]) == Some(u) && front[i].projectKey == before.project[u];
      assert rows[i] == front[i];
    } else {
      assert KeyOf(env, rows[n]) == Some(u);
    }
  }

  /** A 200 in the evidence is a 200 of the URL itself, and the first round's 200s stay. */
  lemma {:induction false} HealthIsEvidence(env: Env, rows: seq<Row>, chosen: Chosen, second: set<string>)
    ensures var h, f := FirstHealth(env, rows), FinalHealth(env, rows, chosen, second);
            && (forall u :: IsHealthy(h, u) ==> env.answer(u) == Some(200))
            && (forall u :: IsHealthy(f, u) ==> env.answer(u) == Some(200))
            && (forall u :: IsHealthy(h, u) ==> IsHealthy(f, u))
  {
    var h := FirstHealth(env, rows);
    CandidatesAreUnanswered(env, chosen, Phase(Collect(env, rows), h), rows);
  }

  /**
   The first round's list: the trimmed URL of every row that parses and belongs to a
   project, to be probed for the project of the first such row.
   */
  lemma {:induction false} InventoryExactly(env: Env, rows: seq<Row>, u: string)
    requires UrlLaws(env)
    ensures u in Collect(env, rows).project <==> exists i: nat :: ListsFirst(env, rows, u, i)
    ensures forall i: nat :: ListsFirst(env, rows, u, i) ==> Collect(env, rows).project[u] == rows[i].projectKey
  {
    if rows != [] {
      var n := |rows| - 1;
      var front := rows[..n];
      InventoryExactly(env, front, u);
      forall i: nat | i < n ensures ListsFirst(env, front, u, i) <==> ListsFirst(env, rows, u, i) {
        assert forall j :: 0 <= j < n ==> front[j] == rows[j];
      }
      if Lists(env, rows[n], u) && u !in Collect(env, front).project {
        NothingListed(env, front, u);
        assert ListsFirst(env, rows, u, n);
      }
    }
  }

  /** The row is to be probed under this URL. */
  predicate Lists(env: Env, row: Row, u: string) {
    env.parse(row.urlCdn).Some? && row.projectKey != "" && Strip(row.urlCdn) == u
  }

  predicate ListsFirst(env: Env, rows: seq<Row>, u: string, i: nat) {
    i < |rows| && Lists(env, rows[i], u) && forall j :: 0 <= j < i ==> !Lists(env, rows[j], u)
  }

  lemma {:induction false} NothingListed(env: Env, rows: seq<Row>, u: string)
    requires UrlLaws(env) && u !in Collect(env, rows).project
    ensures forall j :: 0 <= j < |rows| ==> !Lists(env, rows[j], u)
  {
    Collected(env, rows);
    forall j | 0 <= j < |rows| ensures !Lists(env, rows[j], u) {
      assert KeyOf(env, rows[j]).Some? ==> KeyOf(env, rows[j]).value in Collect(env, rows).project;
    }
  }

  lemma {:induction false} CandidatesAreUnanswered(env: Env, chosen: Chosen, s: Phase, rows: seq<Row>)
    ensures var t := AddCandidates(env, chosen, s, rows);
            && (forall u :: u in s.health ==> u in t.health && t.health[u] == s.health[u])
            && (forall u :: u in t.health && u !in s.health ==> t.health[u].None?)
  {
    if rows != [] {
      CandidatesAreUnanswered(env, chosen, s, rows[..|rows| - 1]);
    }
  }

  // ---------------------------------------------------------------- the chosen origin

  /** The chosen origin is allowed, healthy, and no allowed origin before it is healthy. */
  lemma {:induction false} FirstInIsLeast(origins: seq<string>, healthy: set<string>, o: string)
    ensures FirstIn(origins, healthy) == Some(o) <==>
            exists i :: 0 <= i < |origins| && origins[i] == o && o in healthy
                        && forall j :: 0 <= j < i ==> origins[j] !in healthy
  {
    if origins != [] {
      FirstInIsLeast(origins[1..], healthy, o);
      var rest := origins[1..];
      if FirstIn(origins, healthy) == Some(o) {
        if origins[0] in healthy {
          assert origins[0] == o;
        } else {
          var i :| 0 <= i < |rest| && rest[i] == o && o in healthy && forall j :: 0 <= j < i ==> rest[j] !in healthy;
          assert origins[i + 1] == o;
          forall j | 0 <= j < i + 1 ensures origins[j] !in healthy {
            if j > 0 { assert origins[j] == rest[j - 1]; }
          }
        }
      }
      if i :| 0 <= i < |origins| && origins[i] == o && o in healthy && forall j :: 0 <= j < i ==> origins[j] !in healthy {
        if i > 0 {
          assert origins[0] !in healthy;
          assert rest[i - 1] == o;
          forall j | 0 <= j < i - 1 ensures rest[j] !in healthy { assert rest[j] == origins[j + 1]; }
        }
      }
    }
  }

  /** Losing healthy origins other than the chosen one does not change the choice. */
  lemma {:induction false} ChoiceIsStable(origins: seq<string>, before: set<string>, after: set<string>, o: string)
    requires FirstIn(origins, before) == Some(o)
    requires after <= before && o in after
    ensures FirstIn(origins, after) == Some(o)
  {
    FirstInIsLeast(origins, before, o);
    FirstInIsLeast(origins, after, o);
  }

  // ---------------------------------------------------------------- where a row lands

  /** A row's URL answers 200 and sits on its project's chosen origin, as far as it parses. */
  ghost predicate Landed(env: Env, chosen: Chosen, row: Row) {
    && ChosenFor(chosen, row.projectKey).Some?
    && env.answer(Strip(row.urlCdn)) == Some(HEALTHY_STATUS)
    && (ParseUrl(env, row.urlCdn).Some? ==>
          ParseUrl(env, row.urlCdn).value.origin == ChosenFor(chosen, row.projectKey).value)
  }

  /** `chosen` picks for every project the first allowed origin among `healthy`. */
  ghost predicate PicksFrom(env: Env, chosen: Chosen, healthy: set<string>) {
    forall p :: p in chosen ==> chosen[p] == FirstIn(Allowed(env, p), healthy)
  }

  lemma {:induction false} ChosenIsBare(env: Env, chosen: Chosen, healthy: set<string>, project: string)
    requires ValidEnv(env) && PicksFrom(env, chosen, healthy)
    requires ChosenFor(chosen, project).Some?
    ensures var o := ChosenFor(chosen, project).value;
            o in Allowed(env, project) && o in healthy && BareOrigin(o)
  {
    FirstInIsLeast(Allowed(env, project), healthy, ChosenFor(chosen, project).value);
  }

  /** What each decision rests on. */
  lemma {:induction false} PlanRowMeaning(env: Env, c: Components, row: Row, chosen: Option<string>, h: Health)
    ensures var p := PlanRow(env, c, row, chosen, h);
            && p.objectKey == c.objectKey
            && (p.decision == KeepHealthy <==> chosen == Some(c.origin) && IsHealthy(h, c.url))
            && (p.decision == Rewrite <==>
                  && p.decision != KeepHealthy && chosen.Some?
                  && env.build(chosen.value, c.objectKey).Some? && env.build(chosen.value, c.objectKey) != Some(c.url)
                  && IsHealthy(h, env.build(chosen.value, c.objectKey).value))
            && (p.decision == Rewrite ==> env.build(chosen.value, c.objectKey) == p.newUrl)
  {
  }

  /**
   With the script's own URL functions: a row stored at an origin and a plain path
   is planned under that whole path, and a rewrite only exchanges the origin.
   */
  lemma {:induction false} RewriteKeepsThePath(unquote: string -> string, env: Env, rows: seq<Row>, projectKeys: seq<string>,
                                               second: set<string>, a: Artifact, i: nat, o: string, k: string)
    requires env == SourceEnv(unquote, env.allowed, env.passes, env.answer, env.maxProbes)
    requires forall p, x :: p in env.allowed && x in env.allowed[p] ==> BareOrigin(x)
    requires a == RunPlan(env, rows, projectKeys, second) && i < |rows|
    requires BareOrigin(o) && PlainPath(unquote, k) && Strip(rows[i].urlCdn) == o + "/" + k
    ensures var p := a.plans[i];
            && p.oldUrl == o + "/" + k && p.oldOrigin == o && p.objectKey == k
            && (p.decision == Rewrite ==>
                  && ChosenFor(a.chosen, rows[i].projectKey).Some?
                  && p.newUrl == Some(ChosenFor(a.chosen, rows[i].projectKey).value + "/" + k))
  {
    ParsedAtPath(unquote, rows[i].urlCdn, o, k);
    PlannedFrom(env, a.chosen, FinalHealth(env, rows, a.chosen, second), rows[i], Components(o + "/" + k, o, k));
    var chosen := ChosenFor(a.chosen, rows[i].projectKey);
    if a.plans[i].decision == Rewrite {
      FirstInIsLeast(Allowed(env, rows[i].projectKey), HealthyOrigins(env, FirstHealth(env, rows)), chosen.value);
      JoinKeepsThePath(unquote, chosen.value, k);
    }
  }

  lemma {:induction false} ParsedAtPath(unquote: string -> string, url: string, o: string, k: string)
    requires BareOrigin(o) && PlainPath(unquote, k) && Strip(url) == o + "/" + k
    ensures Parse(unquote, url) == Some(Components(o + "/" + k, o, k))
  {
    KeyIsWholePath(unquote, o, k);
    StripIdempotent(url);
  }

  lemma {:induction false} PlannedFrom(env: Env, chosen: Chosen, h: Health, row: Row, c: Components)
    requires env.parse(row.urlCdn) == Some(c)
    ensures var p, o := PlanOne(env, chosen, h, row), ChosenFor(chosen, row.projectKey);
            && p.oldUrl == c.url && p.oldOrigin == c.origin && p.objectKey == c.objectKey
            && (p.decision == Rewrite ==> o.Some? && p.newUrl.Some? && env.build(o.value, c.objectKey) == p.newUrl)
  {
  }

  lemma {:induction false} JoinKeepsThePath(unquote: string -> string, o: string, k: string)
    requires BareOrigin(o) && PlainPath(unquote, k) && Build(o, k).Some?
    ensures Build(o, k) == Some(o + "/" + k)
  {
    PlainPathStays(unquote, k);
    BuildExactly(o, k);
  }

  /** The plan of a row that does not parse, and the reason given with every decision. */
  lemma {:induction false} ReasonsAre(env: Env, chosen: Chosen, h: Health, row: Row)
    ensures var p := PlanOne(env, chosen, h, row);
            && p.imageId == row.imageId && p.projectKey == row.projectKey && p.statusValue == row.status
            && (p.reason == Unparseable <==> env.parse(row.urlCdn) == None)
            && (p.reason == Unparseable ==> p.decision == ManualReview && p.oldUrl == row.urlCdn)
            && (p.reason != Unparseable ==>
                  var c := env.parse(row.urlCdn).value;
                  var o := ChosenFor(chosen, row.projectKey);
                  && p.oldUrl == c.url && p.oldOrigin == c.origin && p.objectKey == c.objectKey
                  && (p.reason == NoHealthyOrigin <==> o == None)
                  && (p.reason == AlreadyHealthy <==> p.decision == KeepHealthy)
                  && (p.reason == OriginNotHealthy <==> p.decision == Rewrite)
                  && (p.reason == BuildRefused <==> o.Some? && p.decision != KeepHealthy && env.build(o.value, c.objectKey) == None)
                  && (p.reason == SameUrlUnverified <==>
                        o.Some? && p.decision != KeepHealthy && env.build(o.value, c.objectKey) == Some(c.url)))
            && p.verifiedStatus == if p.decision == Rewrite then Some(200) else None
  {
  }

  lemma {:induction false} RowLands(env: Env, chosen: Chosen, healthy: set<string>, h: Health, row: Row, moved: Row)
    requires ValidEnv(env) && PicksFrom(env, chosen, healthy)
    requires forall u :: IsHealthy(h, u) ==> env.answer(u) == Some(HEALTHY_STATUS)
    requires PlanOne(env, chosen, h, row).decision != ManualReview
    requires var p := PlanOne(env, chosen, h, row);
             moved == if p.newUrl.Some? then row.(urlCdn := p.newUrl.value) else row
    ensures Landed(env, chosen, moved)
    ensures var p := PlanOne(env, chosen, h, row);
            ParseUrl(env, moved.urlCdn).Some? <==> (p.newUrl.Some? ==> KeySurvives(env.unquote, p.objectKey))
  {
    var p := PlanOne(env, chosen, h, row);
    var c := ParseUrl(env, row.urlCdn).value;
    PlanRowMeaning(env, c, row, ChosenFor(chosen, row.projectKey), h);
    ChosenIsBare(env, chosen, healthy, row.projectKey);
    if p.newUrl.Some? {
      assert BuiltParsesBack(env, ChosenFor(chosen, row.projectKey).value, c.objectKey, p.newUrl.value);
    }
  }

  // ---------------------------------------------------------------- planning again

  /** A trimmed URL parses like the stored one it comes from. */
  lemma {:induction false} ParseTrimmed(env: Env, u: string)
    requires UrlLaws(env)
    ensures ParseUrl(env, Strip(u)) == ParseUrl(env, u)
  {
    assert PaddingIgnored(env, u);
  }

  /** A project's own origin is let through, so the probe is the answer of the URL. */
  lemma {:induction false} OwnOriginProbes(env: Env, row: Row)
    requires ValidEnv(env) && ParseUrl(env, row.urlCdn).Some?
    requires ParseUrl(env, row.urlCdn).value.origin in Allowed(env, row.projectKey)
    ensures KeyOf(env, row) == Some(Strip(row.urlCdn))
    ensures Probe(env, Strip(row.urlCdn), row.projectKey) == env.answer(Strip(row.urlCdn))
  {
    ParseTrimmed(env, row.urlCdn);
    assert env.passes(Strip(row.urlCdn), row.projectKey);
  }

  /** The first round probes the URL of row `i` for the project of some row stored under that URL. */
  lemma {:induction false} ProbedFor(env: Env, rows: seq<Row>, u: string) returns (k: nat)
    requires u in Collect(env, rows).project
    ensures k < |rows| && KeyOf(env, rows[k]) == Some(u) && rows[k].projectKey == Collect(env, rows).project[u]
    ensures u in FirstHealth(env, rows) ==> FirstHealth(env, rows)[u] == Probe(env, u, rows[k].projectKey)
    ensures FitsFirstRound(env, rows) ==> u in FirstHealth(env, rows)
  {
    Collected(env, rows);
    CollectedIsStored(env, rows, u);
    k :| 0 <= k < |rows| && KeyOf(env, rows[k]) == Some(u) && rows[k].projectKey == Collect(env, rows).project[u];
  }

  /** Where no two rows share a trimmed URL, each is probed for its own project. */
  lemma {:induction false} ProbedAsOwn(env: Env, rows: seq<Row>, i: nat)
    requires UrlLaws(env) && DistinctTrimmed(rows) && i < |rows| && KeyOf(env, rows[i]).Some?
    ensures var u, h := Strip(rows[i].urlCdn), FirstHealth(env, rows);
            && KeyOf(env, rows[i]) == Some(u)
            && (u in h ==> h[u] == Probe(env, u, rows[i].projectKey))
            && (FitsFirstRound(env, rows) ==> u in h)
  {
    Collected(env, rows);
    var k := ProbedFor(env, rows, Strip(rows[i].urlCdn));
    assert k == i;
  }

  ghost predicate AllLanded(env: Env, chosen: Chosen, rows: seq<Row>) {
    forall k :: 0 <= k < |rows| ==> Landed(env, chosen, rows[k])
  }

  /** Over landed rows, one that still parses is seen healthy by the first round of the next run. */
  lemma {:induction false} LandedRowsProbeHealthy(env: Env, rows: seq<Row>, chosen: Chosen, healthy: set<string>, i: nat)
    requires ValidEnv(env) && PicksFrom(env, chosen, healthy) && i < |rows|
    requires AllLanded(env, chosen, rows) && FitsFirstRound(env, rows)
    requires ParseUrl(env, rows[i].urlCdn).Some?
    ensures IsHealthy(FirstHealth(env, rows), Strip(rows[i].urlCdn))
  {
    var u := Strip(rows[i].urlCdn);
    Collected(env, rows);
    ChosenIsBare(env, chosen, healthy, rows[i].projectKey);
    OwnOriginProbes(env, rows[i]);
    var k := ProbedFor(env, rows, u);
    ChosenIsBare(env, chosen, healthy, rows[k].projectKey);
    OwnOriginProbes(env, rows[k]);
  }

  /** The origins seen healthy next time are those already chosen, so no better one can appear. */
  lemma {:induction false} HealthyOriginsShrink(env: Env, rows: seq<Row>, chosen: Chosen, healthy: set<string>)
    requires ValidEnv(env) && PicksFrom(env, chosen, healthy) && AllLanded(env, chosen, rows)
    ensures HealthyOrigins(env, FirstHealth(env, rows)) <= healthy
  {
    var h := FirstHealth(env, rows);
    forall u | u in h && ParseUrl(env, u).Some? ensures ParseUrl(env, u).value.origin in healthy {
      var k := ProbedFor(env, rows, u);
      LandedOrigin(env, chosen, healthy, rows[k]);
    }
  }

  lemma {:induction false} LandedOrigin(env: Env, chosen: Chosen, healthy: set<string>, row: Row)
    requires ValidEnv(env) && PicksFrom(env, chosen, healthy) && Landed(env, chosen, row)
    requires ParseUrl(env, row.urlCdn).Some?
    ensures ParseUrl(env, Strip(row.urlCdn)) == ParseUrl(env, row.urlCdn)
    ensures ParseUrl(env, row.urlCdn).value.origin in healthy
  {
    ParseTrimmed(env, row.urlCdn);
    ChosenIsBare(env, chosen, healthy, row.projectKey);
  }

  /** Planning again chooses the same origin for a landed row that is seen healthy, and keeps it. */
  lemma {:induction false} LandedRowIsKept(env: Env, rows: seq<Row>, projectKeys: seq<string>, healthy: set<string>,
                                           chosen: Chosen, second: set<string>, i: nat)
    requires ValidEnv(env) && PicksFrom(env, chosen, healthy) && chosen.Keys == (set p | p in projectKeys)
    requires i < |rows| && ParseUrl(env, rows[i].urlCdn).Some? && Landed(env, chosen, rows[i])
    requires IsHealthy(FirstHealth(env, rows), Strip(rows[i].urlCdn))
    requires HealthyOrigins(env, FirstHealth(env, rows)) <= healthy
    ensures var a := RunPlan(env, rows, projectKeys, second);
            && ChosenFor(a.chosen, rows[i].projectKey) == ChosenFor(chosen, rows[i].projectKey)
            && a.plans[i].decision == KeepHealthy
  {
    var h := FirstHealth(env, rows);
    var a := RunPlan(env, rows, projectKeys, second);
    var p, u := rows[i].projectKey, Strip(rows[i].urlCdn);
    var o := ChosenFor(chosen, p).value;
    ParseTrimmed(env, rows[i].urlCdn);
    assert o in HealthyOrigins(env, h);
    ChoiceIsStable(Allowed(env, p), healthy, HealthyOrigins(env, h), o);
    HealthIsEvidence(env, rows, a.chosen, second);
    assert a.plans[i] == PlanOne(env, a.chosen, FinalHealth(env, rows, a.chosen, second), rows[i]);
  }

  /** A plan that may be applied: no row to review, and no statement collides. */
  ghost predicate Applies(rows: seq<Row>, plans: seq<RowPlan>) {
    NoReview(plans) && WellPlanned(plans) && After(rows, plans, true, |plans|).Ok?
  }

  /** After an applied plan without rows to review, every row has landed that is kept or stored trimmed. */
  lemma {:induction false} AppliedRowLands(env: Env, rows: seq<Row>, projectKeys: seq<string>, second: set<string>,
                                           a: Artifact, next: seq<Row>, i: nat)
    requires ValidEnv(env) && DistinctIds(rows) && i < |rows|
    requires a == RunPlan(env, rows, projectKeys, second) && Applies(rows, a.plans)
    requires next == Committed(rows, a.plans, true)
    ensures |next| == |rows| == |a.plans| && next[i].projectKey == rows[i].projectKey
    ensures ChosenFor(a.chosen, rows[i].projectKey).Some?
    ensures if Rewrites(a.plans, i) && rows[i].urlCdn != a.plans[i].oldUrl then
              next[i] == rows[i] && Strip(rows[i].urlCdn) != rows[i].urlCdn && ParseUrl(env, rows[i].urlCdn).Some?
            else
              && Landed(env, a.chosen, next[i])
              && (ParseUrl(env, next[i].urlCdn).Some? <==>
                    (Rewrites(a.plans, i) ==> KeySurvives(env.unquote, a.plans[i].objectKey)))
  {
    PlansAligned(env, rows, projectKeys, second);
    AfterIsMoved(rows, a.plans, |a.plans|);
    var h := FinalHealth(env, rows, a.chosen, second);
    HealthIsEvidence(env, rows, a.chosen, second);
    assert a.plans[i] == PlanOne(env, a.chosen, h, rows[i]);
    assert a.plans[i] in a.plans;
    assert next[i] == MovedRow(rows, a.plans, |a.plans|, i);
    if !(Rewrites(a.plans, i) && rows[i].urlCdn != a.plans[i].oldUrl) {
      RowLands(env, a.chosen, HealthyOrigins(env, FirstHealth(env, rows)), h, rows[i], next[i]);
    }
  }

  lemma {:induction false} AppliedRowsLand(env: Env, rows: seq<Row>, projectKeys: seq<string>, second: set<string>,
                                           a: Artifact, next: seq<Row>)
    requires ValidEnv(env) && DistinctIds(rows)
    requires a == RunPlan(env, rows, projectKeys, second) && Applies(rows, a.plans) && Unpadded(rows, a.plans)
    requires next == Committed(rows, a.plans, true)
    ensures |next| == |rows| == |a.plans| && AllLanded(env, a.chosen, next)
    ensures PicksFrom(env, a.chosen, HealthyOrigins(env, FirstHealth(env, rows)))
    ensures forall i :: 0 <= i < |rows| ==> next[i].projectKey == rows[i].projectKey
    ensures forall i :: 0 <= i < |rows| ==> (ParseUrl(env, next[i].urlCdn).Some? <==>
              (Rewrites(a.plans, i) ==> KeySurvives(env.unquote, a.plans[i].objectKey)))
  {
    PlansAligned(env, rows, projectKeys, second);
    AfterIsMoved(rows, a.plans, |a.plans|);
    forall i | 0 <= i < |rows|
      ensures next[i].projectKey == rows[i].projectKey && Landed(env, a.chosen, next[i])
      ensures ParseUrl(env, next[i].urlCdn).Some? <==>
              (Rewrites(a.plans, i) ==> KeySurvives(env.unquote, a.plans[i].objectKey))
    {
      AppliedRowLands(env, rows, projectKeys, second, a, next, i);
    }
  }

  /** The second plan repeats the choice and marks every row healthy. */
  ghost predicate SettledBy(rows: seq<Row>, first: Artifact, again: Artifact) {
    && |again.plans| == |rows|
    && (forall i :: 0 <= i < |rows| ==> again.plans[i].decision == KeepHealthy)
    && (forall i :: 0 <= i < |rows| ==>
          ChosenFor(again.chosen, rows[i].projectKey) == ChosenFor(first.chosen, rows[i].projectKey))
  }

  ghost predicate KeysSurvive(env: Env, plans: seq<RowPlan>) {
    forall i :: 0 <= i < |plans| && Rewrites(plans, i) ==> KeySurvives(env.unquote, plans[i].objectKey)
  }

  /** Over landed rows, the next plan settles exactly when every stored URL still parses. */
  lemma {:induction false} LandedPlanSettles(env: Env, rows: seq<Row>, next: seq<Row>, projectKeys: seq<string>,
                                             first: Artifact, healthy: set<string>, third: set<string>)
    requires ValidEnv(env) && PicksFrom(env, first.chosen, healthy)
    requires first.chosen.Keys == (set p | p in projectKeys)
    requires |next| == |rows| && AllLanded(env, first.chosen, next) && FitsFirstRound(env, next)
    requires forall i :: 0 <= i < |rows| ==> next[i].projectKey == rows[i].projectKey
    ensures SettledBy(rows, first, RunPlan(env, next, projectKeys, third)) <==>
            forall i :: 0 <= i < |rows| ==> ParseUrl(env, next[i].urlCdn).Some?
  {
    var again := RunPlan(env, next, projectKeys, third);
    HealthyOriginsShrink(env, next, first.chosen, healthy);
    forall i | 0 <= i < |rows|
      ensures ParseUrl(env, next[i].urlCdn).Some? ==>
                again.plans[i].decision == KeepHealthy
                && ChosenFor(again.chosen, rows[i].projectKey) == ChosenFor(first.chosen, rows[i].projectKey)
      ensures ParseUrl(env, next[i].urlCdn).None? ==> again.plans[i].decision == ManualReview
    {
      if ParseUrl(env, next[i].urlCdn).Some? {
        LandedRowsProbeHealthy(env, next, first.chosen, healthy, i);
        LandedRowIsKept(env, next, projectKeys, healthy, first.chosen, third, i);
      } else {
        assert again.plans[i] == PlanOne(env, again.chosen, FinalHealth(env, next, again.chosen, third), next[i]);
      }
    }
  }

  /** A row to rewrite although it sits on the chosen origin does not answer 200, if it was probed for its own project. */
  lemma {:induction false} RewrittenForCause(env: Env, rows: seq<Row>, projectKeys: seq<string>, second: set<string>,
                                             a: Artifact, i: nat)
    requires ValidEnv(env) && DistinctTrimmed(rows) && FitsFirstRound(env, rows)
    requires a == RunPlan(env, rows, projectKeys, second) && i < |rows| == |a.plans| && Rewrites(a.plans, i)
    ensures ParseUrl(env, rows[i].urlCdn).Some? && ChosenFor(a.chosen, rows[i].projectKey).Some?
    ensures ParseUrl(env, rows[i].urlCdn).value.origin == ChosenFor(a.chosen, rows[i].projectKey).value ==>
              env.answer(Strip(rows[i].urlCdn)) != Some(HEALTHY_STATUS)
  {
    var h := FinalHealth(env, rows, a.chosen, second);
    HealthIsEvidence(env, rows, a.chosen, second);
    assert a.plans[i] == PlanOne(env, a.chosen, h, rows[i]);
    var c := ParseUrl(env, rows[i].urlCdn).value;
    PlanRowMeaning(env, c, rows[i], ChosenFor(a.chosen, rows[i].projectKey), h);
    if c.origin == ChosenFor(a.chosen, rows[i].projectKey).value {
      ChosenIsBare(env, a.chosen, HealthyOrigins(env, FirstHealth(env, rows)), rows[i].projectKey);
      OwnOriginProbes(env, rows[i]);
      ProbedAsOwn(env, rows, i);
    }
  }

  /** A padded row to rewrite stays behind, and the next plan does not find it healthy on the same origin. */
  lemma {:induction false} PaddedRowUnsettles(env: Env, rows: seq<Row>, projectKeys: seq<string>,
                                              second: set<string>, third: set<string>, a: Artifact, next: seq<Row>, i: nat)
    requires ValidEnv(env) && DistinctIds(rows) && DistinctTrimmed(rows) && FitsFirstRound(env, rows)
    requires a == RunPlan(env, rows, projectKeys, second) && Applies(rows, a.plans)
    requires next == Committed(rows, a.plans, true)
    requires i < |rows| == |a.plans| && Rewrites(a.plans, i) && rows[i].urlCdn != a.plans[i].oldUrl
    ensures !SettledBy(rows, a, RunPlan(env, next, projectKeys, third))
  {
    var again := RunPlan(env, next, projectKeys, third);
    AppliedRowLands(env, rows, projectKeys, second, a, next, i);
    RewrittenForCause(env, rows, projectKeys, second, a, i);
    var h := FinalHealth(env, next, again.chosen, third);
    HealthIsEvidence(env, next, again.chosen, third);
    assert again.plans[i] == PlanOne(env, again.chosen, h, next[i]);
    PlanRowMeaning(env, ParseUrl(env, next[i].urlCdn).value, next[i], ChosenFor(again.chosen, next[i].projectKey), h);
  }

  /**
   When one applied pass is a fixpoint, so that planning again chooses the same
   origin for every project with rows and keeps every row: exactly when every
   rewritten row is stored trimmed and every rewritten key survives being parsed
   back out of its new URL. The first probe round of the second run must fit
   under the cap; for a padded row, also that of the first run, and no other row
   may have the same URL.
   */
  lemma {:induction false} OnePassIsFixpoint(env: Env, rows: seq<Row>, projectKeys: seq<string>,
                                             second: set<string>, third: set<string>, a: Artifact, next: seq<Row>)
    requires ValidEnv(env) && DistinctIds(rows)
    requires a == RunPlan(env, rows, projectKeys, second) && Applies(rows, a.plans)
    requires next == Committed(rows, a.plans, true) && FitsFirstRound(env, next)
    requires |a.plans| == |rows|
    requires Unpadded(rows, a.plans) || (DistinctTrimmed(rows) && FitsFirstRound(env, rows))
    ensures SettledBy(rows, a, RunPlan(env, next, projectKeys, third)) <==>
            Unpadded(rows, a.plans) && KeysSurvive(env, a.plans)
  {
    if Unpadded(rows, a.plans) {
      AppliedRowsLand(env, rows, projectKeys, second, a, next);
      LandedPlanSettles(env, rows, next, projectKeys, a, HealthyOrigins(env, FirstHealth(env, rows)), third);
    } else {
      var i :| 0 <= i < |a.plans| && a.plans[i].newUrl.Some? && rows[i].urlCdn != a.plans[i].oldUrl;
      PaddedRowUnsettles(env, rows, projectKeys, second, third, a, next, i);
    }
  }

  // ---------------------------------------------------------------- executing again

  /** A row the next run keeps if it plans it at all, or one the guarded update cannot hit. */
  ghost predicate AtRest(env: Env, chosen: Chosen, h: Health, row: Row) {
    || Strip(row.urlCdn) != row.urlCdn
    || (Landed(env, chosen, row) && (ParseUrl(env, row.urlCdn).Some? ==> IsHealthy(h, Strip(row.urlCdn))))
  }

  /** A plan for a row at rest hits no row. */
  lemma {:induction false} AtRestIsNotHit(env: Env, next: seq<Row>, projectKeys: seq<string>,
                                          chosen: Chosen, healthy: set<string>, third: set<string>, again: Artifact, i: nat, j: nat)
    requires ValidEnv(env) && PicksFrom(env, chosen, healthy) && DistinctIds(next)
    requires chosen.Keys == (set p | p in projectKeys)
    requires i < |next| && j < |next| && AtRest(env, chosen, FirstHealth(env, next), next[i])
    requires HealthyOrigins(env, FirstHealth(env, next)) <= healthy
    requires again == RunPlan(env, next, projectKeys, third)
    requires again.plans[i].decision == Rewrite
    ensures !Hits(next[j], again.plans[i], true)
  {
    assert again.plans[i] == PlanOne(env, again.chosen, FinalHealth(env, next, again.chosen, third), next[i]);
    if Strip(next[i].urlCdn) == next[i].urlCdn {
      LandedRowIsKept(env, next, projectKeys, healthy, chosen, third, i);
    }
  }

  /** Over rows at rest `--execute` has nothing to write: every row is kept or out of reach, or one is up for review. */
  lemma {:induction false} ExecuteAtRest(env: Env, next: seq<Row>, projectKeys: seq<string>,
                                         chosen: Chosen, healthy: set<string>, third: set<string>)
    requires ValidEnv(env) && PicksFrom(env, chosen, healthy) && DistinctIds(next)
    requires chosen.Keys == (set p | p in projectKeys)
    requires forall i :: 0 <= i < |next| ==> AtRest(env, chosen, FirstHealth(env, next), next[i])
    requires HealthyOrigins(env, FirstHealth(env, next)) <= healthy
    ensures Execute(env, next, projectKeys, third) == next
  {
    var again := RunPlan(env, next, projectKeys, third);
    PlansAligned(env, next, projectKeys, third);
    AlignedIsWellPlanned(next, again.plans);
    if NoReview(again.plans) {
      forall i, j | 0 <= i < |again.plans| && again.plans[i].decision == Rewrite && 0 <= j < |next|
        ensures !Hits(next[j], again.plans[i], true)
      {
        AtRestIsNotHit(env, next, projectKeys, chosen, healthy, third, again, i, j);
      }
      NothingToDo(next, again.plans, true, |again.plans|);
    }
  }

  /** With no shared URL, a row is at rest after the run: landed and seen healthy, or left behind. */
  lemma {:induction false} RowIsAtRest(env: Env, rows: seq<Row>, projectKeys: seq<string>, second: set<string>,
                                       a: Artifact, next: seq<Row>, i: nat)
    requires ValidEnv(env) && DistinctIds(rows) && i < |rows|
    requires a == RunPlan(env, rows, projectKeys, second) && Applies(rows, a.plans)
    requires next == Committed(rows, a.plans, true) && DistinctTrimmed(next) && FitsFirstRound(env, next)
    ensures |next| == |rows| && AtRest(env, a.chosen, FirstHealth(env, next), next[i])
  {
    AppliedRowLands(env, rows, projectKeys, second, a, next, i);
    if Landed(env, a.chosen, next[i]) && ParseUrl(env, next[i].urlCdn).Some? {
      ChosenIsBare(env, a.chosen, HealthyOrigins(env, FirstHealth(env, rows)), next[i].projectKey);
      OwnOriginProbes(env, next[i]);
      ProbedAsOwn(env, next, i);
    }
  }

  /** ... and a row left behind brings no new healthy origin, as it was probed for the same project before. */
  lemma {:induction false} NoNewOrigin(env: Env, rows: seq<Row>, projectKeys: seq<string>, second: set<string>,
                                       a: Artifact, next: seq<Row>, u: string)
    requires ValidEnv(env) && DistinctIds(rows)
    requires a == RunPlan(env, rows, projectKeys, second) && Applies(rows, a.plans)
    requires next == Committed(rows, a.plans, true) && DistinctTrimmed(rows) && FitsFirstRound(env, rows)
    requires IsHealthy(FirstHealth(env, next), u) && ParseUrl(env, u).Some?
    ensures ParseUrl(env, u).value.origin in HealthyOrigins(env, FirstHealth(env, rows))
  {
    var k := ProbedFor(env, next, u);
    AppliedIsMoved(env, rows, projectKeys, second, a, next);
    AppliedRowLands(env, rows, projectKeys, second, a, next, k);
    ParseTrimmed(env, next[k].urlCdn);
    if Landed(env, a.chosen, next[k]) {
      LandedOrigin(env, a.chosen, HealthyOrigins(env, FirstHealth(env, rows)), next[k]);
    } else {
      ProbedAsOwn(env, rows, k);
      assert u in FirstHealth(env, rows);
    }
  }

  lemma {:induction false} AppliedIsMoved(env: Env, rows: seq<Row>, projectKeys: seq<string>, second: set<string>,
                                          a: Artifact, next: seq<Row>)
    requires DistinctIds(rows)
    requires a == RunPlan(env, rows, projectKeys, second) && Applies(rows, a.plans)
    requires next == Committed(rows, a.plans, true)
    ensures |next| == |rows| && DistinctIds(next)
  {
    PlansAligned(env, rows, projectKeys, second);
    AfterIsMoved(rows, a.plans, |a.plans|);
  }

  lemma {:induction false} LeftBehindIsHarmless(env: Env, rows: seq<Row>, projectKeys: seq<string>, second: set<string>,
                                                a: Artifact, next: seq<Row>)
    requires ValidEnv(env) && DistinctIds(rows)
    requires a == RunPlan(env, rows, projectKeys, second) && Applies(rows, a.plans)
    requires next == Committed(rows, a.plans, true)
    requires DistinctTrimmed(rows) && DistinctTrimmed(next) && FitsFirstRound(env, rows) && FitsFirstRound(env, next)
    ensures forall i :: 0 <= i < |next| ==> AtRest(env, a.chosen, FirstHealth(env, next), next[i])
    ensures HealthyOrigins(env, FirstHealth(env, next)) <= HealthyOrigins(env, FirstHealth(env, rows))
  {
    AppliedIsMoved(env, rows, projectKeys, second, a, next);
    forall i | 0 <= i < |next| ensures AtRest(env, a.chosen, FirstHealth(env, next), next[i]) {
      RowIsAtRest(env, rows, projectKeys, second, a, next, i);
    }
    forall u | IsHealthy(FirstHealth(env, next), u) && ParseUrl(env, u).Some?
      ensures ParseUrl(env, u).value.origin in HealthyOrigins(env, FirstHealth(env, rows))
    {
      NoNewOrigin(env, rows, projectKeys, second, a, next, u);
    }
  }

  /**
   `--execute` run again changes nothing more: after a run that wrote something,
   whatever the second round of the next one probes; after one that wrote
   nothing, under the same probes. Either every rewritten row is stored trimmed,
   or no two rows share a URL, before and after; `SharedPaddedUrlMovesAgain`
   shows what else can happen.
   */
  lemma {:induction false} ExecuteIsIdempotent(env: Env, rows: seq<Row>, projectKeys: seq<string>,
                                               second: set<string>, third: set<string>, next: seq<Row>)
    requires ValidEnv(env) && DistinctIds(rows)
    requires next == Execute(env, rows, projectKeys, second) && FitsFirstRound(env, next)
    requires var plans := RunPlan(env, rows, projectKeys, second).plans;
             || Unpadded(rows, plans)
             || (DistinctTrimmed(rows) && DistinctTrimmed(next) && FitsFirstRound(env, rows))
    requires next != rows || third == second
    ensures Execute(env, next, projectKeys, third) == next
  {
    if next != rows {
      var a := RunPlan(env, rows, projectKeys, second);
      PlansWellPlanned(env, a.chosen, FinalHealth(env, rows, a.chosen, second), rows);
      AppliedIsMoved(env, rows, projectKeys, second, a, next);
      if Unpadded(rows, a.plans) {
        AppliedRowsLand(env, rows, projectKeys, second, a, next);
        LandedIsAtRest(env, next, a.chosen, HealthyOrigins(env, FirstHealth(env, rows)));
      } else {
        LeftBehindIsHarmless(env, rows, projectKeys, second, a, next);
      }
      ExecuteAtRest(env, next, projectKeys, a.chosen, HealthyOrigins(env, FirstHealth(env, rows)), third);
    }
  }

  lemma {:induction false} LandedIsAtRest(env: Env, rows: seq<Row>, chosen: Chosen, healthy: set<string>)
    requires ValidEnv(env) && PicksFrom(env, chosen, healthy)
    requires AllLanded(env, chosen, rows) && FitsFirstRound(env, rows)
    ensures forall i :: 0 <= i < |rows| ==> AtRest(env, chosen, FirstHealth(env, rows), rows[i])
    ensures HealthyOrigins(env, FirstHealth(env, rows)) <= healthy
  {
    HealthyOriginsShrink(env, rows, chosen, healthy);
    forall i | 0 <= i < |rows| && ParseUrl(env, rows[i].urlCdn).Some?
      ensures IsHealthy(FirstHealth(env, rows), Strip(rows[i].urlCdn))
    {
      LandedRowsProbeHealthy(env, rows, chosen, healthy, i);
    }
  }

  lemma {:induction false} NothingToDo(rows: seq<Row>, plans: seq<RowPlan>, forward: bool, k: nat)
    requires WellPlanned(plans) && k <= |plans|
    requires forall i :: 0 <= i < k && plans[i].decision == Rewrite ==>
               forall j :: 0 <= j < |rows| ==> !Hits(rows[j], plans[i], forward)
    ensures After(rows, plans, forward, k) == Ok(rows)
  {
    if k > 0 {
      NothingToDo(rows, plans, forward, k - 1);
      if plans[k - 1].decision == Rewrite {
        NoHitNoChange(rows, plans[k - 1], forward);
      }
    }
  }

  lemma {:induction false} NoHitNoChange(rows: seq<Row>, plan: RowPlan, forward: bool)
    requires plan.newUrl.Some?
    requires forall j :: 0 <= j < |rows| ==> !Hits(rows[j], plan, forward)
    ensures Update(rows, plan, forward) == Ok(rows)
  {
    forall j | 0 <= j < |rows| ensures !Matches(rows[j], plan.imageId, GuardOf(plan, forward)) {
      assert !Hits(rows[j], plan, forward);
    }
    assert Update(rows, plan, forward).value == rows;
  }

  // ---------------------------------------------------------------- applying twice

  /** The guard makes a second application of the same plan touch nothing. */
  lemma {:induction false} ApplyTwiceIsApplyOnce(rows: seq<Row>, plans: seq<RowPlan>)
    requires Aligned(rows, plans) && WellPlanned(plans) && DistinctIds(rows)
    requires After(rows, plans, true, |plans|).Ok?
    ensures var once := Committed(rows, plans, true);
            Committed(once, plans, true) == once && Touched(once, plans, |plans|) == 0
  {
    AfterIsMoved(rows, plans, |plans|);
    var once := Moved(rows, plans, |plans|);
    forall i, j | 0 <= i < |plans| && 0 <= j < |once| && plans[i].decision == Rewrite
      ensures !Hits(once[j], plans[i], true)
    {
      assert once[j].imageId == rows[j].imageId;
      assert plans[i].imageId == rows[i].imageId;
    }
    NothingToDo(once, plans, true, |plans|);
    NothingTouched(once, plans, |plans|);
  }

  lemma {:induction false} NothingTouched(rows: seq<Row>, plans: seq<RowPlan>, k: nat)
    requires WellPlanned(plans) && k <= |plans|
    requires forall i, j :: 0 <= i < |plans| && 0 <= j < |rows| && plans[i].decision == Rewrite ==>
               !Hits(rows[j], plans[i], true)
    ensures Touched(rows, plans, k) == 0
  {
    if k > 0 {
      NothingTouched(rows, plans, k - 1);
      forall i, j | 0 <= i < k - 1 && plans[i].decision == Rewrite && 0 <= j < |rows|
        ensures !Hits(rows[j], plans[i], true) {}
      NothingToDo(rows, plans, true, k - 1);
      if plans[k - 1].decision == Rewrite {
        forall j | 0 <= j < |rows| ensures !Hits(rows[j], plans[k - 1], true) {}
        assert (set i | 0 <= i < |rows| && Hits(rows[i], plans[k - 1], true)) == {};
      }
    }
  }
}
