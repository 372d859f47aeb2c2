/**
 Inputs at which the origin migration falls short, under the script's own URL
 functions: small origins and keys, every URL answering 200, and a fetch policy
 that lets through exactly a project's own origins.
 */
module CdnCases {
  import opened Common
  import opened MediaUrl
  import opened MediaKeys
  import opened Text
  import opened CdnMigration
  import opened CdnFixpoint
  import opened CdnRollback

  // ---------------------------------------------------------------- plain URLs

  predicate IsKeyChar(c: char) { IsAlpha(c) || c == '\'' }

  /** A key of letters and quotes. */
  predicate PlainKey(k: string) {
    k != "" && forall i :: 0 <= i < |k| ==> IsKeyChar(k[i])
  }

  function Same(s: string): string { s }

  lemma {:induction false} PlainKeyStays(k: string)
    requires PlainKey(k)
    ensures PlainPath(Same, k)
  {
    assert IsKeyChar(k[0]) && IsKeyChar(k[|k| - 1]);
    StripId(k);
    forall i | 0 <= i < |k| ensures !IsUnsafe(k[i]) && !EndsPath(k[i]) {
      assert IsKeyChar(k[i]);
    }
  }

  lemma {:induction false} PlainKeyIsSafe(k: string)
    requires PlainKey(k)
    ensures NoTraversal(k) && forall i: nat :: !MarkAt(k, i)
  {
    forall m | 0 <= m < |k| ensures !IsKeySeparator(k[m]) && k[m] != ':' && k[m] != '.' {
      assert IsKeyChar(k[m]);
    }
    forall i: nat, j: nat | SegmentAt(IsKeySeparator, k, i, j) ensures k[i..j] == k {
    }
    assert k[0] != '.';
  }

  /** A bare origin and a plain key are joined with a slash, and come apart again as they were. */
  lemma PlainUrl(o: string, k: string)
    requires BareOrigin(o) && PlainKey(k)
    ensures Build(o, k) == Some(o + "/" + k)
    ensures Parse(Same, o + "/" + k) == Some(Components(o + "/" + k, o, k))
    ensures Strip(o + "/" + k) == o + "/" + k
  {
    PlainKeyStays(k);
    PlainKeyIsSafe(k);
    PlainPathStays(Same, k);
    KeyIsWholePath(Same, o, k);
    BuildExactly(o, k);
  }

  // ---------------------------------------------------------------- the environment

  /** The policy lets through a URL on one of the project's own origins. */
  function OwnOriginsOnly(allowed: map<string, seq<string>>): (string, string) -> bool {
    (u, p) => Parse(Same, u).Some? && p != "" && p in allowed && Parse(Same, u).value.origin in allowed[p]
  }

  /** The script's URL functions, a world where every URL answers 200, and a cap no small table reaches. */
  function CaseEnv(allowed: map<string, seq<string>>): Env {
    SourceEnv(Same, allowed, OwnOriginsOnly(allowed), u => Some(HEALTHY_STATUS), 400)
  }

  ghost predicate BareOrigins(allowed: map<string, seq<string>>) {
    forall p, o :: p in allowed && o in allowed[p] ==> BareOrigin(o)
  }

  /** What the cases below use of that environment. */
  ghost predicate CaseLike(env: Env) {
    && ValidEnv(env) && env.maxProbes == 400
    && (forall u :: env.answer(u) == Some(HEALTHY_STATUS))
    && (forall u, p :: env.passes(u, p) <==>
          ParseUrl(env, u).Some? && ParseUrl(env, u).value.origin in Allowed(env, p))
  }

  lemma CaseEnvIsCaseLike(allowed: map<string, seq<string>>)
    requires BareOrigins(allowed)
    ensures CaseLike(CaseEnv(allowed))
  {
    SourceUrlsAreLawful(Same, allowed, OwnOriginsOnly(allowed), u => Some(HEALTHY_STATUS), 400);
  }

  function At(o: string, k: string): string {
    o + "/" + k
  }

  ghost predicate ComesApart(env: Env, o: string, k: string) {
    env.build(o, k) == Some(At(o, k)) && env.parse(At(o, k)) == Some(Components(At(o, k), o, k))
  }

  /** A row stored on origin `o` under key `k`. */
  ghost predicate StoredAt(env: Env, row: Row, o: string, k: string) {
    && Strip(row.urlCdn) == At(o, k)
    && env.parse(row.urlCdn) == Some(Components(At(o, k), o, k))
    && ComesApart(env, o, k)
  }

  lemma PadStrips(u: string)
    ensures Strip(" " + u) == Strip(u)
  {
    assert (" " + u)[1..] == u;
  }

  lemma IsStoredAt(allowed: map<string, seq<string>>, row: Row, o: string, k: string)
    requires BareOrigin(o) && PlainKey(k)
    requires row.urlCdn == At(o, k) || row.urlCdn == " " + At(o, k)
    ensures StoredAt(CaseEnv(allowed), row, o, k)
    ensures row.urlCdn == At(o, k) <==> Strip(row.urlCdn) == row.urlCdn
  {
    PlainUrl(o, k);
    if row.urlCdn != At(o, k) {
      PadStrips(At(o, k));
    }
  }

  // ---------------------------------------------------------------- planning in general

  lemma {:induction false} InventorySize(env: Env, rows: seq<Row>)
    ensures |Collect(env, rows).urls| <= |rows|
  {
    if rows != [] {
      InventorySize(env, rows[..|rows| - 1]);
    }
  }

  ghost predicate NowhereStored(env: Env, rows: seq<Row>, u: string) {
    forall j :: 0 <= j < |rows| ==> KeyOf(env, rows[j]) != Some(u)
  }

  lemma {:induction false} NotStored(env: Env, rows: seq<Row>, u: string)
    requires NowhereStored(env, rows, u)
    ensures u !in Collect(env, rows).project
  {
    if rows != [] {
      NotStored(env, rows[..|rows| - 1], u);
    }
  }

  /** `setdefault`: the first row stored under a URL gives it its project. */
  lemma {:induction false} FirstRowNames(env: Env, rows: seq<Row>, i: nat)
    requires i < |rows| && KeyOf(env, rows[i]).Some?
    requires forall j :: 0 <= j < i ==> KeyOf(env, rows[j]) != KeyOf(env, rows[i])
    ensures var u := KeyOf(env, rows[i]).value;
            u in Collect(env, rows).project && Collect(env, rows).project[u] == rows[i].projectKey
  {
    var n := |rows| - 1;
    var front := rows[..n];
    if i < n {
      assert front[i] == rows[i];
      forall j | 0 <= j < i ensures KeyOf(env, front[j]) != KeyOf(env, front[i]) {
        assert front[j] == rows[j];
      }
      FirstRowNames(env, front, i);
    } else {
      forall j | 0 <= j < |front| ensures KeyOf(env, front[j]) != KeyOf(env, rows[i]) {
        assert front[j] == rows[j];
      }
      NotStored(env, front, KeyOf(env, rows[i]).value);
    }
  }

  /** A candidate that is on its project's chosen origin and answers 200 is verified by the second round. */
  lemma {:induction false} CandidateIsProbed(env: Env, chosen: Chosen, s: Phase, rows: seq<Row>, c: string, second: set<string>)
    requires c in second && c !in s.inv.project && c !in s.health
    requires forall i :: 0 <= i < |rows| && CandidateOf(env, chosen, rows[i]) == Some(c) ==>
               Probe(env, c, rows[i].projectKey) == Some(HEALTHY_STATUS)
    requires forall u :: u in s.inv.project <==> u in s.inv.urls
    ensures var t := AddCandidates(env, chosen, s, rows);
            && (forall u :: u in t.inv.project <==> u in t.inv.urls)
            && (c in t.health <==> exists i :: 0 <= i < |rows| && CandidateOf(env, chosen, rows[i]) == Some(c))
            && (c in t.health <==> c in t.inv.project)
            && (c in t.health ==> t.health[c].None? && ProbeIn(env, t.inv, c) == Some(HEALTHY_STATUS))
  {
    if rows != [] {
      var n := |rows| - 1;
      var front := rows[..n];
      forall i | 0 <= i < n ensures front[i] == rows[i] {}
      CandidateIsProbed(env, chosen, s, front, c, second);
      var t := AddCandidates(env, chosen, s, front);
      if c in t.health {
        var i :| 0 <= i < |front| && CandidateOf(env, chosen, front[i]) == Some(c);
        assert CandidateOf(env, chosen, rows[i]) == Some(c);
      } else if CandidateOf(env, chosen, rows[n]) != Some(c) {
        forall i | 0 <= i < |rows| ensures CandidateOf(env, chosen, rows[i]) != Some(c) {
          if i < n { assert rows[i] == front[i]; }
        }
      }
    }
  }

  /** A row's own candidate that answers 200 and is stored nowhere is verified, if the second round takes it. */
  lemma {:induction false} CandidateIsVerified(env: Env, rows: seq<Row>, projectKeys: seq<string>, second: set<string>,
                                               i: nat, c: string)
    requires ValidEnv(env) && c in second && i < |rows|
    requires ParseUrl(env, c).Some? && env.answer(c) == Some(HEALTHY_STATUS)
    requires NowhereStored(env, rows, c)
    requires CandidateOf(env, ChooseOrigins(env, projectKeys, FirstHealth(env, rows)), rows[i]) == Some(c)
    ensures var chosen := ChooseOrigins(env, projectKeys, FirstHealth(env, rows));
            IsHealthy(FinalHealth(env, rows, chosen, second), c)
  {
    var h := FirstHealth(env, rows);
    var chosen := ChooseOrigins(env, projectKeys, h);
    var inv := Collect(env, rows);
    NotStored(env, rows, c);
    Collected(env, rows);
    forall j | 0 <= j < |rows| && CandidateOf(env, chosen, rows[j]) == Some(c)
      ensures Probe(env, c, rows[j].projectKey) == Some(HEALTHY_STATUS)
    {
      ChosenIsBare(env, chosen, HealthyOrigins(env, h), rows[j].projectKey);
      var o, key := ChosenFor(chosen, rows[j].projectKey).value, ParseUrl(env, rows[j].urlCdn).value.objectKey;
      assert BuiltParsesBack(env, o, key, c);
    }
    CandidateIsProbed(env, chosen, Phase(inv, h), rows, c, second);
  }

  /** No row before `i` is stored under `u`. */
  ghost predicate FirstUnder(rows: seq<Row>, i: nat, u: string)
    requires i <= |rows|
  {
    forall j :: 0 <= j < i ==> Strip(rows[j].urlCdn) != u
  }

  /** The first round's answer for the first row stored under a URL. */
  lemma {:induction false} FirstProbe(env: Env, rows: seq<Row>, i: nat, o: string, k: string)
    requires CaseLike(env) && i < |rows| <= 400 && StoredAt(env, rows[i], o, k)
    requires rows[i].projectKey != ""
    requires FirstUnder(rows, i, At(o, k))
    ensures At(o, k) in FirstHealth(env, rows)
    ensures IsHealthy(FirstHealth(env, rows), At(o, k)) <==> o in Allowed(env, rows[i].projectKey)
    ensures o in Allowed(env, rows[i].projectKey) ==> o in HealthyOrigins(env, FirstHealth(env, rows))
  {
    FirstRowNames(env, rows, i);
    InventorySize(env, rows);
    Collected(env, rows);
    assert Probe(env, At(o, k), rows[i].projectKey) == Some(HEALTHY_STATUS) <==> o in Allowed(env, rows[i].projectKey);
  }

  lemma {:induction false} KeptAt(env: Env, chosen: Chosen, h: Health, row: Row, o: string, k: string)
    requires StoredAt(env, row, o, k)
    requires ChosenFor(chosen, row.projectKey) == Some(o) && IsHealthy(h, At(o, k))
    ensures PlanOne(env, chosen, h, row).decision == KeepHealthy
  {
  }

  lemma {:induction false} MovedTo(env: Env, chosen: Chosen, h: Health, row: Row, o: string, k: string, o2: string)
    requires StoredAt(env, row, o, k) && ComesApart(env, o2, k) && o2 != o
    requires ChosenFor(chosen, row.projectKey) == Some(o2) && IsHealthy(h, At(o2, k))
    ensures var p := PlanOne(env, chosen, h, row);
            p.decision == Rewrite && p.newUrl == Some(At(o2, k)) && p.oldUrl == At(o, k)
  {
  }

  /** Updates in plan order go through when each finds its new URL free. */
  lemma {:induction false} AppliesWhenFree(rows: seq<Row>, plans: seq<RowPlan>, k: nat)
    requires Aligned(rows, plans) && WellPlanned(plans) && DistinctIds(rows) && k <= |plans|
    requires forall i, j :: 0 <= i < |plans| && 0 <= j < |plans| && i != j && plans[i].newUrl.Some? ==>
               MovedRow(rows, plans, i, j).urlCdn != plans[i].newUrl.value
    ensures After(rows, plans, true, k) == Ok(Moved(rows, plans, k))
  {
    if k == 0 {
      assert Moved(rows, plans, 0) == rows;
    } else {
      var i := k - 1;
      AppliesWhenFree(rows, plans, i);
      var t := Moved(rows, plans, i);
      if plans[i].newUrl.Some? {
        OwnUpdateGoesThrough(rows, plans, i);
        UpdateMovesOwnRow(rows, plans, i);
      } else {
        assert Moved(rows, plans, k) == t;
      }
    }
  }

  lemma {:induction false} OwnUpdateGoesThrough(rows: seq<Row>, plans: seq<RowPlan>, i: nat)
    requires Aligned(rows, plans) && DistinctIds(rows) && i < |plans| && plans[i].newUrl.Some?
    requires forall j :: 0 <= j < |plans| && i != j ==> MovedRow(rows, plans, i, j).urlCdn != plans[i].newUrl.value
    ensures Update(Moved(rows, plans, i), plans[i], true).Ok?
  {
    var t := Moved(rows, plans, i);
    forall a, j | 0 <= a < |t| && 0 <= j < |t| && Hits(t[a], plans[i], true) && !Hits(t[j], plans[i], true)
      ensures t[j].urlCdn != plans[i].newUrl.value
    {
      assert t[a] == MovedRow(rows, plans, i, a) && t[j] == MovedRow(rows, plans, i, j);
      assert t[a].imageId == rows[a].imageId && plans[i].imageId == rows[i].imageId;
    }
  }

  /** A row healthy on its project's chosen origin is kept. */
  lemma {:induction false} RowStays(env: Env, rows: seq<Row>, projectKeys: seq<string>, second: set<string>, a: Artifact,
                                    i: nat, o: string, k: string)
    requires a == RunPlan(env, rows, projectKeys, second) && i < |rows| && StoredAt(env, rows[i], o, k)
    requires ChosenFor(a.chosen, rows[i].projectKey) == Some(o) && IsHealthy(FirstHealth(env, rows), At(o, k))
    ensures a.plans[i].decision == KeepHealthy && a.plans[i].newUrl.None?
  {
    HealthIsEvidence(env, rows, a.chosen, second);
    KeptAt(env, a.chosen, FinalHealth(env, rows, a.chosen, second), rows[i], o, k);
  }

  /** A row on another origin is rewritten, to a URL already seen healthy or to one the second round takes. */
  lemma {:induction false} RowMoves(env: Env, rows: seq<Row>, projectKeys: seq<string>, second: set<string>, a: Artifact,
                                    i: nat, o: string, k: string, o2: string)
    requires CaseLike(env) && a == RunPlan(env, rows, projectKeys, second)
    requires i < |rows| && StoredAt(env, rows[i], o, k) && ComesApart(env, o2, k) && o2 != o
    requires rows[i].projectKey != "" && ChosenFor(a.chosen, rows[i].projectKey) == Some(o2)
    requires || IsHealthy(FirstHealth(env, rows), At(o2, k))
             || (At(o2, k) in second && NowhereStored(env, rows, At(o2, k)))
    ensures var p := a.plans[i];
            p.decision == Rewrite && p.newUrl == Some(At(o2, k)) && p.oldUrl == At(o, k) && p.imageId == rows[i].imageId
  {
    if IsHealthy(FirstHealth(env, rows), At(o2, k)) {
      HealthIsEvidence(env, rows, a.chosen, second);
    } else {
      CandidateIsVerified(env, rows, projectKeys, second, i, At(o2, k));
    }
    MovedTo(env, a.chosen, FinalHealth(env, rows, a.chosen, second), rows[i], o, k, o2);
  }

  lemma {:induction false} ChosenFirst(env: Env, rows: seq<Row>, projectKeys: seq<string>, second: set<string>, a: Artifact,
                                       p: string, o: string)
    requires a == RunPlan(env, rows, projectKeys, second) && p in projectKeys
    requires Allowed(env, p) != [] && Allowed(env, p)[0] == o && o in HealthyOrigins(env, FirstHealth(env, rows))
    ensures ChosenFor(a.chosen, p) == Some(o)
  {
  }

  /** URLs of different origins or keys differ. */
  lemma KeyDiffers(env: Env, row: Row, o: string, k: string, o2: string, k2: string)
    requires StoredAt(env, row, o, k) && ComesApart(env, o2, k2) && (o != o2 || k != k2)
    ensures KeyOf(env, row) != Some(At(o2, k2)) && row.urlCdn != At(o2, k2)
  {
  }

  // ---------------------------------------------------------------- one project, two rows

  /** The first row sits on the preferred origin, the second on another one. */
  ghost predicate TwoRows(env: Env, rows: seq<Row>, p: string, o1: string, x: string, o2: string, k: string) {
    && CaseLike(env) && ComesApart(env, o1, k) && o1 != o2 && x != k
    && p != "" && Allowed(env, p) == [o1, o2]
    && |rows| == 2 && rows[0].projectKey == p == rows[1].projectKey && rows[0].imageId != rows[1].imageId
    && StoredAt(env, rows[0], o1, x) && rows[0].urlCdn == At(o1, x)
    && StoredAt(env, rows[1], o2, k)
  }

  lemma {:induction false} TwoRowsChoice(env: Env, rows: seq<Row>, p: string, o1: string, x: string,
                                         o2: string, k: string, second: set<string>, a: Artifact)
    requires TwoRows(env, rows, p, o1, x, o2, k) && At(o1, k) in second
    requires a == RunPlan(env, rows, [p], second)
    ensures ChosenFor(a.chosen, p) == Some(o1) && IsHealthy(FirstHealth(env, rows), At(o1, x))
  {
    FirstProbe(env, rows, 0, o1, x);
    ChosenFirst(env, rows, [p], second, a, p, o1);
  }

  lemma {:induction false} TwoRowsDiffer(env: Env, rows: seq<Row>, o1: string, x: string, o2: string, k: string)
    requires |rows| == 2 && rows[0].imageId != rows[1].imageId && ComesApart(env, o1, k) && o1 != o2 && x != k
    requires StoredAt(env, rows[0], o1, x) && StoredAt(env, rows[1], o2, k) && rows[0].urlCdn == At(o1, x)
    ensures NowhereStored(env, rows, At(o1, k))
    ensures DistinctIds(rows) && DistinctUrls(rows) && At(o1, k) != rows[0].urlCdn
  {
    KeyDiffers(env, rows[0], o1, x, o1, k);
    KeyDiffers(env, rows[1], o2, k, o1, k);
    KeyDiffers(env, rows[1], o2, k, o1, x);
  }

  lemma {:induction false} TwoRowsPlan(env: Env, rows: seq<Row>, p: string, o1: string, x: string,
                                         o2: string, k: string, second: set<string>, a: Artifact)
    requires TwoRows(env, rows, p, o1, x, o2, k) && At(o1, k) in second
    requires a == RunPlan(env, rows, [p], second)
    ensures |a.plans| == 2 && a.plans[0].decision == KeepHealthy && a.plans[0].newUrl.None?
    ensures a.plans[1].decision == Rewrite && a.plans[1].imageId == rows[1].imageId
    ensures a.plans[1].oldUrl == At(o2, k) && a.plans[1].newUrl == Some(At(o1, k))
  {
    TwoRowsChoice(env, rows, p, o1, x, o2, k, second, a);
    RowStays(env, rows, [p], second, a, 0, o1, x);
    TwoRowsDiffer(env, rows, o1, x, o2, k);
    RowMoves(env, rows, [p], second, a, 1, o2, k, o1);
  }

  lemma {:induction false} SecondOfTwoMoves(rows: seq<Row>, plans: seq<RowPlan>)
    requires |rows| == 2 && Aligned(rows, plans) && WellPlanned(plans) && DistinctIds(rows)
    requires plans[0].newUrl.None? && plans[1].newUrl.Some? && plans[1].newUrl.value != rows[0].urlCdn
    ensures After(rows, plans, true, 2) == Ok(Moved(rows, plans, 2)) && !ReusesUrl(plans)
  {
    AppliesWhenFree(rows, plans, 2);
  }

  lemma {:induction false} TwoRowsApply(env: Env, rows: seq<Row>, p: string, o1: string, x: string, o2: string, k: string,
                                        second: set<string>, a: Artifact)
    requires TwoRows(env, rows, p, o1, x, o2, k) && At(o1, k) in second
    requires a == RunPlan(env, rows, [p], second)
    ensures Aligned(rows, a.plans) && Applies(rows, a.plans) && DistinctIds(rows) && DistinctUrls(rows)
    ensures Committed(rows, a.plans, true) == Moved(rows, a.plans, 2) && !ReusesUrl(a.plans)
  {
    TwoRowsPlan(env, rows, p, o1, x, o2, k, second, a);
    TwoRowsDiffer(env, rows, o1, x, o2, k);
    PlansAligned(env, rows, [p], second);
    AlignedIsWellPlanned(rows, a.plans);
    SecondOfTwoMoves(rows, a.plans);
  }

  /** Such tables exist in the script's own environment. */
  lemma {:induction false} TwoRowsExist(allowed: map<string, seq<string>>, rows: seq<Row>, p: string,
                                        o1: string, x: string, o2: string, k: string)
    requires p != "" && BareOrigins(allowed) && p in allowed && allowed[p] == [o1, o2] && o1 != o2
    requires PlainKey(x) && PlainKey(k) && x != k
    requires |rows| == 2 && rows[0].projectKey == p == rows[1].projectKey && rows[0].imageId != rows[1].imageId
    requires rows[0].urlCdn == At(o1, x)
    requires rows[1].urlCdn == At(o2, k) || rows[1].urlCdn == " " + At(o2, k)
    ensures TwoRows(CaseEnv(allowed), rows, p, o1, x, o2, k)
  {
    CaseEnvIsCaseLike(allowed);
    assert o1 in allowed[p] && o2 in allowed[p];
    IsStoredAt(allowed, rows[0], o1, x);
    IsStoredAt(allowed, rows[1], o2, k);
    PlainUrl(o1, k);
  }

  /**
   A quote in the key or the id of one rewritten row is enough: planning and
   applying go well, every URL is trimmed and none is reused, yet the script does
   not give the table back.
   */
  lemma {:induction false} QuoteBreaksRollback(env: Env, rows: seq<Row>, p: string, o1: string, x: string,
                                               o2: string, k: string, second: set<string>, a: Artifact)
    requires TwoRows(env, rows, p, o1, x, o2, k) && rows[1].urlCdn == At(o2, k) && At(o1, k) in second
    requires QUOTE in k || QUOTE in rows[1].imageId
    requires a == RunPlan(env, rows, [p], second)
    ensures |a.plans| == |rows| && Applies(rows, a.plans) && Unpadded(rows, a.plans) && !ReusesUrl(a.plans)
    ensures Rollback(Committed(rows, a.plans, true), a.plans) != Ok(rows)
  {
    TwoRowsPlan(env, rows, p, o1, x, o2, k, second, a);
    TwoRowsApply(env, rows, p, o1, x, o2, k, second, a);
    QuoteStays(o2, k);
    QuotedIsNotRestored(rows, a.plans, 1);
  }

  lemma QuoteStays(o: string, k: string)
    ensures QUOTE in At(o, k) <==> QUOTE in o || QUOTE in k
  {
    assert At(o, k) == o + "/" + k;
    if QUOTE in k {
      var i :| 0 <= i < |k| && k[i] == QUOTE;
      assert At(o, k)[|o| + 1 + i] == QUOTE;
    }
    if QUOTE in o {
      var i :| 0 <= i < |o| && o[i] == QUOTE;
      assert At(o, k)[i] == QUOTE;
    }
  }

  const DOUBLED := "a''b"
  const READ_AS := "a'b"

  lemma DoubledRest()
    ensures ReadRest(DOUBLED + [QUOTE] + ";") == Some((READ_AS, ";"))
  {
    var t := DOUBLED + [QUOTE] + ";";
    var t1, t3 := t[1..], t[3..];
    ReadPlain("b", ";");
    assert t3 == "b" + [QUOTE] + ";";
    assert t1[2..] == t3 && t1[0] == QUOTE && t1[1] == QUOTE;
    assert ReadRest(t1) == Some(([QUOTE] + "b", ";"));
    assert t[0] == 'a';
    assert ['a'] + ([QUOTE] + "b") == READ_AS;
  }

  /** The doubled quote of that id reads as one. */
  lemma DoubledReadsAsOne(p: RowPlan)
    requires p.imageId == DOUBLED && QUOTE !in p.oldUrl
    ensures ReadStatement(StatementText(p)) == Some((p.oldUrl, READ_AS))
  {
    var rest := Quoted(WHERE_ID, DOUBLED) + ";";
    ReadAfterPlain(SET_URL, p.oldUrl, rest);
    DoubledRest();
    assert rest[|WHERE_ID|..][1..] == DOUBLED + [QUOTE] + ";";
    assert WHERE_ID <= rest && rest[|WHERE_ID|..][0] == QUOTE;
  }

  /**
   Padding and a quote together can do no harm: the padded row is never moved,
   and the statement that should move it back names an id that no row has.
   */
  lemma {:induction false} PaddingMayHideQuotes(env: Env, rows: seq<Row>, p: string, o1: string, x: string,
                                                o2: string, k: string, second: set<string>, a: Artifact)
    requires TwoRows(env, rows, p, o1, x, o2, k) && rows[1].urlCdn != At(o2, k) && At(o1, k) in second
    requires rows[0].imageId != READ_AS && rows[1].imageId == DOUBLED && QUOTE !in o2 && QUOTE !in k
    requires a == RunPlan(env, rows, [p], second)
    ensures |a.plans| == |rows| && Applies(rows, a.plans) && !Unpadded(rows, a.plans) && !Quotable(a.plans)
    ensures Rollback(Committed(rows, a.plans, true), a.plans) == Ok(rows)
  {
    TwoRowsPlan(env, rows, p, o1, x, o2, k, second, a);
    TwoRowsApply(env, rows, p, o1, x, o2, k, second, a);
    QuoteStays(o2, k);
    assert Moved(rows, a.plans, 2) == rows;
    assert a.plans[1].imageId[1] == QUOTE;
    OneStatement(rows, a.plans);
  }

  lemma {:induction false} OneStatement(rows: seq<Row>, plans: seq<RowPlan>)
    requires |rows| == 2 == |plans| && plans[0].decision != Rewrite && plans[1].decision == Rewrite
    requires plans[1].imageId == DOUBLED && QUOTE !in plans[1].oldUrl
    requires rows[0].imageId != READ_AS && rows[1].imageId == DOUBLED
    ensures Rollback(rows, plans) == Ok(rows)
  {
    DoubledReadsAsOne(plans[1]);
    assert DOUBLED != READ_AS;
    assert Script(plans, 0) == [] && Script(plans, 1) == [];
    ScriptStep(plans, 1);
    var s := Script(plans, 2);
    assert RunScript(rows, s[..|s| - 1]) == Ok(rows);
    assert SetUrl(rows, READ_AS, None, plans[1].oldUrl).value == rows;
  }

  // ---------------------------------------------------------------- two projects sharing an origin

  /** The second row leaves origin `o2` for `o1`, and the third, of another project, takes its place there. */
  ghost predicate ThreeRows(env: Env, rows: seq<Row>, p: string, q: string, o1: string, o2: string, o3: string,
                            x: string, k: string) {
    && CaseLike(env) && Allowed(env, p) == [o1, o2] && Allowed(env, q) == [o2] && p != "" && q != ""
    && |rows| == 3 && rows[0].projectKey == p == rows[1].projectKey && rows[2].projectKey == q
    && PlacedAt(env, rows, o1, o2, o3, x, k)
  }

  ghost predicate PlacedAt(env: Env, rows: seq<Row>, o1: string, o2: string, o3: string, x: string, k: string)
    requires |rows| == 3
  {
    && ComesApart(env, o1, k) && x != k && DistinctIds(rows)
    && o1 != o2 && o2 != o3 && o1 != o3
    && StoredAt(env, rows[0], o1, x) && StoredAt(env, rows[1], o2, k) && StoredAt(env, rows[2], o3, k)
    && rows[0].urlCdn == At(o1, x) && rows[1].urlCdn == At(o2, k) && rows[2].urlCdn == At(o3, k)
  }

  lemma {:induction false} ThreeRowsExist(allowed: map<string, seq<string>>, rows: seq<Row>, p: string, q: string,
                                          o1: string, o2: string, o3: string, x: string, k: string)
    requires BareOrigins(allowed) && BareOrigin(o3) && o1 != o2 && o1 != o3 && o2 != o3
    requires p in allowed && q in allowed && allowed[p] == [o1, o2] && allowed[q] == [o2] && p != "" && q != ""
    requires PlainKey(x) && PlainKey(k) && x != k && |rows| == 3 && DistinctIds(rows)
    requires rows[0].projectKey == p == rows[1].projectKey && rows[2].projectKey == q
    requires rows[0].urlCdn == At(o1, x) && rows[1].urlCdn == At(o2, k) && rows[2].urlCdn == At(o3, k)
    ensures ThreeRows(CaseEnv(allowed), rows, p, q, o1, o2, o3, x, k)
  {
    CaseEnvIsCaseLike(allowed);
    assert o1 in allowed[p] && o2 in allowed[p];
    IsStoredAt(allowed, rows[0], o1, x);
    IsStoredAt(allowed, rows[1], o2, k);
    IsStoredAt(allowed, rows[2], o3, k);
    PlainUrl(o1, k);
  }

  lemma {:induction false} ThreeRowsDiffer(env: Env, rows: seq<Row>, o1: string, o2: string, o3: string, x: string, k: string)
    requires |rows| == 3 && PlacedAt(env, rows, o1, o2, o3, x, k)
    ensures NowhereStored(env, rows, At(o1, k)) && DistinctUrls(rows)
    ensures At(o1, k) != At(o1, x) && At(o1, k) != At(o3, k) && At(o1, k) != At(o2, k) && At(o2, k) != At(o1, x)
  {
    KeyDiffers(env, rows[0], o1, x, o1, k);
    KeyDiffers(env, rows[1], o2, k, o1, k);
    KeyDiffers(env, rows[2], o3, k, o1, k);
    KeyDiffers(env, rows[0], o1, x, o2, k);
    KeyDiffers(env, rows[0], o1, x, o3, k);
    KeyDiffers(env, rows[1], o2, k, o3, k);
  }

  lemma {:induction false} ThreeRowsChoice(env: Env, rows: seq<Row>, p: string, q: string, o1: string, o2: string,
                                           o3: string, x: string, k: string, second: set<string>, a: Artifact)
    requires ThreeRows(env, rows, p, q, o1, o2, o3, x, k) && a == RunPlan(env, rows, [p, q], second)
    ensures ChosenFor(a.chosen, p) == Some(o1) && ChosenFor(a.chosen, q) == Some(o2)
    ensures IsHealthy(FirstHealth(env, rows), At(o1, x)) && IsHealthy(FirstHealth(env, rows), At(o2, k))
  {
    ThreeRowsDiffer(env, rows, o1, o2, o3, x, k);
    FirstProbe(env, rows, 0, o1, x);
    FirstProbe(env, rows, 1, o2, k);
    ChosenFirst(env, rows, [p, q], second, a, p, o1);
    ChosenFirst(env, rows, [p, q], second, a, q, o2);
  }

  lemma {:induction false} ThreeRowsPlan(env: Env, rows: seq<Row>, p: string, q: string, o1: string, o2: string,
                                         o3: string, x: string, k: string, second: set<string>, a: Artifact)
    requires ThreeRows(env, rows, p, q, o1, o2, o3, x, k) && a == RunPlan(env, rows, [p, q], second)
    requires At(o1, k) in second
    ensures |a.plans| == 3 && a.plans[0].decision == KeepHealthy && a.plans[0].newUrl.None?
    ensures a.plans[1].decision == Rewrite && a.plans[1].oldUrl == At(o2, k) && a.plans[1].newUrl == Some(At(o1, k))
    ensures a.plans[2].decision == Rewrite && a.plans[2].oldUrl == At(o3, k) && a.plans[2].newUrl == Some(At(o2, k))
  {
    ThreeRowsChoice(env, rows, p, q, o1, o2, o3, x, k, second, a);
    ThreeRowsDiffer(env, rows, o1, o2, o3, x, k);
    RowStays(env, rows, [p, q], second, a, 0, o1, x);
    RowMoves(env, rows, [p, q], second, a, 1, o2, k, o1);
    RowMoves(env, rows, [p, q], second, a, 2, o3, k, o2);
  }

  lemma {:induction false} ThirdTakesPlaceOfSecond(rows: seq<Row>, plans: seq<RowPlan>)
    requires |rows| == 3 && Aligned(rows, plans) && WellPlanned(plans) && DistinctIds(rows) && DistinctUrls(rows)
    requires plans[0].newUrl.None? && plans[1].newUrl.Some? && plans[2].newUrl == Some(plans[1].oldUrl)
    requires plans[1].oldUrl == rows[1].urlCdn && plans[2].oldUrl == rows[2].urlCdn
    requires plans[1].newUrl.value != rows[0].urlCdn && plans[1].newUrl.value != rows[2].urlCdn
    ensures After(rows, plans, true, 3).Ok? && Unpadded(rows, plans) && ReusesUrl(plans)
    ensures Rollback(Committed(rows, plans, true), plans) != Ok(rows)
  {
    AppliesWhenFree(rows, plans, 3);
    RollbackUndoesApply(rows, plans);
  }

  /**
   The plan may move a row onto a URL that another row has just left: it applies,
   and the script then fails on that URL.
   */
  lemma {:induction false} PlannedReuseBreaksRollback(env: Env, rows: seq<Row>, p: string, q: string, o1: string,
                                                      o2: string, o3: string, x: string, k: string,
                                                      second: set<string>, a: Artifact)
    requires ThreeRows(env, rows, p, q, o1, o2, o3, x, k) && a == RunPlan(env, rows, [p, q], second)
    requires At(o1, k) in second
    ensures |a.plans| == |rows| && Applies(rows, a.plans) && Unpadded(rows, a.plans) && ReusesUrl(a.plans)
    ensures Rollback(Committed(rows, a.plans, true), a.plans) != Ok(rows)
  {
    ThreeRowsPlan(env, rows, p, q, o1, o2, o3, x, k, second, a);
    ThreeRowsDiffer(env, rows, o1, o2, o3, x, k);
    PlansAligned(env, rows, [p, q], second);
    AlignedIsWellPlanned(rows, a.plans);
    ThirdTakesPlaceOfSecond(rows, a.plans);
  }

  // ---------------------------------------------------------------- a URL stored twice, once padded

  /**
   Row 1 holds, padded, the URL on `o1` under key `x`; row 0 holds that key on
   origin `o`. Project `p` uses `o3`, project `q` prefers `o1` to `o2`.
   */
  ghost predicate FourRows(env: Env, rows: seq<Row>, p: string, q: string, o: string, o1: string, o2: string, o3: string,
                           x: string, y: string, z: string) {
    && CaseLike(env) && Allowed(env, p) == [o3] && Allowed(env, q) == [o1, o2] && p != "" && q != ""
    && |rows| == 4 && rows[0].projectKey == p == rows[3].projectKey && rows[1].projectKey == q == rows[2].projectKey
    && PadPlaced(env, rows, o, o1, o2, o3, x, y, z)
  }

  ghost predicate PadPlaced(env: Env, rows: seq<Row>, o: string, o1: string, o2: string, o3: string,
                            x: string, y: string, z: string)
    requires |rows| == 4
  {
    && ComesApart(env, o3, x) && ComesApart(env, o2, x) && ComesApart(env, o1, y) && DistinctIds(rows)
    && o != o2 && o1 != o2 && o2 != o3 && o1 != o3 && x != y && x != z
    && StoredAt(env, rows[0], o, x) && StoredAt(env, rows[1], o1, x) && StoredAt(env, rows[2], o2, y) && StoredAt(env, rows[3], o3, z)
    && rows[0].urlCdn == At(o, x) && rows[1].urlCdn != At(o1, x) && rows[2].urlCdn == At(o2, y) && rows[3].urlCdn == At(o3, z)
  }

  lemma {:induction false} PadPlacedExists(allowed: map<string, seq<string>>, rows: seq<Row>,
                                           o1: string, o2: string, o3: string, x: string, y: string, z: string)
    requires BareOrigin(o1) && BareOrigin(o2) && BareOrigin(o3) && o1 != o2 && o1 != o3 && o2 != o3
    requires PlainKey(x) && PlainKey(y) && PlainKey(z) && x != y && x != z && |rows| == 4 && DistinctIds(rows)
    requires rows[0].urlCdn == At(o1, x) && rows[1].urlCdn == " " + At(o1, x)
    requires rows[2].urlCdn == At(o2, y) && rows[3].urlCdn == At(o3, z)
    ensures PadPlaced(CaseEnv(allowed), rows, o1, o1, o2, o3, x, y, z)
  {
    IsStoredAt(allowed, rows[0], o1, x);
    IsStoredAt(allowed, rows[1], o1, x);
    IsStoredAt(allowed, rows[2], o2, y);
    IsStoredAt(allowed, rows[3], o3, z);
    PlainUrl(o3, x);
    PlainUrl(o2, x);
    PlainUrl(o1, y);
  }

  lemma {:induction false} FourRowsExist(allowed: map<string, seq<string>>, rows: seq<Row>, p: string, q: string,
                                         o1: string, o2: string, o3: string, x: string, y: string, z: string)
    requires BareOrigin(o1) && BareOrigin(o2) && BareOrigin(o3) && o1 != o2 && o1 != o3 && o2 != o3
    requires BareOrigins(allowed) && p in allowed && q in allowed && allowed[p] == [o3] && allowed[q] == [o1, o2]
    requires PlainKey(x) && PlainKey(y) && PlainKey(z) && x != y && x != z && |rows| == 4 && DistinctIds(rows)
    requires p != "" && q != ""
    requires rows[0].projectKey == p == rows[3].projectKey && rows[1].projectKey == q == rows[2].projectKey
    requires rows[0].urlCdn == At(o1, x) && rows[1].urlCdn == " " + At(o1, x)
    requires rows[2].urlCdn == At(o2, y) && rows[3].urlCdn == At(o3, z)
    ensures FourRows(CaseEnv(allowed), rows, p, q, o1, o1, o2, o3, x, y, z)
  {
    CaseEnvIsCaseLike(allowed);
    PadPlacedExists(allowed, rows, o1, o2, o3, x, y, z);
  }

  ghost predicate ProbedInVain(env: Env, h: Health, row: Row, o: string) {
    KeyOf(env, row).Some? && ParseUrl(env, row.urlCdn).value.origin == o ==> !IsHealthy(h, KeyOf(env, row).value)
  }

  lemma InVain(env: Env, h: Health, row: Row, o: string, k: string, o1: string)
    requires StoredAt(env, row, o, k) && (o == o1 ==> !IsHealthy(h, At(o, k)))
    ensures ProbedInVain(env, h, row, o1)
  {
  }

  /** The origin is not among the healthy ones when every row stored on it was probed in vain. */
  lemma {:induction false} OriginUnseen(env: Env, rows: seq<Row>, o: string)
    requires UrlLaws(env)
    requires forall i :: 0 <= i < |rows| ==> ProbedInVain(env, FirstHealth(env, rows), rows[i], o)
    ensures o !in HealthyOrigins(env, FirstHealth(env, rows))
  {
    var h := FirstHealth(env, rows);
    forall u | IsHealthy(h, u) && ParseUrl(env, u).Some? ensures ParseUrl(env, u).value.origin != o {
      var k := ProbedFor(env, rows, u);
      ParseTrimmed(env, rows[k].urlCdn);
      assert ProbedInVain(env, h, rows[k], o);
    }
  }

  lemma {:induction false} ChosenSecond(env: Env, rows: seq<Row>, projectKeys: seq<string>, second: set<string>, a: Artifact,
                                        p: string, o: string, o2: string)
    requires a == RunPlan(env, rows, projectKeys, second) && p in projectKeys && Allowed(env, p) == [o, o2]
    requires o !in HealthyOrigins(env, FirstHealth(env, rows)) && o2 in HealthyOrigins(env, FirstHealth(env, rows))
    ensures ChosenFor(a.chosen, p) == Some(o2)
  {
    assert [o, o2][1..] == [o2];
    assert FirstIn([o2], HealthyOrigins(env, FirstHealth(env, rows))) == Some(o2);
  }

  lemma {:induction false} FourKeys(env: Env, rows: seq<Row>, o: string, o1: string, o2: string, o3: string,
                                    x: string, y: string, z: string)
    requires |rows| == 4 && PadPlaced(env, rows, o, o1, o2, o3, x, y, z)
    ensures FirstUnder(rows, 0, At(o, x)) && FirstUnder(rows, 2, At(o2, y)) && FirstUnder(rows, 3, At(o3, z))
    ensures o != o1 ==> FirstUnder(rows, 1, At(o1, x))
  {
  }

  ghost predicate SeenFirst(env: Env, rows: seq<Row>, o1: string, o2: string, o3: string, x: string, y: string, z: string) {
    var h := FirstHealth(env, rows);
    && IsHealthy(h, At(o2, y)) && IsHealthy(h, At(o3, z)) && !IsHealthy(h, At(o1, x))
    && o2 in HealthyOrigins(env, h) && o3 in HealthyOrigins(env, h)
  }

  lemma {:induction false} FourRowsFirst(env: Env, rows: seq<Row>, p: string, q: string, o1: string, o2: string, o3: string,
                                         x: string, y: string, z: string)
    requires FourRows(env, rows, p, q, o1, o1, o2, o3, x, y, z)
    ensures SeenFirst(env, rows, o1, o2, o3, x, y, z)
  {
    FourKeys(env, rows, o1, o1, o2, o3, x, y, z);
    FirstProbe(env, rows, 0, o1, x);
    FirstProbe(env, rows, 2, o2, y);
    FirstProbe(env, rows, 3, o3, z);
  }

  lemma {:induction false} AllInVain(env: Env, h: Health, rows: seq<Row>, o1: string, o2: string, o3: string,
                                              x: string, y: string, z: string)
    requires |rows| == 4 && PadPlaced(env, rows, o1, o1, o2, o3, x, y, z) && !IsHealthy(h, At(o1, x))
    ensures forall i :: 0 <= i < |rows| ==> ProbedInVain(env, h, rows[i], o1)
  {
    InVain(env, h, rows[0], o1, x, o1);
    InVain(env, h, rows[1], o1, x, o1);
    InVain(env, h, rows[2], o2, y, o1);
    InVain(env, h, rows[3], o3, z, o1);
  }

  lemma {:induction false} FourRowsChoice(env: Env, rows: seq<Row>, p: string, q: string, o1: string, o2: string, o3: string,
                                          x: string, y: string, z: string, second: set<string>, a: Artifact)
    requires FourRows(env, rows, p, q, o1, o1, o2, o3, x, y, z) && a == RunPlan(env, rows, [p, q], second)
    ensures ChosenFor(a.chosen, p) == Some(o3) && ChosenFor(a.chosen, q) == Some(o2)
  {
    FourRowsFirst(env, rows, p, q, o1, o2, o3, x, y, z);
    AllInVain(env, FirstHealth(env, rows), rows, o1, o2, o3, x, y, z);
    OriginUnseen(env, rows, o1);
    ChosenFirst(env, rows, [p, q], second, a, p, o3);
    ChosenSecond(env, rows, [p, q], second, a, q, o1, o2);
  }

  lemma {:induction false} NewOnFour(env: Env, rows: seq<Row>, o: string, o1: string, o2: string, o3: string,
                                     x: string, y: string, z: string, c: string, k: string)
    requires |rows| == 4 && PadPlaced(env, rows, o, o1, o2, o3, x, y, z) && ComesApart(env, c, k)
    requires (c != o || k != x) && (c != o1 || k != x) && (c != o2 || k != y) && (c != o3 || k != z)
    ensures NowhereStored(env, rows, At(c, k)) && forall i :: 0 <= i < 4 ==> rows[i].urlCdn != At(c, k)
  {
    KeyDiffers(env, rows[0], o, x, c, k);
    KeyDiffers(env, rows[1], o1, x, c, k);
    KeyDiffers(env, rows[2], o2, y, c, k);
    KeyDiffers(env, rows[3], o3, z, c, k);
  }

  lemma {:induction false} FirstOfFourMoves(env: Env, rows: seq<Row>, p: string, q: string, o1: string, o2: string, o3: string,
                                        x: string, y: string, z: string, second: set<string>, a: Artifact)
    requires FourRows(env, rows, p, q, o1, o1, o2, o3, x, y, z) && a == RunPlan(env, rows, [p, q], second)
    requires At(o3, x) in second
    ensures a.plans[0].decision == Rewrite && a.plans[0].oldUrl == At(o1, x) && a.plans[0].newUrl == Some(At(o3, x))
  {
    FourRowsChoice(env, rows, p, q, o1, o2, o3, x, y, z, second, a);
    NewOnFour(env, rows, o1, o1, o2, o3, x, y, z, o3, x);
    RowMoves(env, rows, [p, q], second, a, 0, o1, x, o3);
  }

  lemma {:induction false} SecondOfFourIsPlanned(env: Env, rows: seq<Row>, p: string, q: string, o1: string, o2: string, o3: string,
                                        x: string, y: string, z: string, second: set<string>, a: Artifact)
    requires FourRows(env, rows, p, q, o1, o1, o2, o3, x, y, z) && a == RunPlan(env, rows, [p, q], second)
    requires At(o2, x) in second
    ensures a.plans[1].decision == Rewrite && a.plans[1].oldUrl == At(o1, x) && a.plans[1].newUrl == Some(At(o2, x))
  {
    FourRowsChoice(env, rows, p, q, o1, o2, o3, x, y, z, second, a);
    NewOnFour(env, rows, o1, o1, o2, o3, x, y, z, o2, x);
    RowMoves(env, rows, [p, q], second, a, 1, o1, x, o2);
  }

  lemma {:induction false} OthersOfFourStay(env: Env, rows: seq<Row>, p: string, q: string, o1: string, o2: string, o3: string,
                                        x: string, y: string, z: string, second: set<string>, a: Artifact)
    requires FourRows(env, rows, p, q, o1, o1, o2, o3, x, y, z) && a == RunPlan(env, rows, [p, q], second)
    ensures a.plans[2].decision == KeepHealthy && a.plans[3].decision == KeepHealthy
  {
    FourRowsChoice(env, rows, p, q, o1, o2, o3, x, y, z, second, a);
    FourRowsFirst(env, rows, p, q, o1, o2, o3, x, y, z);
    RowStays(env, rows, [p, q], second, a, 2, o2, y);
    RowStays(env, rows, [p, q], second, a, 3, o3, z);
  }

  /** What `--execute` writes when both projects have an origin and the plan applies. */
  lemma {:induction false} ExecuteCommits(env: Env, rows: seq<Row>, p: string, q: string, second: set<string>,
                                          a: Artifact, next: seq<Row>)
    requires a == RunPlan(env, rows, [p, q], second) && WellPlanned(a.plans) && NoReview(a.plans)
    requires After(rows, a.plans, true, |a.plans|) == Ok(next)
    requires ChosenFor(a.chosen, p).Some? && ChosenFor(a.chosen, q).Some?
    ensures Execute(env, rows, [p, q], second) == next
  {
  }

  /** The plans of the first run: `c` for row 0, `d` for the padded row 1, nothing for the others. */
  ghost predicate FirstPlans(rows: seq<Row>, plans: seq<RowPlan>, u: string, c: string, d: string) {
    && |rows| == 4 && Aligned(rows, plans) && NoReview(plans)
    && plans[0].oldUrl == u == plans[1].oldUrl && plans[0].newUrl == Some(c) && plans[1].newUrl == Some(d)
    && plans[2].newUrl.None? && plans[3].newUrl.None?
  }

  /** The plan of the second run: `c` for row 2. */
  ghost predicate SecondPlans(rows: seq<Row>, plans: seq<RowPlan>, u: string, c: string) {
    && |rows| == 4 && Aligned(rows, plans) && NoReview(plans)
    && plans[2].oldUrl == u && plans[2].newUrl == Some(c)
    && plans[0].newUrl.None? && plans[1].newUrl.None? && plans[3].newUrl.None?
  }

  lemma {:induction false} FirstPlansApply(rows: seq<Row>, plans: seq<RowPlan>, u: string, c: string, d: string)
    requires FirstPlans(rows, plans, u, c, d) && WellPlanned(plans) && DistinctIds(rows) && c != d
    requires rows[0].urlCdn == u && rows[1].urlCdn != u
    requires forall i :: 0 <= i < 4 ==> rows[i].urlCdn != c && rows[i].urlCdn != d
    ensures After(rows, plans, true, 4) == Ok(rows[0 := rows[0].(urlCdn := c)])
  {
    AppliesWhenFree(rows, plans, 4);
    assert Moved(rows, plans, 4) == rows[0 := rows[0].(urlCdn := c)];
  }

  lemma {:induction false} SecondPlansApply(rows: seq<Row>, plans: seq<RowPlan>, u: string, c: string)
    requires SecondPlans(rows, plans, u, c) && WellPlanned(plans) && DistinctIds(rows) && rows[2].urlCdn == u
    requires forall i :: 0 <= i < 4 ==> rows[i].urlCdn != c
    ensures After(rows, plans, true, 4) == Ok(rows[2 := rows[2].(urlCdn := c)])
  {
    AppliesWhenFree(rows, plans, 4);
    assert Moved(rows, plans, 4) == rows[2 := rows[2].(urlCdn := c)];
  }

  lemma {:induction false} NothingToReview(rows: seq<Row>, plans: seq<RowPlan>)
    requires |rows| == 4 && Aligned(rows, plans)
    requires plans[0].decision != ManualReview && plans[1].decision != ManualReview
    requires plans[2].decision != ManualReview && plans[3].decision != ManualReview
    ensures NoReview(plans)
  {
    assert plans == [plans[0], plans[1], plans[2], plans[3]];
  }

  lemma {:induction false} FourRowsPlanned(env: Env, rows: seq<Row>, p: string, q: string, o1: string, o2: string, o3: string,
                                           x: string, y: string, z: string, second: set<string>, a: Artifact)
    requires FourRows(env, rows, p, q, o1, o1, o2, o3, x, y, z) && a == RunPlan(env, rows, [p, q], second)
    requires At(o3, x) in second && At(o2, x) in second
    ensures FirstPlans(rows, a.plans, At(o1, x), At(o3, x), At(o2, x))
  {
    PlansAligned(env, rows, [p, q], second);
    FirstOfFourMoves(env, rows, p, q, o1, o2, o3, x, y, z, second, a);
    SecondOfFourIsPlanned(env, rows, p, q, o1, o2, o3, x, y, z, second, a);
    OthersOfFourStay(env, rows, p, q, o1, o2, o3, x, y, z, second, a);
    NothingToReview(rows, a.plans);
  }

  /** The first run: row 0 leaves the shared URL, the padded row stays on it. */
  lemma {:induction false} FirstRun(env: Env, rows: seq<Row>, p: string, q: string, o1: string, o2: string, o3: string,
                                    x: string, y: string, z: string, second: set<string>, next: seq<Row>)
    requires FourRows(env, rows, p, q, o1, o1, o2, o3, x, y, z) && At(o3, x) in second && At(o2, x) in second
    requires next == rows[0 := rows[0].(urlCdn := At(o3, x))]
    ensures Execute(env, rows, [p, q], second) == next
  {
    var a := RunPlan(env, rows, [p, q], second);
    FirstPlanApplies(env, rows, p, q, o1, o2, o3, x, y, z, second, a, next);
    FourRowsChoice(env, rows, p, q, o1, o2, o3, x, y, z, second, a);
    ExecuteCommits(env, rows, p, q, second, a, next);
  }

  lemma {:induction false} FirstPlanApplies(env: Env, rows: seq<Row>, p: string, q: string, o1: string, o2: string, o3: string,
                                            x: string, y: string, z: string, second: set<string>, a: Artifact, next: seq<Row>)
    requires FourRows(env, rows, p, q, o1, o1, o2, o3, x, y, z) && At(o3, x) in second && At(o2, x) in second
    requires a == RunPlan(env, rows, [p, q], second) && next == rows[0 := rows[0].(urlCdn := At(o3, x))]
    ensures WellPlanned(a.plans) && NoReview(a.plans) && After(rows, a.plans, true, |a.plans|) == Ok(next)
  {
    FourRowsPlanned(env, rows, p, q, o1, o2, o3, x, y, z, second, a);
    AlignedIsWellPlanned(rows, a.plans);
    NewOnFour(env, rows, o1, o1, o2, o3, x, y, z, o3, x);
    NewOnFour(env, rows, o1, o1, o2, o3, x, y, z, o2, x);
    FirstPlansApply(rows, a.plans, At(o1, x), At(o3, x), At(o2, x));
  }

  /** Once row 0 has gone, the shared URL is probed for the padded row's project, which lets it through. */
  lemma {:induction false} SecondFirstRound(env: Env, rows: seq<Row>, p: string, q: string, o1: string, o2: string, o3: string,
                                         x: string, y: string, z: string)
    requires FourRows(env, rows, p, q, o3, o1, o2, o3, x, y, z)
    ensures var h := FirstHealth(env, rows);
            && IsHealthy(h, At(o3, x)) && IsHealthy(h, At(o1, x)) && IsHealthy(h, At(o3, z))
            && o1 in HealthyOrigins(env, h) && o3 in HealthyOrigins(env, h)
  {
    FourKeys(env, rows, o3, o1, o2, o3, x, y, z);
    FirstProbe(env, rows, 0, o3, x);
    FirstProbe(env, rows, 1, o1, x);
    FirstProbe(env, rows, 3, o3, z);
  }

  lemma {:induction false} SecondChoice(env: Env, rows: seq<Row>, p: string, q: string, o1: string, o2: string, o3: string,
                                         x: string, y: string, z: string, third: set<string>, a: Artifact)
    requires FourRows(env, rows, p, q, o3, o1, o2, o3, x, y, z) && a == RunPlan(env, rows, [p, q], third)
    ensures ChosenFor(a.chosen, p) == Some(o3) && ChosenFor(a.chosen, q) == Some(o1)
  {
    SecondFirstRound(env, rows, p, q, o1, o2, o3, x, y, z);
    ChosenFirst(env, rows, [p, q], third, a, p, o3);
    ChosenFirst(env, rows, [p, q], third, a, q, o1);
  }

  lemma {:induction false} ThirdOfFourMoves(env: Env, rows: seq<Row>, p: string, q: string, o1: string, o2: string, o3: string,
                                         x: string, y: string, z: string, third: set<string>, a: Artifact)
    requires FourRows(env, rows, p, q, o3, o1, o2, o3, x, y, z) && a == RunPlan(env, rows, [p, q], third)
    requires At(o1, y) in third
    ensures a.plans[2].decision == Rewrite && a.plans[2].oldUrl == At(o2, y) && a.plans[2].newUrl == Some(At(o1, y))
  {
    SecondChoice(env, rows, p, q, o1, o2, o3, x, y, z, third, a);
    NewOnFour(env, rows, o3, o1, o2, o3, x, y, z, o1, y);
    RowMoves(env, rows, [p, q], third, a, 2, o2, y, o1);
  }

  lemma {:induction false} SettledOfFourStay(env: Env, rows: seq<Row>, p: string, q: string, o1: string, o2: string, o3: string,
                                         x: string, y: string, z: string, third: set<string>, a: Artifact)
    requires FourRows(env, rows, p, q, o3, o1, o2, o3, x, y, z) && a == RunPlan(env, rows, [p, q], third)
    ensures a.plans[0].decision == KeepHealthy && a.plans[1].decision == KeepHealthy && a.plans[3].decision == KeepHealthy
  {
    SecondFirstRound(env, rows, p, q, o1, o2, o3, x, y, z);
    SecondChoice(env, rows, p, q, o1, o2, o3, x, y, z, third, a);
    RowStays(env, rows, [p, q], third, a, 0, o3, x);
    RowStays(env, rows, [p, q], third, a, 1, o1, x);
    RowStays(env, rows, [p, q], third, a, 3, o3, z);
  }

  lemma {:induction false} SecondPlanned(env: Env, rows: seq<Row>, p: string, q: string, o1: string, o2: string, o3: string,
                                         x: string, y: string, z: string, third: set<string>, a: Artifact)
    requires FourRows(env, rows, p, q, o3, o1, o2, o3, x, y, z) && a == RunPlan(env, rows, [p, q], third)
    requires At(o1, y) in third
    ensures SecondPlans(rows, a.plans, At(o2, y), At(o1, y))
  {
    PlansAligned(env, rows, [p, q], third);
    ThirdOfFourMoves(env, rows, p, q, o1, o2, o3, x, y, z, third, a);
    SettledOfFourStay(env, rows, p, q, o1, o2, o3, x, y, z, third, a);
    NothingToReview(rows, a.plans);
  }

  lemma {:induction false} SecondRun(env: Env, rows: seq<Row>, p: string, q: string, o1: string, o2: string, o3: string,
                                         x: string, y: string, z: string, third: set<string>)
    requires FourRows(env, rows, p, q, o3, o1, o2, o3, x, y, z) && At(o1, y) in third
    ensures Execute(env, rows, [p, q], third) == rows[2 := rows[2].(urlCdn := At(o1, y))]
  {
    var a := RunPlan(env, rows, [p, q], third);
    SecondPlanApplies(env, rows, p, q, o1, o2, o3, x, y, z, third, a);
    SecondChoice(env, rows, p, q, o1, o2, o3, x, y, z, third, a);
    ExecuteCommits(env, rows, p, q, third, a, rows[2 := rows[2].(urlCdn := At(o1, y))]);
  }

  lemma {:induction false} SecondPlanApplies(env: Env, rows: seq<Row>, p: string, q: string, o1: string, o2: string, o3: string,
                                             x: string, y: string, z: string, third: set<string>, a: Artifact)
    requires FourRows(env, rows, p, q, o3, o1, o2, o3, x, y, z) && At(o1, y) in third
    requires a == RunPlan(env, rows, [p, q], third)
    ensures WellPlanned(a.plans) && NoReview(a.plans)
    ensures After(rows, a.plans, true, |a.plans|) == Ok(rows[2 := rows[2].(urlCdn := At(o1, y))])
  {
    SecondPlanned(env, rows, p, q, o1, o2, o3, x, y, z, third, a);
    AlignedIsWellPlanned(rows, a.plans);
    NewOnFour(env, rows, o3, o1, o2, o3, x, y, z, o1, y);
    SecondPlansApply(rows, a.plans, At(o2, y), At(o1, y));
  }

  lemma {:induction false} FirstRunLeavesFour(env: Env, rows: seq<Row>, p: string, q: string, o1: string, o2: string, o3: string,
                                         x: string, y: string, z: string, next: seq<Row>)
    requires FourRows(env, rows, p, q, o1, o1, o2, o3, x, y, z)
    requires next == rows[0 := rows[0].(urlCdn := At(o3, x))]
    ensures FourRows(env, next, p, q, o3, o1, o2, o3, x, y, z)
  {
    assert BuiltParsesBack(env, o3, x, At(o3, x));
  }

  /**
   Where a URL is stored twice, once padded, `--execute` can move rows again: the
   first run takes the trimmed row away, and the padded one, left behind, makes
   another origin healthy for its own project.
   */
  lemma {:induction false} SharedPaddedUrlMovesAgain(env: Env, rows: seq<Row>, p: string, q: string, o1: string, o2: string, o3: string,
                                         x: string, y: string, z: string, second: set<string>, third: set<string>)
    requires FourRows(env, rows, p, q, o1, o1, o2, o3, x, y, z)
    requires At(o3, x) in second && At(o2, x) in second && At(o1, y) in third
    ensures var next := Execute(env, rows, [p, q], second);
            next != rows && Execute(env, next, [p, q], third) != next
  {
    var next := rows[0 := rows[0].(urlCdn := At(o3, x))];
    FirstRun(env, rows, p, q, o1, o2, o3, x, y, z, second, next);
    FirstRunLeavesFour(env, rows, p, q, o1, o2, o3, x, y, z, next);
    SecondRun(env, next, p, q, o1, o2, o3, x, y, z, third);
    NewOnFour(env, rows, o1, o1, o2, o3, x, y, z, o3, x);
    NewOnFour(env, next, o3, o1, o2, o3, x, y, z, o1, y);
  }
}
