/**
 Running the origin migration again, on any table: exactly when a second run
 writes, and exactly when it finds everything settled. What decides are the rows
 left behind, planned but stored with white space around their URL.
 */
module CdnAgain {
  import opened Common
  import opened MediaUrl
  import opened Text
  import opened CdnMigration
  import opened CdnFixpoint

  /** A first run that was applied, and room for every URL in the first probe round of the next one. */
  ghost predicate Ran(env: Env, rows: seq<Row>, projectKeys: seq<string>, second: set<string>, a: Artifact, next: seq<Row>) {
    && ValidEnv(env) && DistinctIds(rows)
    && a == RunPlan(env, rows, projectKeys, second) && Applies(rows, a.plans) && |a.plans| == |rows|
    && next == Committed(rows, a.plans, true) && FitsFirstRound(env, next)
  }

  /** To be rewritten, but out of reach of the guarded update. */
  predicate LeftBehind(rows: seq<Row>, plans: seq<RowPlan>, k: nat)
    requires |plans| == |rows|
  {
    k < |rows| && plans[k].newUrl.Some? && rows[k].urlCdn != plans[k].oldUrl
  }

  /** The next run's first round sees this row's URL answer 200. */
  predicate Seen(env: Env, next: seq<Row>, i: nat)
    requires i < |next|
  {
    IsHealthy(FirstHealth(env, next), Strip(next[i].urlCdn))
  }

  /** This origin stands before that one. */
  predicate Before(origins: seq<string>, o: string, chosen: string) {
    exists j :: 0 <= j < |origins| && origins[j] == o && chosen !in origins[..j + 1]
  }

  /** A row left behind, now seen, opens for this project an origin that comes before its chosen one. */
  ghost predicate OpensEarlier(env: Env, rows: seq<Row>, a: Artifact, next: seq<Row>, project: string)
    requires |a.plans| == |rows| == |next|
  {
    && ChosenFor(a.chosen, project).Some?
    && exists k: nat ::
         && LeftBehind(rows, a.plans, k) && Seen(env, next, k) && ParseUrl(env, next[k].urlCdn).Some?
         && Before(Allowed(env, project), ParseUrl(env, next[k].urlCdn).value.origin, ChosenFor(a.chosen, project).value)
  }

  /** This row's URL is now probed for the project of a row left behind, which does not get a 200. */
  ghost predicate LosesProbe(env: Env, rows: seq<Row>, a: Artifact, next: seq<Row>, i: nat)
    requires |a.plans| == |rows| == |next| && i < |next|
  {
    exists k: nat ::
      && LeftBehind(rows, a.plans, k) && KeyOf(env, next[k]) == Some(Strip(next[i].urlCdn))
      && Strip(next[i].urlCdn) in Collect(env, next).project
      && Collect(env, next).project[Strip(next[i].urlCdn)] == next[k].projectKey
      && Probe(env, Strip(next[i].urlCdn), next[k].projectKey) != Some(HEALTHY_STATUS)
  }

  // ---------------------------------------------------------------- evidence

  lemma {:induction false} ProjectsStay(env: Env, chosen: Chosen, s: Phase, rows: seq<Row>)
    ensures var t := AddCandidates(env, chosen, s, rows);
            forall u :: u in s.inv.project ==> u in t.inv.project && t.inv.project[u] == s.inv.project[u]
  {
    if rows != [] {
      ProjectsStay(env, chosen, s, rows[..|rows| - 1]);
    }
  }

  /** A stored URL answers the second round as it did the first. */
  lemma {:induction false} SecondRoundAgrees(env: Env, rows: seq<Row>, chosen: Chosen, second: set<string>, u: string)
    requires u in FirstHealth(env, rows)
    ensures IsHealthy(FinalHealth(env, rows, chosen, second), u) <==> IsHealthy(FirstHealth(env, rows), u)
  {
    var s := Phase(Collect(env, rows), FirstHealth(env, rows));
    ProjectsStay(env, chosen, s, rows);
    CandidatesAreUnanswered(env, chosen, s, rows);
    HealthIsEvidence(env, rows, chosen, second);
  }

  // ---------------------------------------------------------------- rows after the first run

  /** What is known of row `i` after an applied run. */
  lemma {:induction false} AfterRun(env: Env, rows: seq<Row>, projectKeys: seq<string>, second: set<string>,
                                    a: Artifact, next: seq<Row>, i: nat)
    requires Ran(env, rows, projectKeys, second, a, next) && i < |rows|
    ensures |next| == |rows| && DistinctIds(next)
    ensures next[i].projectKey == rows[i].projectKey && ChosenFor(a.chosen, next[i].projectKey).Some?
    ensures PicksFrom(env, a.chosen, HealthyOrigins(env, FirstHealth(env, rows)))
    ensures if LeftBehind(rows, a.plans, i) then
              next[i] == rows[i] && Strip(next[i].urlCdn) != next[i].urlCdn && ParseUrl(env, next[i].urlCdn).Some?
            else
              && Landed(env, a.chosen, next[i])
              && (ParseUrl(env, next[i].urlCdn).Some? <==>
                    (Rewrites(a.plans, i) ==> KeySurvives(env.unquote, a.plans[i].objectKey)))
  {
    AppliedIsMoved(env, rows, projectKeys, second, a, next);
    AppliedRowLands(env, rows, projectKeys, second, a, next, i);
  }

  lemma {:induction false} LandedIsSeen(env: Env, next: seq<Row>, chosen: Chosen, healthy: set<string>, u: string, k: nat)
    requires ValidEnv(env) && PicksFrom(env, chosen, healthy)
    requires k < |next| && Landed(env, chosen, next[k]) && KeyOf(env, next[k]) == Some(u)
    ensures Probe(env, u, next[k].projectKey) == Some(HEALTHY_STATUS)
  {
    ChosenIsBare(env, chosen, healthy, next[k].projectKey);
    OwnOriginProbes(env, next[k]);
  }

  lemma {:induction false} InInventory(env: Env, next: seq<Row>, chosen: Chosen, healthy: set<string>, i: nat)
    requires ValidEnv(env) && PicksFrom(env, chosen, healthy)
    requires i < |next| && ChosenFor(chosen, next[i].projectKey).Some? && ParseUrl(env, next[i].urlCdn).Some?
    ensures KeyOf(env, next[i]) == Some(Strip(next[i].urlCdn))
    ensures Strip(next[i].urlCdn) in Collect(env, next).project
  {
    ChosenIsBare(env, chosen, healthy, next[i].projectKey);
    Collected(env, next);
  }

  /** A landed row that parses is seen again unless it loses its probe. */
  lemma {:induction false} SeenUnlessLost(env: Env, rows: seq<Row>, projectKeys: seq<string>, second: set<string>,
                                          a: Artifact, next: seq<Row>, i: nat)
    requires Ran(env, rows, projectKeys, second, a, next) && |next| == |rows|
    requires i < |rows| && !LeftBehind(rows, a.plans, i) && ParseUrl(env, next[i].urlCdn).Some?
    ensures Seen(env, next, i) <==> !LosesProbe(env, rows, a, next, i)
  {
    var healthy, u := HealthyOrigins(env, FirstHealth(env, rows)), Strip(next[i].urlCdn);
    AfterRun(env, rows, projectKeys, second, a, next, i);
    InInventory(env, next, a.chosen, healthy, i);
    var k := ProbedFor(env, next, u);
    AfterRun(env, rows, projectKeys, second, a, next, k);
    if !LeftBehind(rows, a.plans, k) {
      LandedIsSeen(env, next, a.chosen, healthy, u, k);
    }
  }

  // ---------------------------------------------------------------- the choice

  lemma {:induction false} EarlierWins(origins: seq<string>, healthy: set<string>, o: string, chosen: string)
    requires Before(origins, o, chosen) && o in healthy
    ensures FirstIn(origins, healthy) != Some(chosen)
  {
    FirstInIsLeast(origins, healthy, chosen);
    var j :| 0 <= j < |origins| && origins[j] == o && chosen !in origins[..j + 1];
    forall i | 0 <= i <= j ensures origins[i] != chosen {
      assert origins[..j + 1][i] == origins[i];
    }
  }

  /** If the choice moves although the old origin is still healthy, an origin before it has become healthy. */
  lemma {:induction false} ChoiceMovesFor(origins: seq<string>, before: set<string>, after: set<string>, chosen: string)
    returns (o: string)
    requires FirstIn(origins, before) == Some(chosen) && chosen in after && FirstIn(origins, after) != Some(chosen)
    ensures o in after && o !in before && Before(origins, o, chosen)
  {
    FirstInIsLeast(origins, before, chosen);
    var i :| 0 <= i < |origins| && origins[i] == chosen && forall j :: 0 <= j < i ==> origins[j] !in before;
    FirstInIsLeast(origins, after, chosen);
    var j :| 0 <= j < i && origins[j] in after;
    o := origins[j];
    assert forall m :: 0 <= m < |origins[..j + 1]| ==> origins[..j + 1][m] == origins[m];
    assert origins[j] == o && chosen !in origins[..j + 1];
  }

  /** An origin that only the next run sees healthy is that of a row left behind. */
  lemma {:induction false} NewOriginIsLeftBehind(env: Env, rows: seq<Row>, projectKeys: seq<string>, second: set<string>,
                                                 a: Artifact, next: seq<Row>, o: string) returns (k: nat)
    requires Ran(env, rows, projectKeys, second, a, next) && |next| == |rows|
    requires o in HealthyOrigins(env, FirstHealth(env, next)) && o !in HealthyOrigins(env, FirstHealth(env, rows))
    ensures LeftBehind(rows, a.plans, k) && Seen(env, next, k)
    ensures ParseUrl(env, next[k].urlCdn).Some? && ParseUrl(env, next[k].urlCdn).value.origin == o
  {
    var h := FirstHealth(env, next);
    var u :| u in h && h[u] == Some(HEALTHY_STATUS) && ParseUrl(env, u).Some? && ParseUrl(env, u).value.origin == o;
    k := ProbedFor(env, next, u);
    ParseTrimmed(env, next[k].urlCdn);
    AfterRun(env, rows, projectKeys, second, a, next, k);
    if !LeftBehind(rows, a.plans, k) {
      LandedOrigin(env, a.chosen, HealthyOrigins(env, FirstHealth(env, rows)), next[k]);
    }
  }

  /** With its old origin still healthy, a project is given another one exactly when a row left behind opens an earlier one. */
  lemma {:induction false} ChoiceStaysExactlyWhen(env: Env, rows: seq<Row>, projectKeys: seq<string>, second: set<string>,
                                                  third: set<string>, a: Artifact, next: seq<Row>, project: string)
    requires Ran(env, rows, projectKeys, second, a, next) && |next| == |rows|
    requires ChosenFor(a.chosen, project).Some?
    requires ChosenFor(a.chosen, project).value in HealthyOrigins(env, FirstHealth(env, next))
    ensures ChosenFor(RunPlan(env, next, projectKeys, third).chosen, project) == ChosenFor(a.chosen, project)
            <==> !OpensEarlier(env, rows, a, next, project)
  {
    var o, before, after := ChosenFor(a.chosen, project).value, HealthyOrigins(env, FirstHealth(env, rows)),
                            HealthyOrigins(env, FirstHealth(env, next));
    if OpensEarlier(env, rows, a, next, project) {
      var k: nat :| LeftBehind(rows, a.plans, k) && Seen(env, next, k) && ParseUrl(env, next[k].urlCdn).Some?
                    && Before(Allowed(env, project), ParseUrl(env, next[k].urlCdn).value.origin, o);
      ParseTrimmed(env, next[k].urlCdn);
      EarlierWins(Allowed(env, project), after, ParseUrl(env, next[k].urlCdn).value.origin, o);
    } else if FirstIn(Allowed(env, project), after) != Some(o) {
      var earlier := ChoiceMovesFor(Allowed(env, project), before, after, o);
      var k := NewOriginIsLeftBehind(env, rows, projectKeys, second, a, next, earlier);
    }
  }

  // ---------------------------------------------------------------- keeping a row

  /** The next run keeps the row, on the origin chosen before. */
  predicate KeptThere(a: Artifact, again: Artifact, next: seq<Row>, i: nat)
    requires i < |next| == |again.plans|
  {
    && again.plans[i].decision == KeepHealthy
    && ChosenFor(again.chosen, next[i].projectKey) == ChosenFor(a.chosen, next[i].projectKey)
  }

  /** The row's URL is on the origin chosen for its project. */
  predicate InPlace(env: Env, a: Artifact, row: Row) {
    && ParseUrl(env, row.urlCdn).Some?
    && ChosenFor(a.chosen, row.projectKey) == Some(ParseUrl(env, row.urlCdn).value.origin)
  }

  lemma {:induction false} KeepNeeds(env: Env, next: seq<Row>, projectKeys: seq<string>, third: set<string>,
                                     again: Artifact, i: nat)
    requires ValidEnv(env) && again == RunPlan(env, next, projectKeys, third) && i < |next| == |again.plans|
    requires ParseUrl(env, next[i].urlCdn).Some? && Strip(next[i].urlCdn) in FirstHealth(env, next)
    ensures again.plans[i].decision == KeepHealthy <==>
            && ChosenFor(again.chosen, next[i].projectKey) == Some(ParseUrl(env, next[i].urlCdn).value.origin)
            && Seen(env, next, i)
  {
    var h := FinalHealth(env, next, again.chosen, third);
    assert again.plans[i] == PlanOne(env, again.chosen, h, next[i]);
    PlanRowMeaning(env, ParseUrl(env, next[i].urlCdn).value, next[i], ChosenFor(again.chosen, next[i].projectKey), h);
    SecondRoundAgrees(env, next, again.chosen, third, Strip(next[i].urlCdn));
  }

  /** Exactly when the next run keeps a row where it is. */
  lemma {:induction false} KeptThereExactlyWhen(env: Env, rows: seq<Row>, projectKeys: seq<string>, second: set<string>,
                                                third: set<string>, a: Artifact, next: seq<Row>, again: Artifact, i: nat)
    requires Ran(env, rows, projectKeys, second, a, next) && |next| == |rows| == |again.plans| && i < |rows|
    requires again == RunPlan(env, next, projectKeys, third) && ParseUrl(env, next[i].urlCdn).Some?
    ensures KeptThere(a, again, next, i) <==>
            InPlace(env, a, next[i]) && Seen(env, next, i) && !OpensEarlier(env, rows, a, next, next[i].projectKey)
    ensures InPlace(env, a, next[i]) ==> (KeptThere(a, again, next, i) <==> again.plans[i].decision == KeepHealthy)
  {
    var u := Strip(next[i].urlCdn);
    AfterRun(env, rows, projectKeys, second, a, next, i);
    InInventory(env, next, a.chosen, HealthyOrigins(env, FirstHealth(env, rows)), i);
    var k := ProbedFor(env, next, u);
    KeepNeeds(env, next, projectKeys, third, again, i);
    ParseTrimmed(env, next[i].urlCdn);
    if InPlace(env, a, next[i]) && Seen(env, next, i) {
      ChoiceStaysExactlyWhen(env, rows, projectKeys, second, third, a, next, next[i].projectKey);
    }
  }

  // ---------------------------------------------------------------- the second run

  /** Nothing keeps the second run from writing. */
  ghost predicate Ready(next: seq<Row>, projectKeys: seq<string>, again: Artifact) {
    (forall p :: p in projectKeys ==> ChosenFor(again.chosen, p).Some?) && Applies(next, again.plans)
  }

  /** A trimmed row that the second run will not keep, and why. */
  ghost predicate Disturbed(env: Env, rows: seq<Row>, a: Artifact, next: seq<Row>, i: nat)
    requires |a.plans| == |rows| == |next| && i < |next|
  {
    && Strip(next[i].urlCdn) == next[i].urlCdn
    && (OpensEarlier(env, rows, a, next, next[i].projectKey) || LosesProbe(env, rows, a, next, i))
  }

  /** A trimmed row that parses is kept exactly when it is not disturbed. */
  lemma {:induction false} KeptUnlessDisturbed(env: Env, rows: seq<Row>, projectKeys: seq<string>, second: set<string>,
                                               third: set<string>, a: Artifact, next: seq<Row>, again: Artifact, i: nat)
    requires Ran(env, rows, projectKeys, second, a, next) && |next| == |rows| == |again.plans| && i < |rows|
    requires again == RunPlan(env, next, projectKeys, third) && ParseUrl(env, next[i].urlCdn).Some?
    requires Strip(next[i].urlCdn) == next[i].urlCdn
    ensures again.plans[i].decision == KeepHealthy <==> !Disturbed(env, rows, a, next, i)
  {
    AfterRun(env, rows, projectKeys, second, a, next, i);
    SeenUnlessLost(env, rows, projectKeys, second, a, next, i);
    KeptThereExactlyWhen(env, rows, projectKeys, second, third, a, next, again, i);
  }

  lemma {:induction false} WritesIfRewritten(env: Env, next: seq<Row>, projectKeys: seq<string>, third: set<string>, again: Artifact)
    requires DistinctIds(next) && again == RunPlan(env, next, projectKeys, third) && |again.plans| == |next|
    ensures Execute(env, next, projectKeys, third) != next <==>
            && Ready(next, projectKeys, again)
            && exists i :: 0 <= i < |next| && again.plans[i].newUrl.Some? && next[i].urlCdn == again.plans[i].oldUrl
  {
    PlansAligned(env, next, projectKeys, third);
    AlignedIsWellPlanned(next, again.plans);
    if Ready(next, projectKeys, again) {
      AfterIsMoved(next, again.plans, |again.plans|);
      var moved := Moved(next, again.plans, |again.plans|);
      if i :| 0 <= i < |next| && again.plans[i].newUrl.Some? && next[i].urlCdn == again.plans[i].oldUrl {
        assert moved[i] != next[i];
      } else {
        assert moved == next;
      }
    }
  }

  lemma {:induction false} TrimmedPlan(env: Env, next: seq<Row>, projectKeys: seq<string>, third: set<string>,
                                       again: Artifact, i: nat)
    requires UrlLaws(env) && again == RunPlan(env, next, projectKeys, third) && i < |next| == |again.plans|
    requires again.plans[i].decision != ManualReview
    ensures ParseUrl(env, next[i].urlCdn).Some? && again.plans[i].oldUrl == Strip(next[i].urlCdn)
    ensures again.plans[i].newUrl.Some? <==> again.plans[i].decision != KeepHealthy
  {
    assert again.plans[i] == PlanOne(env, again.chosen, FinalHealth(env, next, again.chosen, third), next[i]);
  }

  /**
   On any table: `--execute` after an applied run writes again exactly when its
   plan can be applied and some trimmed row is disturbed. Either a padded row left
   behind, now probed for its own project, has opened an origin before the one
   chosen for the row's project, or the row's URL is now probed for the project of
   such a row, in vain.
   */
  lemma {:induction false} WritesAgainExactlyWhen(env: Env, rows: seq<Row>, projectKeys: seq<string>, second: set<string>,
                                                  third: set<string>, a: Artifact, next: seq<Row>, again: Artifact)
    requires Ran(env, rows, projectKeys, second, a, next) && |next| == |rows| == |again.plans|
    requires again == RunPlan(env, next, projectKeys, third)
    ensures Execute(env, next, projectKeys, third) != next <==>
            && Ready(next, projectKeys, again)
            && exists i: nat :: i < |next| && Disturbed(env, rows, a, next, i)
  {
    AppliedIsMoved(env, rows, projectKeys, second, a, next);
    WritesIfRewritten(env, next, projectKeys, third, again);
    if Ready(next, projectKeys, again) {
      forall i: nat | i < |next|
        ensures Disturbed(env, rows, a, next, i) <==>
                again.plans[i].newUrl.Some? && next[i].urlCdn == again.plans[i].oldUrl
      {
        assert again.plans[i] in again.plans;
        TrimmedPlan(env, next, projectKeys, third, again, i);
        if Strip(next[i].urlCdn) == next[i].urlCdn {
          KeptUnlessDisturbed(env, rows, projectKeys, second, third, a, next, again, i);
        }
      }
    }
  }

  /**
   On any table: the plan of the next run keeps every row and every choice exactly
   when every rewritten key has survived, no row left behind opens an earlier
   origin, no other row loses its probe, and every row left behind is in place and
   seen after all.
   */
  lemma {:induction false} SettlesExactlyWhen(env: Env, rows: seq<Row>, projectKeys: seq<string>, second: set<string>,
                                              third: set<string>, a: Artifact, next: seq<Row>, again: Artifact)
    requires Ran(env, rows, projectKeys, second, a, next) && |next| == |rows| == |again.plans|
    requires again == RunPlan(env, next, projectKeys, third)
    ensures SettledBy(rows, a, again) <==> forall i: nat :: i < |rows| ==> StaysPut(env, rows, a, next, i)
  {
    forall i: nat | i < |rows|
      ensures StaysPut(env, rows, a, next, i) <==> KeptThere(a, again, next, i)
      ensures next[i].projectKey == rows[i].projectKey
    {
      StaysPutIsKept(env, rows, projectKeys, second, third, a, next, again, i);
    }
  }

  ghost predicate StaysPut(env: Env, rows: seq<Row>, a: Artifact, next: seq<Row>, i: nat)
    requires |a.plans| == |rows| == |next| && i < |next|
  {
    && !OpensEarlier(env, rows, a, next, next[i].projectKey)
    && if LeftBehind(rows, a.plans, i) then InPlace(env, a, next[i]) && Seen(env, next, i)
       else
         && (Rewrites(a.plans, i) ==> KeySurvives(env.unquote, a.plans[i].objectKey))
         && !LosesProbe(env, rows, a, next, i)
  }

  lemma {:induction false} StaysPutIsKept(env: Env, rows: seq<Row>, projectKeys: seq<string>, second: set<string>,
                                          third: set<string>, a: Artifact, next: seq<Row>, again: Artifact, i: nat)
    requires Ran(env, rows, projectKeys, second, a, next) && |next| == |rows| == |again.plans| && i < |rows|
    requires again == RunPlan(env, next, projectKeys, third)
    ensures StaysPut(env, rows, a, next, i) <==> KeptThere(a, again, next, i)
    ensures next[i].projectKey == rows[i].projectKey
  {
    AfterRun(env, rows, projectKeys, second, a, next, i);
    if ParseUrl(env, next[i].urlCdn).Some? {
      KeptThereExactlyWhen(env, rows, projectKeys, second, third, a, next, again, i);
      if !LeftBehind(rows, a.plans, i) {
        SeenUnlessLost(env, rows, projectKeys, second, a, next, i);
      }
    } else {
      assert again.plans[i] == PlanOne(env, again.chosen, FinalHealth(env, next, again.chosen, third), next[i]);
    }
  }
}
