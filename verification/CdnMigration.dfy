/**
 The CDN origin migration (scripts/migrate_cdn_origins.py): probe the stored
 URLs, choose one origin per project, decide row by row, apply guarded updates,
 export a rollback. Probe answers are fixed per URL (`Env.answer`).
 */
module CdnMigration {
  import opened Common
  import opened MediaUrl
  import opened Text

  const HEALTHY_STATUS := 200

  /** One `images` row, without the columns the migration leaves alone. */
  datatype Row = Row(imageId: string, projectKey: string, status: string, urlCdn: string)

  /**
   Configuration and the outside world. `allowed` holds each project's sorted
   origin list; `parse` and `build` are the two URL functions, as values.
   */
  datatype Env = Env(
    unquote: string -> string,
    parse: string -> Option<Components>,
    build: (string, string) -> Option<string>,
    allowed: map<string, seq<string>>,
    passes: (string, string) -> bool,
    answer: string -> Option<int>,
    maxProbes: nat)

  datatype Decision = KeepHealthy | Rewrite | ManualReview

  datatype Reason =
    | NoHealthyOrigin | AlreadyHealthy | BuildRefused | SameUrlUnverified | CandidateUnverified
    | OriginNotHealthy | Unparseable

  datatype RowPlan = RowPlan(
    imageId: string, projectKey: string, statusValue: string, oldUrl: string, oldOrigin: string,
    objectKey: string, decision: Decision, reason: Reason,
    newUrl: Option<string>, verifiedStatus: Option<int>)

  type Health = map<string, Option<int>>

  type Chosen = map<string, Option<string>>

  /** `project_by_url`: an insertion-ordered dictionary. */
  datatype Inventory = Inventory(urls: seq<string>, project: map<string, string>)

  datatype Artifact = Artifact(chosen: Chosen, plans: seq<RowPlan>)

  // ---------------------------------------------------------------- environment

  function Allowed(env: Env, project: string): seq<string> {
    if project == "" || project !in env.allowed then [] else env.allowed[project]
  }

  function ParseUrl(env: Env, url: string): Option<Components> {
    env.parse(url)
  }

  /** `probe_media_url`: policy first, then the answer of the URL itself. */
  function Probe(env: Env, url: string, project: string): Option<int> {
    if Allowed(env, project) == [] || !env.passes(url, project) then None else env.answer(url)
  }

  /** What planning relies on in the two URL functions; `SourceUrlsAreLawful` proves it of the real ones. */
  ghost predicate UrlLaws(env: Env) {
    && (forall u :: env.parse(u).Some? ==> env.parse(u).value.url == Strip(u))
    && (forall u :: PaddingIgnored(env, u))
    && (forall o, k :: BareOrigin(o) && env.build(o, k).Some? ==>
          BuiltParsesBack(env, o, k, env.build(o, k).value))
  }

  ghost predicate PaddingIgnored(env: Env, u: string) {
    env.parse(u) == env.parse(Strip(u))
  }

  ghost predicate BuiltParsesBack(env: Env, o: string, k: string, c: string) {
    && Strip(c) == c
    && (env.parse(c).Some? <==> KeySurvives(env.unquote, k))
    && (env.parse(c).Some? ==> env.parse(c).value.origin == o)
  }

  /** Configured origins are bare authorities, and the fetch policy lets a project's own origins through. */
  ghost predicate ValidEnv(env: Env) {
    && UrlLaws(env)
    && (forall p, o :: p in env.allowed && o in env.allowed[p] ==> BareOrigin(o))
    && (forall u, p :: ParseUrl(env, u).Some? && ParseUrl(env, u).value.origin in Allowed(env, p)
                       ==> env.passes(u, p))
  }

  /** The environment whose URL functions are those of the script. */
  function SourceEnv(unquote: string -> string, allowed: map<string, seq<string>>,
                     passes: (string, string) -> bool, answer: string -> Option<int>, maxProbes: nat): Env {
    Env(unquote, u => Parse(unquote, u), Build, allowed, passes, answer, maxProbes)
  }

  lemma ParseKeepsText(unquote: string -> string, u: string)
    ensures Parse(unquote, u).Some? ==> Parse(unquote, u).value.url == Strip(u)
  {
  }

  lemma SourceUrlsAreLawful(unquote: string -> string, allowed: map<string, seq<string>>,
                            passes: (string, string) -> bool, answer: string -> Option<int>, maxProbes: nat)
    ensures UrlLaws(SourceEnv(unquote, allowed, passes, answer, maxProbes))
  {
    var env := SourceEnv(unquote, allowed, passes, answer, maxProbes);
    forall u ensures env.parse(u).Some? ==> env.parse(u).value.url == Strip(u) {
      ParseKeepsText(unquote, u);
    }
    forall u ensures PaddingIgnored(env, u) {
      StripIdempotent(u);
    }
    forall o, k | BareOrigin(o) && env.build(o, k).Some?
      ensures BuiltParsesBack(env, o, k, env.build(o, k).value)
    {
      ParseOfBuild(unquote, o, k, env.build(o, k).value);
    }
  }

  // ---------------------------------------------------------------- inventory and probing

  function SetDefault(inv: Inventory, url: string, project: string): Inventory {
    if url in inv.project then inv else Inventory(inv.urls + [url], inv.project[url := project])
  }

  /** The URL under which a row enters the inventory: it parses and belongs to a project. */
  function KeyOf(env: Env, row: Row): Option<string> {
    match ParseUrl(env, row.urlCdn)
    case Some(c) => if row.projectKey != "" then Some(c.url) else None
    case None => None
  }

  function CollectRow(env: Env, inv: Inventory, row: Row): Inventory {
    match KeyOf(env, row)
    case Some(url) => SetDefault(inv, url, row.projectKey)
    case None => inv
  }

  function Collect(env: Env, rows: seq<Row>): Inventory {
    if rows == [] then Inventory([], map[])
    else CollectRow(env, Collect(env, rows[..|rows| - 1]), rows[|rows| - 1])
  }

  function Take<T>(s: seq<T>, n: nat): seq<T> {
    if |s| > n then s[..n] else s
  }

  function ProbeUrls(env: Env, inv: Inventory): Health {
    map u | u in Take(inv.urls, env.maxProbes) && u in inv.project :: Probe(env, u, inv.project[u])
  }

  predicate IsHealthy(h: Health, url: string) {
    url in h && h[url] == Some(HEALTHY_STATUS)
  }

  // ---------------------------------------------------------------- choosing origins

  function HealthyOrigins(env: Env, h: Health): set<string> {
    set u | u in h && h[u] == Some(HEALTHY_STATUS) && ParseUrl(env, u).Some? :: ParseUrl(env, u).value.origin
  }

  function FirstIn(origins: seq<string>, healthy: set<string>): Option<string> {
    if origins == [] then None
    else if origins[0] in healthy then Some(origins[0])
    else FirstIn(origins[1..], healthy)
  }

  function ChooseOrigins(env: Env, projectKeys: seq<string>, h: Health): Chosen {
    map p | p in projectKeys :: FirstIn(Allowed(env, p), HealthyOrigins(env, h))
  }

  function ChosenFor(chosen: Chosen, project: string): Option<string> {
    if project in chosen then chosen[project] else None
  }

  // ---------------------------------------------------------------- candidates

  /** The URL a row would be rewritten to, when its project has an origin. */
  function CandidateOf(env: Env, chosen: Chosen, row: Row): Option<string> {
    match ParseUrl(env, row.urlCdn)
    case None => None
    case Some(c) =>
      if row.projectKey == "" || ChosenFor(chosen, row.projectKey).None? then None
      else env.build(ChosenFor(chosen, row.projectKey).value, c.objectKey)
  }

  datatype Phase = Phase(inv: Inventory, health: Health)

  function AddCandidate(env: Env, chosen: Chosen, s: Phase, row: Row): Phase {
    match CandidateOf(env, chosen, row)
    case None => s
    case Some(c) =>
      if c in s.health then s
      else Phase(SetDefault(s.inv, c, row.projectKey), s.health[c := None])
  }

  function AddCandidates(env: Env, chosen: Chosen, s: Phase, rows: seq<Row>): Phase {
    if rows == [] then s
    else AddCandidate(env, chosen, AddCandidates(env, chosen, s, rows[..|rows| - 1]), rows[|rows| - 1])
  }

  function ProbeIn(env: Env, inv: Inventory, url: string): Option<int> {
    if url in inv.project then Probe(env, url, inv.project[url]) else None
  }

  /** The second round probes `second`, a part of the URLs still without an answer. */
  function Reprobe(env: Env, s: Phase, second: set<string>): Health {
    map u | u in s.health ::
      if u in second && s.health[u].None? then ProbeIn(env, s.inv, u) else s.health[u]
  }

  // ---------------------------------------------------------------- row decisions

  function PlanRow(env: Env, c: Components, row: Row, chosen: Option<string>, h: Health): (p: RowPlan)
    ensures p.imageId == row.imageId && p.oldUrl == c.url && p.projectKey == row.projectKey
    ensures p.decision == Rewrite <==> p.newUrl.Some?
    ensures p.newUrl.Some? ==> p.newUrl.value != p.oldUrl
  {
    var base := RowPlan(row.imageId, row.projectKey, row.status, c.url, c.origin, c.objectKey,
                        ManualReview, NoHealthyOrigin, None, None);
    if chosen.None? then base
    else if IsHealthy(h, c.url) && c.origin == chosen.value then
      base.(decision := KeepHealthy, reason := AlreadyHealthy)
    else
      match env.build(chosen.value, c.objectKey)
      case None => base.(reason := BuildRefused)
      case Some(candidate) =>
        if candidate == c.url then base.(reason := SameUrlUnverified)
        else if !IsHealthy(h, candidate) then base.(reason := CandidateUnverified)
        else base.(decision := Rewrite, reason := OriginNotHealthy,
                   newUrl := Some(candidate), verifiedStatus := Some(HEALTHY_STATUS))
  }

  function PlanOne(env: Env, chosen: Chosen, h: Health, row: Row): (p: RowPlan)
    ensures p.imageId == row.imageId && p.projectKey == row.projectKey
    ensures p.decision == Rewrite <==> p.newUrl.Some?
    ensures p.newUrl.Some? ==> p.newUrl.value != p.oldUrl
  {
    match ParseUrl(env, row.urlCdn)
    case None => RowPlan(row.imageId, row.projectKey, row.status, row.urlCdn, "", "",
                         ManualReview, Unparseable, None, None)
    case Some(c) => PlanRow(env, c, row, ChosenFor(chosen, row.projectKey), h)
  }

  function PlanAll(env: Env, chosen: Chosen, h: Health, rows: seq<Row>): seq<RowPlan> {
    seq(|rows|, i requires 0 <= i < |rows| => PlanOne(env, chosen, h, rows[i]))
  }

  function FirstHealth(env: Env, rows: seq<Row>): Health {
    ProbeUrls(env, Collect(env, rows))
  }

  function FinalHealth(env: Env, rows: seq<Row>, chosen: Chosen, second: set<string>): Health {
    Reprobe(env, AddCandidates(env, chosen, Phase(Collect(env, rows), FirstHealth(env, rows)), rows), second)
  }

  /** `run_plan` without its report. */
  function RunPlan(env: Env, rows: seq<Row>, projectKeys: seq<string>, second: set<string>): Artifact {
    var chosen := ChooseOrigins(env, projectKeys, FirstHealth(env, rows));
    Artifact(chosen, PlanAll(env, chosen, FinalHealth(env, rows, chosen, second), rows))
  }

  predicate NoReview(plans: seq<RowPlan>) {
    forall p :: p in plans ==> p.decision != ManualReview
  }

  // ---------------------------------------------------------------- the images table

  datatype DbError = UniqueViolation | SyntaxError

  /** The WHERE clause: the image id and, when given, the URL the row must still have. */
  predicate Matches(row: Row, imageId: string, guard: Option<string>) {
    row.imageId == imageId && (guard.Some? ==> row.urlCdn == guard.value)
  }

  /** One UPDATE of `url_cdn` under its UNIQUE constraint. */
  function SetUrl(rows: seq<Row>, imageId: string, guard: Option<string>, url: string): Result<seq<Row>, DbError> {
    if exists i, j :: 0 <= i < |rows| && 0 <= j < |rows| && Matches(rows[i], imageId, guard)
                      && !Matches(rows[j], imageId, guard) && rows[j].urlCdn == url
    then Err(UniqueViolation)
    else Ok(seq(|rows|, i requires 0 <= i < |rows| =>
      if Matches(rows[i], imageId, guard) then rows[i].(urlCdn := url) else rows[i]))
  }

  function GuardOf(plan: RowPlan, guarded: bool): Option<string> {
    if guarded then Some(plan.oldUrl) else None
  }

  predicate Hits(row: Row, plan: RowPlan, guarded: bool) {
    Matches(row, plan.imageId, GuardOf(plan, guarded))
  }

  function Target(plan: RowPlan, forward: bool): string
    requires plan.newUrl.Some?
  {
    if forward then plan.newUrl.value else plan.oldUrl
  }

  /** One UPDATE: forward it is guarded by the old URL, backward (rollback) only by the image id. */
  function Update(rows: seq<Row>, plan: RowPlan, forward: bool): Result<seq<Row>, DbError>
    requires plan.newUrl.Some?
  {
    SetUrl(rows, plan.imageId, GuardOf(plan, forward), Target(plan, forward))
  }

  /** A rewrite always carries the URL to write. */
  predicate WellPlanned(plans: seq<RowPlan>) {
    forall p :: p in plans && p.decision == Rewrite ==> p.newUrl.Some?
  }

  /** The table after the first `k` plans of one transaction. */
  function After(rows: seq<Row>, plans: seq<RowPlan>, forward: bool, k: nat): Result<seq<Row>, DbError>
    requires k <= |plans| && WellPlanned(plans)
  {
    if k == 0 then Ok(rows)
    else
      match After(rows, plans, forward, k - 1)
      case Err(e) => Err(e)
      case Ok(t) => if plans[k - 1].decision == Rewrite then Update(t, plans[k - 1], forward) else Ok(t)
  }

  /** What a transaction leaves behind: everything or nothing. */
  function Committed(rows: seq<Row>, plans: seq<RowPlan>, forward: bool): seq<Row>
    requires WellPlanned(plans)
  {
    match After(rows, plans, forward, |plans|)
    case Ok(t) => t
    case Err(_) => rows
  }

  /** `main --execute`: blocked without origins, refused with rows to review, else applied. */
  function Execute(env: Env, rows: seq<Row>, projectKeys: seq<string>, second: set<string>): seq<Row> {
    var a := RunPlan(env, rows, projectKeys, second);
    PlansWellPlanned(env, a.chosen, FinalHealth(env, rows, a.chosen, second), rows);
    if exists p :: p in projectKeys && ChosenFor(a.chosen, p).None? then rows
    else if !NoReview(a.plans) then rows
    else Committed(rows, a.plans, true)
  }

  lemma PlansWellPlanned(env: Env, chosen: Chosen, h: Health, rows: seq<Row>)
    ensures WellPlanned(PlanAll(env, chosen, h, rows))
  {
    var plans := PlanAll(env, chosen, h, rows);
    forall p | p in plans ensures p.decision == Rewrite ==> p.newUrl.Some? {
      var i :| 0 <= i < |plans| && plans[i] == p;
      assert p == PlanOne(env, chosen, h, rows[i]);
    }
  }

  // ---------------------------------------------------------------- imperative form

  method PlanRows(env: Env, rows: seq<Row>, chosen: Chosen, h: Health) returns (plans: seq<RowPlan>)
    ensures plans == PlanAll(env, chosen, h, rows)
  {
    plans := [];
    for i := 0 to |rows|
      invariant |plans| == i
      invariant forall k :: 0 <= k < i ==> plans[k] == PlanOne(env, chosen, h, rows[k])
    {
      var p := PlanOne(env, chosen, h, rows[i]);
      plans := plans + [p];
    }
  }

  /** URLs a phase has listed without an answer. */
  predicate Pending(s: Phase, u: string) {
    u in s.inv.urls && u in s.health && s.health[u].None?
  }

  /** The second round takes the first of the pending URLs, in some order, up to the cap. */
  ghost predicate SecondRound(env: Env, s: Phase, second: set<string>) {
    exists pending: seq<string> ::
      && (forall u :: u in pending <==> Pending(s, u))
      && second == (set u | u in Take(pending, env.maxProbes))
  }

  /** `run_plan`: the loops that fill `project_by_url` and `url_health`, then the plan. */
  method BuildPlan(env: Env, rows: seq<Row>, projectKeys: seq<string>)
    returns (a: Artifact, second: set<string>)
    ensures a == RunPlan(env, rows, projectKeys, second)
    ensures SecondRound(env, AddCandidates(env, a.chosen, Phase(Collect(env, rows), FirstHealth(env, rows)), rows), second)
  {
    var inv := Inventory([], map[]);
    for i := 0 to |rows|
      invariant inv == Collect(env, rows[..i])
    {
      assert rows[..i + 1][..i] == rows[..i];
      inv := CollectRow(env, inv, rows[i]);
    }
    assert rows[..|rows|] == rows;
    var health := ProbeUrls(env, inv);
    var chosen := ChooseOrigins(env, projectKeys, health);
    var s := Phase(inv, health);
    for i := 0 to |rows|
      invariant s == AddCandidates(env, chosen, Phase(inv, health), rows[..i])
    {
      assert rows[..i + 1][..i] == rows[..i];
      s := AddCandidate(env, chosen, s, rows[i]);
    }
    var pending := [];
    for i := 0 to |s.inv.urls|
      invariant forall u :: u in pending <==> u in s.inv.urls[..i] && Pending(s, u)
    {
      var u := s.inv.urls[i];
      assert s.inv.urls[..i + 1] == s.inv.urls[..i] + [u];
      if u in s.health && s.health[u].None? {
        pending := pending + [u];
      }
    }
    assert s.inv.urls[..|s.inv.urls|] == s.inv.urls;
    var probed := Take(pending, env.maxProbes);
    second := set u | u in probed;
    var final: Health := map u | u in s.health ::
      if u in probed && s.health[u].None? then ProbeIn(env, s.inv, u) else s.health[u];
    assert final == Reprobe(env, s, second);
    var plans := PlanRows(env, rows, chosen, final);
    a := Artifact(chosen, plans);
  }

  /** The number of rows the first `k` guarded updates touch. */
  function Touched(rows: seq<Row>, plans: seq<RowPlan>, k: nat): nat
    requires k <= |plans| && WellPlanned(plans)
  {
    if k == 0 then 0
    else
      Touched(rows, plans, k - 1)
      + match After(rows, plans, true, k - 1)
        case Err(_) => 0
        case Ok(t) => if plans[k - 1].decision == Rewrite then HitCount(t, plans[k - 1]) else 0
  }

  function HitCount(rows: seq<Row>, plan: RowPlan): nat {
    |set i | 0 <= i < |rows| && Hits(rows[i], plan, true)|
  }

  class ImagesTable {
    var rows: seq<Row>

    constructor (initial: seq<Row>)
      ensures rows == initial
    {
      rows := initial;
    }

    /** `apply_rewrites`: one transaction of guarded updates. */
    method ApplyRewrites(plans: seq<RowPlan>) returns (updated: Result<nat, DbError>)
      requires WellPlanned(plans)
      modifies this
      ensures rows == Committed(old(rows), plans, true)
      ensures updated.Ok? <==> After(old(rows), plans, true, |plans|).Ok?
      ensures updated.Ok? ==> updated.value == Touched(old(rows), plans, |plans|)
    {
      var before := rows;
      var count := 0;
      var k := 0;
      while k < |plans|
        invariant k <= |plans|
        invariant After(before, plans, true, k) == Ok(rows)
        invariant count == Touched(before, plans, k)
      {
        if plans[k].decision == Rewrite {
          match Update(rows, plans[k], true) {
            case Err(e) =>
              AfterErr(before, plans, true, k + 1);
              rows := before;
              return Err(e);
            case Ok(t) =>
              count := count + HitCount(rows, plans[k]);
              rows := t;
          }
        }
        k := k + 1;
      }
      return Ok(count);
    }
  }

  lemma {:induction false} AfterErr(rows: seq<Row>, plans: seq<RowPlan>, forward: bool, k: nat)
    requires k <= |plans| && WellPlanned(plans)
    requires After(rows, plans, forward, k).Err?
    ensures After(rows, plans, forward, |plans|).Err?
    decreases |plans| - k
  {
    if k < |plans| {
      AfterErr(rows, plans, forward, k + 1);
    }
  }
}
