/**
 One action at a time: every successful broker action strictly decreases
 (untried people, status rank), so a lead's history ends, nobody is assigned the
 same lead twice, and a closed lead stays closed.
 */
module LeadTermination {
  import opened Common
  import opened LeadRouting
  import opened LeadActions

  function RosterIds(roster: seq<Sales>): set<int> {
    set s | s in roster && s.isActive :: s.id
  }

  function Untried(repo: Repo, leadId: int): nat {
    |RosterIds(repo.roster) - TriedIds(repo.logs, leadId)|
  }

  function Rank(status: Status): nat {
    match status
    case Assigned => 3
    case Called => 2
    case Callback => 1
    case _ => 0
  }

  predicate Working(status: Status) {
    status in [Assigned, Called, Callback]
  }

  /** The people a lead was assigned to, in log order. */
  function Assignees(logs: seq<LogLine>, leadId: int): seq<int> {
    if logs == [] then []
    else
      var l := logs[|logs| - 1];
      Assignees(logs[..|logs| - 1], leadId)
      + if l.leadId == leadId && l.action == LogAssign && l.salesId.Some? then [l.salesId.value] else []
  }

  /** The owner of a lead being worked on has a line in its log, and no assignee appears twice. */
  ghost predicate LeadInv(repo: Repo, leadId: int) {
    && (leadId in repo.leads && Working(repo.leads[leadId].status) ==>
          repo.leads[leadId].owner.Some? && repo.leads[leadId].owner.value in TriedIds(repo.logs, leadId))
    && Distinct(Assignees(repo.logs, leadId))
    && (forall id :: id in Assignees(repo.logs, leadId) ==> id in TriedIds(repo.logs, leadId))
  }

  ghost predicate LexLess(a: (nat, nat), b: (nat, nat)) {
    a.0 < b.0 || (a.0 == b.0 && a.1 < b.1)
  }

  function Measure(repo: Repo, leadId: int): (nat, nat) {
    (Untried(repo, leadId), if leadId in repo.leads then Rank(repo.leads[leadId].status) else 0)
  }

  // ---------------------------------------------------------------- logging

  lemma {:induction false} StampKeepsIds(roster: seq<Sales>, id: int, at: int)
    ensures RosterIds(StampRow(roster, id, at)) == RosterIds(roster)
  {
    var r := StampRow(roster, id, at);
    forall x | x in RosterIds(roster) ensures x in RosterIds(r) {
      var i :| 0 <= i < |roster| && roster[i].isActive && roster[i].id == x;
      assert r[i] in r && r[i].id == x && r[i].isActive;
    }
    forall x | x in RosterIds(r) ensures x in RosterIds(roster) {
      var i :| 0 <= i < |r| && r[i].isActive && r[i].id == x;
      assert roster[i] in roster && roster[i].id == x && roster[i].isActive;
    }
  }

  lemma {:induction false} LoggedAllIs(repo: Repo, lines: seq<LogLine>, now: int)
    ensures var r := LoggedAll(repo, lines, now);
            r.leads == repo.leads && r.logs == repo.logs + lines && RosterIds(r.roster) == RosterIds(repo.roster)
  {
    if lines != [] {
      var n := |lines| - 1;
      LoggedAllIs(repo, lines[..n], now);
      assert repo.logs + lines == repo.logs + lines[..n] + [lines[n]];
      if StampsRoster(lines[n]) {
        StampKeepsIds(LoggedAll(repo, lines[..n], now).roster, lines[n].salesId.value, now);
      }
    }
  }

  lemma {:induction false} TriedAppend(a: seq<LogLine>, b: seq<LogLine>, leadId: int)
    ensures TriedIds(a + b, leadId) == TriedIds(a, leadId) + TriedIds(b, leadId)
  {
    assert forall l :: l in a + b <==> l in a || l in b;
  }

  lemma {:induction false} AssigneesAppend(a: seq<LogLine>, b: seq<LogLine>, leadId: int)
    ensures Assignees(a + b, leadId) == Assignees(a, leadId) + Assignees(b, leadId)
  {
    if b == [] {
      assert a + b == a;
    } else {
      var n := |b| - 1;
      AssigneesAppend(a, b[..n], leadId);
      assert (a + b)[..|a| + n] == a + b[..n] && (a + b)[|a| + n] == b[n];
      var x, y := Assignees(a, leadId), Assignees(b[..n], leadId);
      var z := if b[n].leadId == leadId && b[n].action == LogAssign && b[n].salesId.Some? then [b[n].salesId.value] else [];
      assert (x + y) + z == x + (y + z);
    }
  }

  // ---------------------------------------------------------------- one action

  /** Where an action can succeed at all: only on a lead its owner is working on. */
  lemma {:induction false} OnlyWorkingLeadsMove(repo: Repo, q: Request)
    ensures Act(repo, q).1.Some? ==>
              q.leadId in repo.leads && repo.leads[q.leadId].owner == Some(q.salesId)
              && Working(repo.leads[q.leadId].status)
    ensures Act(repo, q).1.None? ==> Act(repo, q).0 == repo
  {
  }

  /** Booked, lost and expired are never left. */
  lemma {:induction false} ClosedStaysClosed(repo: Repo, q: Request)
    requires q.leadId in repo.leads && repo.leads[q.leadId].status in [Booked, Lost, Expired]
    ensures Act(repo, q) == (repo, None)
  {
    OnlyWorkingLeadsMove(repo, q);
  }

  function LoggedAs(action: Action): LogAction {
    match action
    case DoCalled => LogCall
    case DoNoAnswer => LogNoAnswer
    case DoCallback => LogCallback
    case DoBooked => LogBooked
    case DoLost => LogLost
    case DoOther(_) => LogExpired
  }

  /** The line list of an accepted plan: its own request's line first, an assignment at most last. */
  ghost predicate PlanLines(repo: Repo, q: Request, p: Plan)
    requires q.leadId in repo.leads
  {
    var own := LogLine(q.leadId, Some(q.salesId), LoggedAs(q.action), q.note);
    && p.expected == Some(q.salesId)
    && own.action !in [LogAssign, LogExpired]
    && if q.action == DoNoAnswer then
         if p.assign.Some? then
           && p.status == Assigned
           && p.assign.value in RosterIds(repo.roster)
           && p.assign.value !in TriedIds(repo.logs, q.leadId) && p.assign.value != q.salesId
           && p.lines == [own, LogLine(q.leadId, p.assign, LogAssign, REASSIGN_NOTE)]
         else p.status == Expired && p.lines == [own, LogLine(q.leadId, None, LogExpired, ESCALATED_ALL)]
       else
         p.assign.None? && p.lines == [own] && Rank(p.status) < Rank(repo.leads[q.leadId].status)
  }

  lemma {:induction false} ActionPlanIs(repo: Repo, q: Request)
    requires q.leadId in repo.leads && ActionPlan(repo, q).Some?
    ensures PlanLines(repo, q, ActionPlan(repo, q).value)
  {
    if q.action == DoNoAnswer {
      var active := Active(repo.roster);
      CandidatesAre(repo.roster, {});
      ChoiceIsEligible(active, {q.salesId} + TriedIds(repo.logs, q.leadId), q.preferred);
    }
  }

  /**
   A successful action keeps the lead's invariant and strictly decreases the
   pair (untried people, status rank).
   */
  lemma {:induction false} ActDecreases(repo: Repo, q: Request)
    requires LeadInv(repo, q.leadId) && Act(repo, q).1.Some?
    ensures var next := Act(repo, q).0;
            && LeadInv(next, q.leadId)
            && LexLess(Measure(next, q.leadId), Measure(repo, q.leadId))
            && 2 * Measure(next, q.leadId).0 + Measure(next, q.leadId).1
               < 2 * Measure(repo, q.leadId).0 + Measure(repo, q.leadId).1
  {
    OnlyWorkingLeadsMove(repo, q);
    ActionPlanIs(repo, q);
    var p := ActionPlan(repo, q).value;
    var lead := Changed(repo.leads[q.leadId], p.status, p.assign, p.lock, p.close);
    var next := Act(repo, q).0;
    LoggedAllIs(repo.(leads := repo.leads[q.leadId := lead]), p.lines, q.now);
    assert next.logs == repo.logs + p.lines && next.leads == repo.leads[q.leadId := lead];
    PlanKeepsInv(repo, q, p, next);
    PlanDecreases(repo, q, p, next);
  }

  lemma {:induction false} TriedByLines(q: Request, p: Plan, repo: Repo)
    requires q.leadId in repo.leads && PlanLines(repo, q, p)
    ensures TriedIds(p.lines, q.leadId) == {q.salesId} + (if p.assign.Some? then {p.assign.value} else {})
    ensures Assignees(p.lines, q.leadId) == if p.assign.Some? then [p.assign.value] else []
  {
    var own := p.lines[0];
    assert own in p.lines;
    assert [own][..0] == [];
    assert Assignees([], q.leadId) == [];
    assert Assignees([own], q.leadId) == [];
    if |p.lines| == 2 {
      assert p.lines[..1] == [own];
      assert p.lines[1] in p.lines;
    }
  }

  lemma {:induction false} PlanKeepsInv(repo: Repo, q: Request, p: Plan, next: Repo)
    requires LeadInv(repo, q.leadId) && q.leadId in repo.leads && PlanLines(repo, q, p)
    requires repo.leads[q.leadId].owner == Some(q.salesId)
    requires next.logs == repo.logs + p.lines
    requires next.leads == repo.leads[q.leadId := Changed(repo.leads[q.leadId], p.status, p.assign, p.lock, p.close)]
    ensures LeadInv(next, q.leadId)
  {
    TriedAppend(repo.logs, p.lines, q.leadId);
    AssigneesAppend(repo.logs, p.lines, q.leadId);
    TriedByLines(q, p, repo);
  }

  /** The untried set loses the newly assigned person and nobody else. */
  lemma {:induction false} UntriedAfter(repo: Repo, q: Request, p: Plan, next: Repo)
    requires LeadInv(repo, q.leadId) && q.leadId in repo.leads && PlanLines(repo, q, p)
    requires repo.leads[q.leadId].owner == Some(q.salesId) && Working(repo.leads[q.leadId].status)
    requires next.logs == repo.logs + p.lines && RosterIds(next.roster) == RosterIds(repo.roster)
    ensures Untried(next, q.leadId) == Untried(repo, q.leadId) - if p.assign.Some? then 1 else 0
  {
    TriedAppend(repo.logs, p.lines, q.leadId);
    TriedByLines(q, p, repo);
    var before := RosterIds(repo.roster) - TriedIds(repo.logs, q.leadId);
    var after := RosterIds(next.roster) - TriedIds(next.logs, q.leadId);
    if p.assign.Some? {
      assert p.assign.value in before;
      assert after == before - {p.assign.value};
    } else {
      assert after == before;
    }
  }

  lemma {:induction false} PlanDecreases(repo: Repo, q: Request, p: Plan, next: Repo)
    requires LeadInv(repo, q.leadId) && q.leadId in repo.leads && PlanLines(repo, q, p)
    requires repo.leads[q.leadId].owner == Some(q.salesId) && Working(repo.leads[q.leadId].status)
    requires q.action == DoNoAnswer ==> repo.leads[q.leadId].status in [Assigned, Called]
    requires next.logs == repo.logs + p.lines && RosterIds(next.roster) == RosterIds(repo.roster)
    requires q.leadId in next.leads && next.leads[q.leadId].status == p.status
    ensures LexLess(Measure(next, q.leadId), Measure(repo, q.leadId))
    ensures 2 * Measure(next, q.leadId).0 + Measure(next, q.leadId).1
            < 2 * Measure(repo, q.leadId).0 + Measure(repo, q.leadId).1
  {
    UntriedAfter(repo, q, p, next);
  }

  lemma {:induction false} ForeignLines(logs: seq<LogLine>, lines: seq<LogLine>, leadId: int)
    requires forall l :: l in lines ==> l.leadId != leadId
    ensures TriedIds(logs + lines, leadId) == TriedIds(logs, leadId)
    ensures Assignees(logs + lines, leadId) == Assignees(logs, leadId)
  {
    TriedAppend(logs, lines, leadId);
    AssigneesAppend(logs, lines, leadId);
    NoLinesFor(lines, leadId);
    assert TriedIds(lines, leadId) == {};
  }

  /** Requests on other leads leave this one alone. */
  lemma {:induction false} OtherLeadsUntouched(repo: Repo, q: Request, leadId: int)
    requires q.leadId != leadId
    ensures Measure(Act(repo, q).0, leadId) == Measure(repo, leadId)
    ensures LeadInv(repo, leadId) ==> LeadInv(Act(repo, q).0, leadId)
    ensures leadId in repo.leads ==> leadId in Act(repo, q).0.leads && Act(repo, q).0.leads[leadId] == repo.leads[leadId]
    ensures Assignees(Act(repo, q).0.logs, leadId) == Assignees(repo.logs, leadId)
  {
    OnlyWorkingLeadsMove(repo, q);
    if Act(repo, q).1.Some? {
      ActionPlanIs(repo, q);
      var p := ActionPlan(repo, q).value;
      var lead := Changed(repo.leads[q.leadId], p.status, p.assign, p.lock, p.close);
      LoggedAllIs(repo.(leads := repo.leads[q.leadId := lead]), p.lines, q.now);
      ForeignLines(repo.logs, p.lines, leadId);
    }
  }

  lemma {:induction false} NoLinesFor(lines: seq<LogLine>, leadId: int)
    requires forall l :: l in lines ==> l.leadId != leadId
    ensures Assignees(lines, leadId) == []
  {
    if lines != [] {
      NoLinesFor(lines[..|lines| - 1], leadId);
    }
  }

  // ---------------------------------------------------------------- whole runs

  function RunAll(repo: Repo, qs: seq<Request>): Repo
    decreases |qs|
  {
    if qs == [] then repo else RunAll(Act(repo, qs[0]).0, qs[1..])
  }

  /** How many of the requests on this lead succeed. */
  function Successes(repo: Repo, qs: seq<Request>, leadId: int): nat
    decreases |qs|
  {
    if qs == [] then 0
    else
      (if qs[0].leadId == leadId && Act(repo, qs[0]).1.Some? then 1 else 0)
      + Successes(Act(repo, qs[0]).0, qs[1..], leadId)
  }

  /** A lead closed at some point of a run is as it was, log lines included, at its end, and no request on it succeeds. */
  lemma {:induction false} ClosedForGood(repo: Repo, qs: seq<Request>, leadId: int)
    requires leadId in repo.leads && repo.leads[leadId].status in [Booked, Lost, Expired]
    ensures leadId in RunAll(repo, qs).leads && RunAll(repo, qs).leads[leadId] == repo.leads[leadId]
    ensures Successes(repo, qs, leadId) == 0
    ensures Assignees(RunAll(repo, qs).logs, leadId) == Assignees(repo.logs, leadId)
    decreases |qs|
  {
    if qs != [] {
      if qs[0].leadId == leadId {
        ClosedStaysClosed(repo, qs[0]);
      } else {
        OtherLeadsUntouched(repo, qs[0], leadId);
      }
      ClosedForGood(Act(repo, qs[0]).0, qs[1..], leadId);
    }
  }

  /**
   In any run over any leads, a lead sees at most 2 * untried + rank successful
   actions, and the people it is assigned to stay pairwise distinct.
   */
  lemma {:induction false} RunsEnd(repo: Repo, qs: seq<Request>, leadId: int)
    requires LeadInv(repo, leadId)
    ensures Successes(repo, qs, leadId) <= 2 * Measure(repo, leadId).0 + Measure(repo, leadId).1
    ensures LeadInv(RunAll(repo, qs), leadId)
    ensures Distinct(Assignees(RunAll(repo, qs).logs, leadId))
    decreases |qs|
  {
    if qs != [] {
      var q := qs[0];
      if q.leadId == leadId {
        if Act(repo, q).1.Some? {
          ActDecreases(repo, q);
        } else {
          OnlyWorkingLeadsMove(repo, q);
        }
      } else {
        OtherLeadsUntouched(repo, q, leadId);
      }
      RunsEnd(Act(repo, q).0, qs[1..], leadId);
    }
  }

  /** With nobody tried, somebody is chosen exactly when somebody is active. */
  lemma {:induction false} FirstChoice(roster: seq<Sales>, preferred: Option<string>)
    ensures var r := ChooseNext(Active(roster), {}, preferred);
            && (r.None? <==> RosterIds(roster) == {})
            && (r.Some? ==> r.value.id in RosterIds(roster))
  {
    CandidatesAre(roster, {});
    ChoiceIsEligible(Active(roster), {}, preferred);
    if id :| id in RosterIds(roster) {
      var s :| s in roster && s.isActive && s.id == id;
      assert s in Active(roster);
    }
  }

  lemma {:induction false} SingleLine(line: LogLine, leadId: int)
    requires line.leadId == leadId
    ensures TriedIds([line], leadId) == if line.salesId.Some? then {line.salesId.value} else {}
    ensures Assignees([line], leadId)
            == if line.action == LogAssign && line.salesId.Some? then [line.salesId.value] else []
  {
    assert [line][..0] == [];
    assert Assignees([], leadId) == [];
    assert line in [line];
  }

  /** Creation writes one row and one line. */
  lemma {:induction false} CreatedIs(repo: Repo, leadId: int, now: int, preferred: Option<string>)
    returns (line: LogLine, lead: Lead)
    requires leadId !in repo.leads
    requires TriedIds(repo.logs, leadId) == {}
    ensures var (r, l) := Created(repo, leadId, now, preferred);
            l == lead && r.leads == repo.leads[leadId := lead] && r.logs == repo.logs + [line]
    ensures line.leadId == leadId
    ensures lead.status == Expired <==> RosterIds(repo.roster) == {}
    ensures lead.status != Expired ==>
              && lead.status == Assigned && lead.owner.Some? && lead.owner.value in RosterIds(repo.roster)
              && line.action == LogAssign && line.salesId == lead.owner
    ensures lead.status == Expired ==> line.action != LogAssign
  {
    var p := AssignPlan(Active(repo.roster), TriedIds(repo.logs, leadId), leadId, {}, LogAssign, "", None, [], now, preferred);
    FirstChoice(repo.roster, preferred);
    assert {} + TriedIds(repo.logs, leadId) == {};
    line := p.lines[0];
    assert p.lines == [line];
    var start := repo.(leads := repo.leads[leadId := Lead(New, None, None, false)]);
    lead := Changed(start.leads[leadId], p.status, p.assign, p.lock, p.close);
    LoggedAllIs(start.(leads := start.leads[leadId := lead]), p.lines, now);
    assert start.leads[leadId := lead] == repo.leads[leadId := lead];
  }

  /** A lead created into a log without lines for it starts inside the invariant: assigned, or expired at once. */
  lemma {:induction false} CreationStartsClean(repo: Repo, leadId: int, now: int, preferred: Option<string>,
                                               next: Repo, lead: Lead)
    requires leadId !in repo.leads
    requires forall l :: l in repo.logs ==> l.leadId != leadId
    requires (next, lead) == Created(repo, leadId, now, preferred)
    ensures LeadInv(next, leadId) && leadId in next.leads && next.leads[leadId] == lead
    ensures lead.status == Expired <==> RosterIds(repo.roster) == {}
    ensures lead.status != Expired ==>
              && lead.status == Assigned && lead.owner.Some? && lead.owner.value in RosterIds(repo.roster)
              && Assignees(next.logs, leadId) == [lead.owner.value]
  {
    assert TriedIds(repo.logs, leadId) == {};
    var line, l := CreatedIs(repo, leadId, now, preferred);
    NoLinesFor(repo.logs, leadId);
    SingleLine(line, leadId);
    TriedAppend(repo.logs, [line], leadId);
    AssigneesAppend(repo.logs, [line], leadId);
  }
}
