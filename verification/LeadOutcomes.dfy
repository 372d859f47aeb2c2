/**
 What a broker's request and a new lead leave behind, and who is chosen, action by
 action, said without the functions that decide it.
 */
module LeadOutcomes {
  import opened Common
  import opened LeadRouting
  import opened LeadActions

  // ---------------------------------------------------------------- who is chosen

  /** Somebody the lead may go to: on the roster, active, not the given people, not tried before. */
  ghost predicate MayTake(repo: Repo, leadId: int, not: set<int>, s: Sales) {
    && s in repo.roster && s.isActive && s.id !in not
    && forall l :: l in repo.logs && l.leadId == leadId ==> l.salesId != Some(s.id)
  }

  /** Both never served, or both at the same instant, however it is written. */
  predicate ServedTogether(a: Sales, b: Sales) {
    if a.lastAssignedAt.None? || b.lastAssignedAt.None? then a.lastAssignedAt == b.lastAssignedAt
    else Instant(a.lastAssignedAt.value) == Instant(b.lastAssignedAt.value)
  }

  /** In which order people are served: never served before longest ago, then by priority, then by id. */
  lemma KeyLessIs(a: Sales, b: Sales)
    ensures a.lastAssignedAt == None && b.lastAssignedAt != None ==> KeyLess(a, b) && !KeyLess(b, a)
    ensures (&& a.lastAssignedAt.Some? && b.lastAssignedAt.Some?
             && Instant(a.lastAssignedAt.value) < Instant(b.lastAssignedAt.value)) ==> KeyLess(a, b) && !KeyLess(b, a)
    ensures ServedTogether(a, b) && a.priority > b.priority ==> KeyLess(a, b) && !KeyLess(b, a)
    ensures ServedTogether(a, b) && a.priority == b.priority ==> (KeyLess(a, b) <==> a.id < b.id)
  {
  }

  /** A local time without an offset is a time in UTC. */
  lemma NaiveIsUtc(local: int, offset: int)
    ensures Instant(Naive(local)) == Instant(Aware(local, 0)) == Instant(Aware(local + offset, offset))
  {
  }

  lemma {:induction false} FirstCandidate(active: seq<Sales>, excluded: set<int>, uid: string)
    ensures var r := FirstWithUid(Candidates(active, excluded), uid);
            match r
            case None => forall i :: 0 <= i < |active| ==> !(Eligible(active[i], excluded) && active[i].firebaseUid == Some(uid))
            case Some(s) =>
              exists i :: 0 <= i < |active| && active[i] == s && Eligible(s, excluded) && s.firebaseUid == Some(uid)
                && forall j :: 0 <= j < i ==> !(Eligible(active[j], excluded) && active[j].firebaseUid == Some(uid))
  {
    if active != [] {
      var rest := active[1..];
      FirstCandidate(rest, excluded, uid);
      var r := FirstWithUid(Candidates(active, excluded), uid);
      if Eligible(active[0], excluded) && active[0].firebaseUid == Some(uid) {
        assert r == Some(active[0]);
      } else {
        assert Eligible(active[0], excluded) ==> Candidates(active, excluded)[1..] == Candidates(rest, excluded);
        assert !Eligible(active[0], excluded) ==> Candidates(active, excluded) == Candidates(rest, excluded);
        if r.Some? {
          var i :| 0 <= i < |rest| && rest[i] == r.value && Eligible(r.value, excluded) && r.value.firebaseUid == Some(uid)
                   && forall j :: 0 <= j < i ==> !(Eligible(rest[j], excluded) && rest[j].firebaseUid == Some(uid));
          forall j | 0 <= j < i + 1 ensures !(Eligible(active[j], excluded) && active[j].firebaseUid == Some(uid)) {
            if j > 0 { assert active[j] == rest[j - 1]; }
          }
          assert active[i + 1] == r.value;
        } else {
          forall j | 0 <= j < |active| ensures !(Eligible(active[j], excluded) && active[j].firebaseUid == Some(uid)) {
            if j > 0 { assert active[j] == rest[j - 1]; }
          }
        }
      }
    }
  }

  /**
   An eligible person with the preferred identity is chosen, the first of them, whoever
   was served longer ago. An empty preference, or one nobody eligible has, changes nothing.
   */
  lemma {:induction false} PreferredIsChosen(active: seq<Sales>, excluded: set<int>, uid: string)
    ensures uid == "" || (forall s :: s in active && s.isActive && s.id !in excluded ==> s.firebaseUid != Some(uid)) ==>
              ChooseNext(active, excluded, Some(uid)) == ChooseNext(active, excluded, None)
    ensures forall i ::
              && uid != "" && 0 <= i < |active| && active[i].isActive && active[i].id !in excluded
              && active[i].firebaseUid == Some(uid)
              && (forall j :: 0 <= j < i && active[j].isActive && active[j].id !in excluded ==> active[j].firebaseUid != Some(uid))
              ==> ChooseNext(active, excluded, Some(uid)) == Some(active[i])
  {
    FirstCandidate(active, excluded, uid);
    CandidatesAre(active, excluded);
    forall i |
      && uid != "" && 0 <= i < |active| && active[i].isActive && active[i].id !in excluded
      && active[i].firebaseUid == Some(uid)
      && forall j :: 0 <= j < i && active[j].isActive && active[j].id !in excluded ==> active[j].firebaseUid != Some(uid)
      ensures ChooseNext(active, excluded, Some(uid)) == Some(active[i])
    {
      assert active[i] in Candidates(active, excluded);
      assert FirstWithUid(Candidates(active, excluded), uid).Some?;
    }
  }

  /** Whom a request may pass the lead to, from the reads the source makes. */
  lemma {:induction false} ChosenMayTake(repo: Repo, leadId: int, not: set<int>, preferred: Option<string>)
    ensures var r := ChooseNext(Active(repo.roster), not + TriedIds(repo.logs, leadId), preferred);
            && (r.Some? ==> MayTake(repo, leadId, not, r.value))
            && (r.None? ==> forall s :: !MayTake(repo, leadId, not, s))
  {
    var excluded := not + TriedIds(repo.logs, leadId);
    ChoiceIsEligible(Active(repo.roster), excluded, preferred);
    CandidatesAre(repo.roster, {});
    var r := ChooseNext(Active(repo.roster), excluded, preferred);
    if r.Some? {
      forall l | l in repo.logs && l.leadId == leadId ensures l.salesId != Some(r.value.id) {
        assert l.salesId.Some? ==> l.salesId.value in TriedIds(repo.logs, leadId);
      }
    } else {
      forall s ensures !MayTake(repo, leadId, not, s) {
        if MayTake(repo, leadId, not, s) {
          MayTakeIsEligible(repo, leadId, not, s);
        }
      }
    }
  }

  lemma {:induction false} MayTakeIsEligible(repo: Repo, leadId: int, not: set<int>, s: Sales)
    requires MayTake(repo, leadId, not, s)
    ensures s in Active(repo.roster) && Eligible(s, not + TriedIds(repo.logs, leadId))
  {
    CandidatesAre(repo.roster, {});
  }

  // ---------------------------------------------------------------- what a request leaves

  /** When a request is carried out: its broker owns the lead, whose status its action allows. */
  predicate Allowed(repo: Repo, q: Request) {
    && q.leadId in repo.leads && repo.leads[q.leadId].owner == Some(q.salesId)
    && var status := repo.leads[q.leadId].status;
    match q.action
    case DoCalled => status == Assigned
    case DoNoAnswer => status == Assigned || status == Called
    case DoCallback => status == Assigned || status == Called
    case DoBooked => status == Assigned || status == Called || status == Callback
    case DoLost => status == Assigned || status == Called || status == Callback
    case DoOther(_) => false
  }

  /** The lead row after an action of the owner's own. */
  function OwnOutcome(lead: Lead, q: Request): Lead {
    match q.action
    case DoCalled => lead.(status := Called)
    case DoCallback => lead.(status := Callback, lockExpiresAt := Some(q.now + 15))
    case DoBooked => lead.(status := Booked, closed := true)
    case DoLost => lead.(status := Lost, closed := true)
    case _ => lead
  }

  function OwnLog(q: Request): LogAction {
    match q.action
    case DoCalled => LogCall
    case DoCallback => LogCallback
    case DoBooked => LogBooked
    case _ => LogLost
  }

  /** Everyone on the roster as before, except that this person was served now. */
  ghost predicate ServedNow(before: seq<Sales>, after: seq<Sales>, id: int, now: int) {
    && |after| == |before|
    && forall i :: 0 <= i < |before| ==>
         after[i] == if before[i].id == id then before[i].(lastAssignedAt := Some(Aware(now, 0))) else before[i]
  }

  /** A request is carried out exactly when it is allowed; refused, it changes nothing. */
  lemma {:induction false} CarriedOutExactlyWhen(repo: Repo, q: Request)
    ensures Act(repo, q).1.Some? <==> Allowed(repo, q)
    ensures !Allowed(repo, q) ==> Act(repo, q).0 == repo
    ensures Allowed(repo, q) ==>
              && Act(repo, q).0.leads == repo.leads[q.leadId := Act(repo, q).1.value]
  {
    if Allowed(repo, q) && q.action != DoNoAnswer {
      OwnAction(repo, q);
    } else if Allowed(repo, q) {
      PassedOn(repo, q);
    }
  }

  lemma {:induction false} OneLine(repo: Repo, line: LogLine, now: int)
    ensures LoggedAll(repo, [line], now) == Logged(repo, line, now)
  {
    assert [line][..0] == [];
  }

  lemma {:induction false} TwoLines(repo: Repo, a: LogLine, b: LogLine, now: int)
    ensures LoggedAll(repo, [a, b], now) == Logged(Logged(repo, a, now), b, now)
  {
    assert [a, b][..1] == [a];
    OneLine(repo, a, now);
  }

  /** An action of the owner's own: the row it writes, and its one log line. */
  lemma {:induction false} OwnAction(repo: Repo, q: Request)
    requires Allowed(repo, q) && q.action != DoNoAnswer
    ensures var lead := OwnOutcome(repo.leads[q.leadId], q);
            Act(repo, q) ==
            (Repo(repo.leads[q.leadId := lead], repo.logs + [LogLine(q.leadId, Some(q.salesId), OwnLog(q), q.note)], repo.roster),
             Some(lead))
  {
    var p := ActionPlan(repo, q).value;
    var lead := Changed(repo.leads[q.leadId], p.status, p.assign, p.lock, p.close);
    OneLine(repo.(leads := repo.leads[q.leadId := lead]), p.lines[0], q.now);
    assert p.lines == [p.lines[0]];
  }

  /**
   No answer: the lead is passed on to somebody who may take it, locked for five
   minutes, and that person counts as served; with nobody left it expires, closed.
   Two log lines are written, the broker's first.
   */
  lemma {:induction false} PassedOn(repo: Repo, q: Request)
    requires Allowed(repo, q) && q.action == DoNoAnswer
    ensures var (after, r) := Act(repo, q);
            var lead := repo.leads[q.leadId];
            var own := LogLine(q.leadId, Some(q.salesId), LogNoAnswer, q.note);
            && r.Some? && after.leads == repo.leads[q.leadId := r.value]
            && if exists s :: MayTake(repo, q.leadId, {q.salesId}, s) then
                 exists s :: MayTake(repo, q.leadId, {q.salesId}, s)
                   && r.value == Lead(Assigned, Some(s.id), Some(q.now + 5), lead.closed)
                   && after.logs == repo.logs + [own, LogLine(q.leadId, Some(s.id), LogAssign, REASSIGN_NOTE)]
                   && ServedNow(repo.roster, after.roster, s.id, q.now)
               else
                 && r.value == Lead(Expired, lead.owner, lead.lockExpiresAt, true)
                 && after.logs == repo.logs + [own, LogLine(q.leadId, None, LogExpired, ESCALATED_ALL)]
                 && after.roster == repo.roster
  {
    var tried := TriedIds(repo.logs, q.leadId);
    var choice := ChooseNext(Active(repo.roster), {q.salesId} + tried, q.preferred);
    ChosenMayTake(repo, q.leadId, {q.salesId}, q.preferred);
    PassingPlan(Active(repo.roster), tried, q, choice);
    PassingApplied(repo, q, ReassignPlan(Active(repo.roster), tried, q));
    if choice.Some? {
      StampIsServed(repo.roster, choice.value.id, q.now);
    }
  }

  lemma {:induction false} PassingPlan(active: seq<Sales>, tried: set<int>, q: Request, choice: Option<Sales>)
    requires choice == ChooseNext(active, {q.salesId} + tried, q.preferred)
    ensures var own := LogLine(q.leadId, Some(q.salesId), LogNoAnswer, q.note);
            ReassignPlan(active, tried, q) ==
            match choice
            case None =>
              Plan(Expired, None, None, true, Some(q.salesId), [own, LogLine(q.leadId, None, LogExpired, ESCALATED_ALL)])
            case Some(s) =>
              Plan(Assigned, Some(s.id), Some(q.now + 5), false, Some(q.salesId),
                   [own, LogLine(q.leadId, Some(s.id), LogAssign, REASSIGN_NOTE)])
  {
  }

  lemma {:induction false} PassingApplied(repo: Repo, q: Request, p: Plan)
    requires q.leadId in repo.leads && repo.leads[q.leadId].owner == Some(q.salesId) == p.expected && |p.lines| == 2
    ensures var lead := Changed(repo.leads[q.leadId], p.status, p.assign, p.lock, p.close);
            var next := repo.(leads := repo.leads[q.leadId := lead]);
            Apply(repo, q.leadId, p, q.now) == (Logged(Logged(next, p.lines[0], q.now), p.lines[1], q.now), Some(lead))
    ensures repo.logs + [p.lines[0]] + [p.lines[1]] == repo.logs + p.lines
  {
    var lead := Changed(repo.leads[q.leadId], p.status, p.assign, p.lock, p.close);
    assert p.lines == [p.lines[0], p.lines[1]];
    TwoLines(repo.(leads := repo.leads[q.leadId := lead]), p.lines[0], p.lines[1], q.now);
  }

  lemma {:induction false} StampIsServed(roster: seq<Sales>, id: int, now: int)
    ensures ServedNow(roster, StampRow(roster, id, now), id, now)
  {
  }

  /** A log line counts as serving its person if it assigns or escalates. */
  lemma {:induction false} LoggingServes(repo: Repo, line: LogLine, now: int)
    ensures var after := Logged(repo, line, now);
            && after.logs == repo.logs + [line] && after.leads == repo.leads
            && if line.salesId.Some? && (line.action == LogAssign || line.action == LogEscalate)
               then ServedNow(repo.roster, after.roster, line.salesId.value, now)
               else after.roster == repo.roster
  {
    if line.salesId.Some? {
      StampIsServed(repo.roster, line.salesId.value, now);
    }
  }

  // ---------------------------------------------------------------- a new lead

  /** The first assignment of a lead that has just been stored. */
  lemma {:induction false} FirstPlan(active: seq<Sales>, tried: set<int>, leadId: int, now: int, preferred: Option<string>,
                                     choice: Option<Sales>)
    requires choice == ChooseNext(active, {} + tried, preferred)
    ensures AssignPlan(active, tried, leadId, {}, LogAssign, "", None, [], now, preferred) ==
            match choice
            case None => Plan(Expired, None, None, true, None, [LogLine(leadId, None, LogExpired, ESCALATED_ALL)])
            case Some(s) =>
              Plan(Assigned, Some(s.id), Some(now + 5), false, None, [LogLine(leadId, Some(s.id), LogAssign, LRU_ROUTING)])
  {
  }

  lemma {:induction false} FirstApplied(repo: Repo, leadId: int, p: Plan, now: int)
    requires p.expected == None && |p.lines| == 1
    ensures var row := Lead(New, None, None, false);
            var lead := Changed(row, p.status, p.assign, p.lock, p.close);
            Apply(repo.(leads := repo.leads[leadId := row]), leadId, p, now) ==
            (Logged(repo.(leads := repo.leads[leadId := lead]), p.lines[0], now), Some(lead))
  {
    var row := Lead(New, None, None, false);
    var lead := Changed(row, p.status, p.assign, p.lock, p.close);
    assert repo.leads[leadId := row][leadId := lead] == repo.leads[leadId := lead];
    assert p.lines == [p.lines[0]];
    OneLine(repo.(leads := repo.leads[leadId := lead]), p.lines[0], now);
  }

  lemma {:induction false} CreatedFor(repo: Repo, leadId: int, now: int, preferred: Option<string>, choice: Option<Sales>)
    requires choice == ChooseNext(Active(repo.roster), {} + TriedIds(repo.logs, leadId), preferred)
    ensures Created(repo, leadId, now, preferred) ==
            match choice
            case None =>
              var lead := Lead(Expired, None, None, true);
              (Repo(repo.leads[leadId := lead], repo.logs + [LogLine(leadId, None, LogExpired, ESCALATED_ALL)], repo.roster), lead)
            case Some(s) =>
              var lead := Lead(Assigned, Some(s.id), Some(now + 5), false);
              (Repo(repo.leads[leadId := lead], repo.logs + [LogLine(leadId, Some(s.id), LogAssign, LRU_ROUTING)],
                    StampRow(repo.roster, s.id, now)), lead)
  {
    var tried := TriedIds(repo.logs, leadId);
    FirstPlan(Active(repo.roster), tried, leadId, now, preferred, choice);
    FirstApplied(repo, leadId, AssignPlan(Active(repo.roster), tried, leadId, {}, LogAssign, "", None, [], now, preferred), now);
  }

  /** A new lead is given to somebody active, locked for five minutes, or expires at once when there is nobody. */
  lemma {:induction false} NewLeadIsGiven(repo: Repo, leadId: int, now: int, preferred: Option<string>)
    ensures var (after, lead) := Created(repo, leadId, now, preferred);
            && after.leads == repo.leads[leadId := lead]
            && if exists s :: MayTake(repo, leadId, {}, s) then
                 exists s :: MayTake(repo, leadId, {}, s)
                   && lead == Lead(Assigned, Some(s.id), Some(now + 5), false)
                   && after.logs == repo.logs + [LogLine(leadId, Some(s.id), LogAssign, LRU_ROUTING)]
                   && ServedNow(repo.roster, after.roster, s.id, now)
               else
                 && lead == Lead(Expired, None, None, true)
                 && after.logs == repo.logs + [LogLine(leadId, None, LogExpired, ESCALATED_ALL)]
                 && after.roster == repo.roster
  {
    var choice := ChooseNext(Active(repo.roster), {} + TriedIds(repo.logs, leadId), preferred);
    ChosenMayTake(repo, leadId, {}, preferred);
    CreatedFor(repo, leadId, now, preferred, choice);
    if choice.Some? {
      StampIsServed(repo.roster, choice.value.id, now);
    }
  }
}
