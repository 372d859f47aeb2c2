/**
 Broker actions on leads (api/application/services/lead_service.py) over a
 repository without the atomic `assign_lead`: guarded updates, the assignment
 log, and why one lead's sequence of actions must end.
 */
module LeadActions {
  import opened Common
  import opened LeadRouting

  const LEAD_LOCK_MINUTES := 5
  const CALLBACK_LOCK_MINUTES := 15

  datatype Status = New | Assigned | Called | Callback | Booked | Lost | Expired | Other(name: string)

  datatype Lead = Lead(status: Status, owner: Option<int>, lockExpiresAt: Option<int>, closed: bool)

  /** The `action` column of the assignment log. */
  datatype LogAction =
    | LogAssign | LogEscalate | LogCall | LogNoAnswer | LogCallback | LogBooked | LogLost | LogExpired

  datatype LogLine = LogLine(leadId: int, salesId: Option<int>, action: LogAction, note: string)

  /** The action a broker asks for; any other text is refused. */
  datatype Action = DoCalled | DoNoAnswer | DoCallback | DoBooked | DoLost | DoOther(text: string)

  const ESCALATED_ALL := "[ESCALATED-ALL]"
  const LRU_ROUTING := "LRU routing"
  const REASSIGN_NOTE := "Reassign after no_answer"

  /** One broker request. Times are in minutes. */
  datatype Request = Request(salesId: int, leadId: int, action: Action, note: string, now: int, preferred: Option<string>)

  // ---------------------------------------------------------------- repository

  datatype Repo = Repo(leads: map<int, Lead>, logs: seq<LogLine>, roster: seq<Sales>)

  /** The guard of an update: the row exists and, when an owner is expected, has it. */
  predicate Guard(leads: map<int, Lead>, leadId: int, expected: Option<int>) {
    leadId in leads && (expected.Some? ==> leads[leadId].owner == expected)
  }

  /** The column changes of `update_lead`; `None` leaves a column alone. */
  function Changed(lead: Lead, status: Status, assign: Option<int>, lock: Option<int>, close: bool): Lead {
    Lead(status,
         if assign.Some? then assign else lead.owner,
         if lock.Some? then lock else lead.lockExpiresAt,
         lead.closed || close)
  }

  /** An assignment log line also moves its person to the back of the queue. */
  predicate StampsRoster(line: LogLine) {
    line.salesId.Some? && line.action in [LogAssign, LogEscalate]
  }

  function Logged(repo: Repo, line: LogLine, now: int): Repo {
    repo.(logs := repo.logs + [line],
          roster := if StampsRoster(line) then StampRow(repo.roster, line.salesId.value, now) else repo.roster)
  }

  function LoggedAll(repo: Repo, lines: seq<LogLine>, now: int): Repo {
    if lines == [] then repo else Logged(LoggedAll(repo, lines[..|lines| - 1], now), lines[|lines| - 1], now)
  }

  function TriedIds(logs: seq<LogLine>, leadId: int): set<int> {
    set l | l in logs && l.leadId == leadId && l.salesId.Some? :: l.salesId.value
  }

  function Active(roster: seq<Sales>): seq<Sales> {
    Candidates(roster, {})
  }

  // ---------------------------------------------------------------- decisions

  /** What an accepted request does: one guarded update and the lines it logs. */
  datatype Plan = Plan(status: Status, assign: Option<int>, lock: Option<int>, close: bool,
                       expected: Option<int>, lines: seq<LogLine>)

  /** `_assign`, the branch without `assign_lead`, from what it has read. */
  function AssignPlan(active: seq<Sales>, tried: set<int>, leadId: int, excluded: set<int>, action: LogAction,
                      note: string, expected: Option<int>, prelude: seq<LogLine>, now: int,
                      preferred: Option<string>): Plan {
    match ChooseNext(active, excluded + tried, preferred)
    case None =>
      Plan(Expired, None, None, true, expected, prelude + [LogLine(leadId, None, LogExpired, ESCALATED_ALL)])
    case Some(s) =>
      Plan(Assigned, Some(s.id), Some(now + LEAD_LOCK_MINUTES), false, expected,
           prelude + [LogLine(leadId, Some(s.id), action, if note == "" then LRU_ROUTING else note)])
  }

  function ReassignPlan(active: seq<Sales>, tried: set<int>, q: Request): Plan {
    AssignPlan(active, tried, q.leadId, {q.salesId}, LogAssign, REASSIGN_NOTE, Some(q.salesId),
               [LogLine(q.leadId, Some(q.salesId), LogNoAnswer, q.note)], q.now, q.preferred)
  }

  /** What `handle_lead_action` makes of the status it has read. */
  datatype Screened = Refuse | Proceed(plan: Plan) | Reassign

  function Screen(status: Status, q: Request): Screened {
    match q.action
    case DoCalled =>
      if status != Assigned then Refuse else Proceed(OwnPlan(q, Called, None, false, LogCall))
    case DoNoAnswer =>
      if status !in [Assigned, Called] then Refuse else Reassign
    case DoCallback =>
      if status !in [Assigned, Called] then Refuse
      else Proceed(OwnPlan(q, Callback, Some(q.now + CALLBACK_LOCK_MINUTES), false, LogCallback))
    case DoBooked =>
      if status !in [Assigned, Called, Callback] then Refuse else Proceed(OwnPlan(q, Booked, None, true, LogBooked))
    case DoLost =>
      if status !in [Assigned, Called, Callback] then Refuse else Proceed(OwnPlan(q, Lost, None, true, LogLost))
    case DoOther(_) => Refuse
  }

  /** An update of the owner's own lead, with its one log line. */
  function OwnPlan(q: Request, status: Status, lock: Option<int>, close: bool, logged: LogAction): Plan {
    Plan(status, None, lock, close, Some(q.salesId), [LogLine(q.leadId, Some(q.salesId), logged, q.note)])
  }

  predicate Owns(leads: map<int, Lead>, q: Request) {
    q.leadId in leads && leads[q.leadId].owner == Some(q.salesId)
  }

  /** `handle_lead_action` up to its update: None when the action is refused. */
  function ActionPlan(repo: Repo, q: Request): Option<Plan> {
    if !Owns(repo.leads, q) then None
    else
      match Screen(repo.leads[q.leadId].status, q)
      case Refuse => None
      case Proceed(p) => Some(p)
      case Reassign => Some(ReassignPlan(Active(repo.roster), TriedIds(repo.logs, q.leadId), q))
  }

  function Apply(repo: Repo, leadId: int, p: Plan, now: int): (Repo, Option<Lead>) {
    if !Guard(repo.leads, leadId, p.expected) then (repo, None)
    else
      var lead := Changed(repo.leads[leadId], p.status, p.assign, p.lock, p.close);
      (LoggedAll(repo.(leads := repo.leads[leadId := lead]), p.lines, now), Some(lead))
  }

  /** One whole request, run without interruption. */
  function Act(repo: Repo, q: Request): (Repo, Option<Lead>) {
    match ActionPlan(repo, q)
    case None => (repo, None)
    case Some(p) => Apply(repo, q.leadId, p, q.now)
  }

  // ---------------------------------------------------------------- imperative form

  class LeadRepository {
    var leads: map<int, Lead>
    var logs: seq<LogLine>
    var roster: seq<Sales>

    ghost function State(): Repo
      reads this
    {
      Repo(leads, logs, roster)
    }

    constructor (roster: seq<Sales>)
      ensures State() == Repo(map[], [], roster)
    {
      leads := map[];
      logs := [];
      this.roster := roster;
    }

    method UpdateLead(leadId: int, status: Status, assign: Option<int>, lock: Option<int>, close: bool,
                      expected: Option<int>) returns (r: Option<Lead>)
      modifies this`leads
      ensures r.Some? <==> Guard(old(leads), leadId, expected)
      ensures r.Some? ==> r.value == Changed(old(leads)[leadId], status, assign, lock, close)
      ensures leads == if r.Some? then old(leads)[leadId := r.value] else old(leads)
    {
      if leadId !in leads {
        return None;
      }
      var lead := leads[leadId];
      if expected.Some? && lead.owner != expected {
        return None;
      }
      lead := Changed(lead, status, assign, lock, close);
      leads := leads[leadId := lead];
      return Some(lead);
    }

    method AddAssignmentLog(line: LogLine, now: int)
      modifies this`logs, this`roster
      ensures State() == Logged(old(State()), line, now)
    {
      logs := logs + [line];
      if StampsRoster(line) {
        roster := StampRow(roster, line.salesId.value, now);
      }
    }

    method AddLines(lines: seq<LogLine>, now: int)
      modifies this`logs, this`roster
      ensures State() == LoggedAll(old(State()), lines, now)
    {
      for i := 0 to |lines|
        invariant State() == LoggedAll(old(State()), lines[..i], now)
      {
        assert lines[..i + 1][..i] == lines[..i];
        AddAssignmentLog(lines[i], now);
      }
      assert lines[..|lines|] == lines;
    }

    method GetTriedSalesIds(leadId: int) returns (ids: set<int>)
      ensures ids == TriedIds(logs, leadId)
    {
      ids := set l | l in logs && l.leadId == leadId && l.salesId.Some? :: l.salesId.value;
    }

    method Assign(leadId: int, excluded: set<int>, action: LogAction, note: string, expected: Option<int>,
                  prelude: seq<LogLine>, now: int, preferred: Option<string>)
      returns (sales: Option<Sales>, lead: Option<Lead>)
      modifies this
      ensures var p := AssignPlan(Active(old(roster)), TriedIds(old(logs), leadId), leadId, excluded, action, note,
                                  expected, prelude, now, preferred);
              (State(), lead) == Apply(old(State()), leadId, p, now)
      ensures sales == ChooseNext(Active(old(roster)), excluded + TriedIds(old(logs), leadId), preferred)
    {
      var tried := GetTriedSalesIds(leadId);
      sales := ChooseNext(Active(roster), excluded + tried, preferred);
      if sales.None? {
        lead := UpdateLead(leadId, Expired, None, None, true, expected);
        if lead.Some? {
          AddLines(prelude + [LogLine(leadId, None, LogExpired, ESCALATED_ALL)], now);
        }
        return;
      }
      lead := UpdateLead(leadId, Assigned, Some(sales.value.id), Some(now + LEAD_LOCK_MINUTES), false, expected);
      if lead.Some? {
        AddLines(prelude + [LogLine(leadId, Some(sales.value.id), action, if note == "" then LRU_ROUTING else note)], now);
      }
    }

    method UpdateOwned(q: Request, status: Status, lock: Option<int>, close: bool, logged: LogAction)
      returns (updated: Option<Lead>)
      modifies this
      ensures (State(), updated) == Apply(old(State()), q.leadId, OwnPlan(q, status, lock, close, logged), q.now)
    {
      updated := UpdateLead(q.leadId, status, None, lock, close, Some(q.salesId));
      if updated.Some? {
        AddLines([LogLine(q.leadId, Some(q.salesId), logged, q.note)], q.now);
      }
    }

    method HandleLeadAction(q: Request) returns (r: Option<Lead>)
      modifies this
      ensures (State(), r) == Act(old(State()), q)
    {
      if q.leadId !in leads || leads[q.leadId].owner != Some(q.salesId) {
        return None;
      }
      var status := leads[q.leadId].status;
      match q.action {
        case DoCalled =>
          if status != Assigned {
            return None;
          }
          r := UpdateOwned(q, Called, None, false, LogCall);
        case DoNoAnswer =>
          if status !in [Assigned, Called] {
            return None;
          }
          var _, reassigned := Assign(q.leadId, {q.salesId}, LogAssign, REASSIGN_NOTE, Some(q.salesId),
                                      [LogLine(q.leadId, Some(q.salesId), LogNoAnswer, q.note)], q.now, q.preferred);
          r := reassigned;
        case DoCallback =>
          if status !in [Assigned, Called] {
            return None;
          }
          r := UpdateOwned(q, Callback, Some(q.now + CALLBACK_LOCK_MINUTES), false, LogCallback);
        case DoBooked =>
          if status !in [Assigned, Called, Callback] {
            return None;
          }
          r := UpdateOwned(q, Booked, None, true, LogBooked);
        case DoLost =>
          if status !in [Assigned, Called, Callback] {
            return None;
          }
          r := UpdateOwned(q, Lost, None, true, LogLost);
        case DoOther(_) =>
          return None;
      }
    }

    /** `create_customer_lead`: a new row, then the unguarded first assignment. */
    method CreateCustomerLead(leadId: int, now: int, preferred: Option<string>) returns (lead: Lead)
      requires leadId !in leads
      modifies this
      ensures (State(), lead) == Created(old(State()), leadId, now, preferred)
    {
      var row := Lead(New, None, None, false);
      leads := leads[leadId := row];
      var _, given := Assign(leadId, {}, LogAssign, "", None, [], now, preferred);
      lead := if given.Some? then given.value else row;
    }
  }

  function Created(repo: Repo, leadId: int, now: int, preferred: Option<string>): (Repo, Lead) {
    var row := Lead(New, None, None, false);
    var start := repo.(leads := repo.leads[leadId := row]);
    var p := AssignPlan(Active(repo.roster), TriedIds(repo.logs, leadId), leadId, {}, LogAssign, "", None, [], now, preferred);
    var (r, given) := Apply(start, leadId, p, now);
    (r, if given.Some? then given.value else row)
  }
}
