/**
 Any number of broker requests in flight at once. Each request reads, makes one
 guarded update, then writes its log lines, and every one of these is a step of
 its own (api/application/services/lead_service.py).
 */
module LeadInterleaving {
  import opened Common
  import opened LeadRouting
  import opened LeadActions

  /** How far a request has come. `seen` is the status it read. */
  datatype Pc =
    | Ready
    | Reassigning(seen: Status)
    | HasTried(seen: Status, tried: set<int>)
    | Decided(seen: Status, plan: Plan)
    | Logging(lines: seq<LogLine>)
    | Gone

  datatype Task = Task(request: Request, pc: Pc)

  /** History only: one update that hit its row, and the row just before it. */
  datatype Effect = Effect(request: Request, before: Lead, plan: Plan)

  /** `author[i]` is the task that wrote `repo.logs[i]`; `effects` holds each task's update. */
  datatype World = World(repo: Repo, tasks: map<nat, Task>, author: seq<nat>, effects: map<nat, Effect>)

  // ---------------------------------------------------------------- steps

  ghost predicate Spawn(w: World, w': World, t: nat, q: Request) {
    t !in w.tasks && w' == w.(tasks := w.tasks[t := Task(q, Ready)])
  }

  function WithPc(w: World, t: nat, pc: Pc): World
    requires t in w.tasks
  {
    w.(tasks := w.tasks[t := w.tasks[t].(pc := pc)])
  }

  ghost predicate ReadLead(w: World, w': World, t: nat) {
    && t in w.tasks && w.tasks[t].pc.Ready?
    && var q := w.tasks[t].request;
    w' == WithPc(w, t,
      if !Owns(w.repo.leads, q) then Gone
      else
        var status := w.repo.leads[q.leadId].status;
        match Screen(status, q)
        case Refuse => Gone
        case Proceed(p) => Decided(status, p)
        case Reassign => Reassigning(status))
  }

  ghost predicate ReadTried(w: World, w': World, t: nat) {
    && t in w.tasks && w.tasks[t].pc.Reassigning?
    && w' == WithPc(w, t, HasTried(w.tasks[t].pc.seen, TriedIds(w.repo.logs, w.tasks[t].request.leadId)))
  }

  ghost predicate ReadActive(w: World, w': World, t: nat) {
    && t in w.tasks && w.tasks[t].pc.HasTried?
    && var pc := w.tasks[t].pc;
    w' == WithPc(w, t, Decided(pc.seen, ReassignPlan(Active(w.repo.roster), pc.tried, w.tasks[t].request)))
  }

  /** The guarded update: hit, and the log lines are due; or miss, and the request is over. */
  ghost predicate Update(w: World, w': World, t: nat) {
    && t in w.tasks && w.tasks[t].pc.Decided?
    && var q, p := w.tasks[t].request, w.tasks[t].pc.plan;
    if Guard(w.repo.leads, q.leadId, p.expected) then
      var lead := w.repo.leads[q.leadId];
      var leads := w.repo.leads[q.leadId := Changed(lead, p.status, p.assign, p.lock, p.close)];
      w' == WithPc(w, t, Logging(p.lines)).(repo := w.repo.(leads := leads), effects := w.effects[t := Effect(q, lead, p)])
    else
      w' == WithPc(w, t, Gone)
  }

  ghost predicate WriteLog(w: World, w': World, t: nat) {
    && t in w.tasks && w.tasks[t].pc.Logging?
    && var q, lines := w.tasks[t].request, w.tasks[t].pc.lines;
    if lines == [] then w' == WithPc(w, t, Gone)
    else w' == WithPc(w, t, Logging(lines[1..])).(repo := Logged(w.repo, lines[0], q.now), author := w.author + [t])
  }

  ghost predicate TaskStep(w: World, w': World, t: nat) {
    ReadLead(w, w', t) || ReadTried(w, w', t) || ReadActive(w, w', t) || Update(w, w', t) || WriteLog(w, w', t)
  }

  ghost predicate Next(w: World, w': World) {
    (exists t, q :: Spawn(w, w', t, q)) || (exists t :: TaskStep(w, w', t))
  }

  ghost predicate IsTrace(trace: seq<World>) {
    trace != [] && forall i :: 0 <= i < |trace| - 1 ==> Next(trace[i], trace[i + 1])
  }

  /** Nothing in flight, nothing recorded yet; the log may already hold lines of earlier days. */
  ghost predicate Initial(w: World, earlier: nat) {
    w.tasks == map[] && w.effects == map[] && w.author == [] && |w.repo.logs| == earlier
  }

  // ---------------------------------------------------------------- what the log says

  /** The lines a task has written, in order. */
  function LinesBy(logs: seq<LogLine>, author: seq<nat>, t: nat): seq<LogLine>
    requires |logs| == |author|
  {
    if logs == [] then []
    else
      var n := |logs| - 1;
      LinesBy(logs[..n], author[..n], t) + if author[n] == t then [logs[n]] else []
  }

  /** The lines written since the start. */
  function NewLogs(w: World, earlier: nat): seq<LogLine> {
    if earlier <= |w.repo.logs| then w.repo.logs[earlier..] else []
  }

  /** Two lines for a no_answer, one for anything else. */
  function LineCount(q: Request): nat {
    if q.action == DoNoAnswer then 2 else 1
  }

  ghost predicate PlanFits(q: Request, p: Plan) {
    p.expected == Some(q.salesId) && |p.lines| == LineCount(q)
  }

  /** Written so far, then still due, is exactly what the update owes; without an update, nothing. */
  ghost predicate TaskInv(w: World, earlier: nat, t: nat)
    requires t in w.tasks && |NewLogs(w, earlier)| == |w.author|
  {
    var task := w.tasks[t];
    var written := LinesBy(NewLogs(w, earlier), w.author, t);
    && (task.pc.Decided? ==> PlanFits(task.request, task.pc.plan))
    && if t in w.effects then
         var e := w.effects[t];
         && e.request == task.request && PlanFits(e.request, e.plan)
         && e.before.owner == Some(e.request.salesId)
         && (task.pc.Logging? || task.pc.Gone?)
         && written + (if task.pc.Logging? then task.pc.lines else []) == e.plan.lines
       else
         written == [] && !task.pc.Logging?
  }

  ghost predicate Inv(w: World, earlier: nat) {
    && earlier <= |w.repo.logs|
    && |NewLogs(w, earlier)| == |w.author|
    && (forall t :: t in w.tasks ==> TaskInv(w, earlier, t))
    && (forall t :: t in w.effects ==> t in w.tasks)
    && (forall i :: 0 <= i < |w.author| ==> w.author[i] in w.effects)
  }

  lemma {:induction false} LinesByAppend(logs: seq<LogLine>, author: seq<nat>, line: LogLine, who: nat, t: nat)
    requires |logs| == |author|
    ensures LinesBy(logs + [line], author + [who], t) == LinesBy(logs, author, t) + if who == t then [line] else []
  {
    assert (logs + [line])[..|logs|] == logs && (author + [who])[..|author|] == author;
  }

  lemma {:induction false} LinesByNobody(logs: seq<LogLine>, author: seq<nat>, t: nat)
    requires |logs| == |author| && forall i :: 0 <= i < |author| ==> author[i] != t
    ensures LinesBy(logs, author, t) == []
  {
    if logs != [] {
      LinesByNobody(logs[..|logs| - 1], author[..|logs| - 1], t);
    }
  }

  // ---------------------------------------------------------------- the invariant

  lemma {:induction false} ScreenFits(status: Status, q: Request, active: seq<Sales>, tried: set<int>)
    ensures Screen(status, q).Proceed? ==> PlanFits(q, Screen(status, q).plan)
    ensures Screen(status, q).Reassign? ==> q.action == DoNoAnswer
    ensures q.action == DoNoAnswer ==> PlanFits(q, ReassignPlan(active, tried, q))
  {
  }

  /** Tasks on their way to a reassignment are no_answer requests. */
  ghost predicate Reassigners(w: World) {
    forall t :: t in w.tasks && (w.tasks[t].pc.Reassigning? || w.tasks[t].pc.HasTried?) ==>
      w.tasks[t].request.action == DoNoAnswer
  }

  lemma {:induction false} ReadKeeps(w: World, w': World, earlier: nat, t: nat)
    requires Inv(w, earlier) && Reassigners(w)
    requires ReadLead(w, w', t) || ReadTried(w, w', t) || ReadActive(w, w', t)
    ensures Inv(w', earlier)
  {
    var q := w.tasks[t].request;
    assert TaskInv(w, earlier, t);
    if ReadLead(w, w', t) && Owns(w.repo.leads, q) {
      ScreenFits(w.repo.leads[q.leadId].status, q, [], {});
    } else if ReadActive(w, w', t) {
      ScreenFits(w.tasks[t].pc.seen, q, Active(w.repo.roster), w.tasks[t].pc.tried);
    }
    forall u | u in w'.tasks ensures TaskInv(w', earlier, u) {
      assert TaskInv(w, earlier, u);
    }
  }

  lemma {:induction false} UpdateKeeps(w: World, w': World, earlier: nat, t: nat)
    requires Inv(w, earlier) && Update(w, w', t)
    ensures Inv(w', earlier)
  {
    assert TaskInv(w, earlier, t);
    assert NewLogs(w', earlier) == NewLogs(w, earlier);
    forall u | u in w'.tasks ensures TaskInv(w', earlier, u) {
      assert TaskInv(w, earlier, u);
    }
  }

  lemma {:induction false} WriteKeepsTask(w: World, w': World, earlier: nat, t: nat, u: nat)
    requires earlier <= |w.repo.logs| && |NewLogs(w, earlier)| == |w.author|
    requires WriteLog(w, w', t) && w.tasks[t].pc.lines != []
    requires u in w.tasks && TaskInv(w, earlier, u) && TaskInv(w, earlier, t)
    requires NewLogs(w', earlier) == NewLogs(w, earlier) + [w.tasks[t].pc.lines[0]]
    ensures TaskInv(w', earlier, u)
  {
    var lines := w.tasks[t].pc.lines;
    LinesByAppend(NewLogs(w, earlier), w.author, lines[0], t, u);
    if u == t {
      WriteKeepsOwn(w, w', earlier, t, LinesBy(NewLogs(w, earlier), w.author, t));
    }
  }

  /** The writer's own account: one line moves from what is due to what is written. */
  lemma {:induction false} WriteKeepsOwn(w: World, w': World, earlier: nat, t: nat, written: seq<LogLine>)
    requires earlier <= |w.repo.logs| && |NewLogs(w, earlier)| == |w.author|
    requires WriteLog(w, w', t) && w.tasks[t].pc.lines != [] && TaskInv(w, earlier, t)
    requires written == LinesBy(NewLogs(w, earlier), w.author, t)
    requires |NewLogs(w', earlier)| == |w'.author|
    requires LinesBy(NewLogs(w', earlier), w'.author, t) == written + [w.tasks[t].pc.lines[0]]
    ensures TaskInv(w', earlier, t)
  {
    var lines := w.tasks[t].pc.lines;
    assert written + lines == (written + [lines[0]]) + lines[1..];
  }

  lemma {:induction false} LastWriteKeeps(w: World, w': World, earlier: nat, t: nat)
    requires Inv(w, earlier) && WriteLog(w, w', t) && w.tasks[t].pc.lines == []
    ensures Inv(w', earlier)
  {
    assert TaskInv(w, earlier, t);
    forall u | u in w'.tasks ensures TaskInv(w', earlier, u) {
      assert TaskInv(w, earlier, u);
    }
  }

  lemma {:induction false} WriteAppends(w: World, w': World, earlier: nat, t: nat)
    requires earlier <= |w.repo.logs| && WriteLog(w, w', t) && w.tasks[t].pc.lines != []
    ensures earlier <= |w'.repo.logs|
    ensures NewLogs(w', earlier) == NewLogs(w, earlier) + [w.tasks[t].pc.lines[0]]
    ensures w'.author == w.author + [t] && w'.effects == w.effects && w'.tasks.Keys == w.tasks.Keys
  {
  }

  lemma {:induction false} WriteKeeps(w: World, w': World, earlier: nat, t: nat)
    requires Inv(w, earlier) && WriteLog(w, w', t) && w.tasks[t].pc.lines != []
    ensures Inv(w', earlier)
  {
    WriteAppends(w, w', earlier, t);
    assert TaskInv(w, earlier, t);
    forall u | u in w'.tasks ensures TaskInv(w', earlier, u) {
      assert TaskInv(w, earlier, u);
      WriteKeepsTask(w, w', earlier, t, u);
    }
    assert t in w.effects;
  }

  lemma {:induction false} SpawnKeeps(w: World, w': World, earlier: nat, t: nat, q: Request)
    requires Inv(w, earlier) && Spawn(w, w', t, q)
    ensures Inv(w', earlier)
  {
    forall i | 0 <= i < |w.author| ensures w.author[i] != t {
      assert w.author[i] in w.effects;
    }
    LinesByNobody(NewLogs(w, earlier), w.author, t);
    forall u | u in w'.tasks ensures TaskInv(w', earlier, u) {
      if u != t { assert TaskInv(w, earlier, u); }
    }
  }

  lemma {:induction false} ReadReassigners(w: World, w': World, t: nat)
    requires Reassigners(w) && ReadLead(w, w', t)
    ensures Reassigners(w')
  {
    var q := w.tasks[t].request;
    if Owns(w.repo.leads, q) {
      ScreenFits(w.repo.leads[q.leadId].status, q, [], {});
    }
  }

  lemma {:induction false} ReassignersKept(w: World, w': World)
    requires Reassigners(w) && Next(w, w')
    ensures Reassigners(w')
  {
    if t, q :| Spawn(w, w', t, q) {
      SpawnReassigners(w, w', t, q);
    } else {
      var t :| TaskStep(w, w', t);
      if ReadLead(w, w', t) {
        ReadReassigners(w, w', t);
      } else {
        OtherReassigners(w, w', t);
      }
    }
  }

  lemma {:induction false} SpawnReassigners(w: World, w': World, t: nat, q: Request)
    requires Reassigners(w) && Spawn(w, w', t, q)
    ensures Reassigners(w')
  {
  }

  lemma {:induction false} OtherReassigners(w: World, w': World, t: nat)
    requires Reassigners(w)
    requires ReadTried(w, w', t) || ReadActive(w, w', t) || Update(w, w', t) || WriteLog(w, w', t)
    ensures Reassigners(w')
  {
  }

  lemma {:induction false} TaskStepKeeps(w: World, w': World, earlier: nat, t: nat)
    requires Inv(w, earlier) && Reassigners(w) && TaskStep(w, w', t)
    ensures Inv(w', earlier)
  {
    if Update(w, w', t) {
      UpdateKeeps(w, w', earlier, t);
    } else if WriteLog(w, w', t) {
      if w.tasks[t].pc.lines == [] {
        LastWriteKeeps(w, w', earlier, t);
      } else {
        WriteKeeps(w, w', earlier, t);
      }
    } else {
      ReadKeeps(w, w', earlier, t);
    }
  }

  lemma {:induction false} NextKeeps(w: World, w': World, earlier: nat)
    requires Inv(w, earlier) && Reassigners(w) && Next(w, w')
    ensures Inv(w', earlier) && Reassigners(w')
  {
    ReassignersKept(w, w');
    if t, q :| Spawn(w, w', t, q) {
      SpawnKeeps(w, w', earlier, t, q);
    } else {
      var t :| TaskStep(w, w', t);
      TaskStepKeeps(w, w', earlier, t);
    }
  }

  lemma {:induction false} TraceKeeps(trace: seq<World>, earlier: nat, i: nat)
    requires IsTrace(trace) && Initial(trace[0], earlier) && i < |trace|
    ensures Inv(trace[i], earlier) && Reassigners(trace[i])
  {
    if i > 0 {
      TraceKeeps(trace, earlier, i - 1);
      NextKeeps(trace[i - 1], trace[i], earlier);
    }
  }

  /** The lines a task owes the log. */
  function Owed(w: World, t: nat): seq<LogLine> {
    if t in w.effects then w.effects[t].plan.lines else []
  }

  /**
   However the steps interleave: an update only ever hits for the owner at that
   instant, a task whose guard missed writes no line, every line has an author
   whose update hit, and once nothing is in flight each task has written exactly
   the lines its update owes, in order: two for a no_answer, one otherwise.
   */
  lemma {:induction false} LogMatchesEffects(trace: seq<World>, earlier: nat, i: nat, t: nat)
    requires IsTrace(trace) && Initial(trace[0], earlier) && i < |trace|
    requires t in trace[i].tasks
    ensures |NewLogs(trace[i], earlier)| == |trace[i].author|
    ensures t in trace[i].effects ==>
              trace[i].effects[t].before.owner == Some(trace[i].tasks[t].request.salesId)
    ensures trace[i].tasks[t].pc.Gone? ==>
              LinesBy(NewLogs(trace[i], earlier), trace[i].author, t) == Owed(trace[i], t)
    ensures |Owed(trace[i], t)| == if t in trace[i].effects then LineCount(trace[i].tasks[t].request) else 0
    ensures forall k :: 0 <= k < |trace[i].author| ==> trace[i].author[k] in trace[i].effects
  {
    TraceKeeps(trace, earlier, i);
    assert TaskInv(trace[i], earlier, t);
  }

  // ---------------------------------------------------------------- status under interleaving

  predicate Closed(status: Status) {
    status in [Booked, Lost, Expired]
  }

  /** The lead row and one owner's two requests as this counterexample needs them. */
  ghost predicate TwoRequestsInFlight(w: World, leadId: int, a: nat, b: nat) {
    && a != b && a in w.tasks && b in w.tasks && leadId in w.repo.leads
    && w.repo.leads[leadId].status == Assigned && w.repo.leads[leadId].owner.Some?
    && var s := w.repo.leads[leadId].owner.value;
    && w.tasks[a].pc.Ready? && w.tasks[b].pc.Ready?
    && w.tasks[a].request.leadId == leadId && w.tasks[a].request.salesId == s && w.tasks[a].request.action == DoCalled
    && w.tasks[b].request.leadId == leadId && w.tasks[b].request.salesId == s && w.tasks[b].request.action == DoLost
  }

  /**
   The guard looks at the owner only. Two overlapping requests of the same owner
   can therefore reopen a closed lead: both read "assigned", one closes the
   lead, the other then sets it to "called".
   */
  lemma {:induction false} OverlapReopensClosedLead(w: World, leadId: int, a: nat, b: nat) returns (trace: seq<World>)
    requires TwoRequestsInFlight(w, leadId, a, b)
    ensures IsTrace(trace) && |trace| == 5 && trace[0] == w
    ensures leadId in trace[3].repo.leads && trace[3].repo.leads[leadId].status == Lost
    ensures leadId in trace[4].repo.leads && trace[4].repo.leads[leadId].status == Called
  {
    var qa, qb, lead := w.tasks[a].request, w.tasks[b].request, w.repo.leads[leadId];
    var pa, pb := OwnPlan(qa, Called, None, false, LogCall), OwnPlan(qb, Lost, None, true, LogLost);
    var w1 := WithPc(w, a, Decided(Assigned, pa));
    assert ReadLead(w, w1, a) && TaskStep(w, w1, a);
    var w2 := WithPc(w1, b, Decided(Assigned, pb));
    assert ReadLead(w1, w2, b) && TaskStep(w1, w2, b);
    var lost := Changed(lead, Lost, None, None, true);
    var w3 := WithPc(w2, b, Logging(pb.lines)).(
      repo := w2.repo.(leads := w2.repo.leads[leadId := lost]), effects := w2.effects[b := Effect(qb, lead, pb)]);
    assert Update(w2, w3, b) && TaskStep(w2, w3, b);
    var called := Changed(lost, Called, None, None, false);
    var w4 := WithPc(w3, a, Logging(pa.lines)).(
      repo := w3.repo.(leads := w3.repo.leads[leadId := called]), effects := w3.effects[a := Effect(qa, lost, pa)]);
    assert Update(w3, w4, a) && TaskStep(w3, w4, a);
    trace := [w, w1, w2, w3, w4];
  }

  /** Past its read and before its update. */
  predicate InFlight(pc: Pc) {
    pc.Reassigning? || pc.HasTried? || pc.Decided?
  }

  /** The step at `k` is an update of task `t` that hits its row. */
  ghost predicate HitsAt(trace: seq<World>, k: nat, t: nat) {
    && k + 1 < |trace| && Update(trace[k], trace[k + 1], t)
    && Guard(trace[k].repo.leads, trace[k].tasks[t].request.leadId, trace[k].tasks[t].pc.plan.expected)
  }

  /** ... on this lead. */
  ghost predicate HitsLeadAt(trace: seq<World>, k: nat, t: nat, id: int) {
    HitsAt(trace, k, t) && trace[k].tasks[t].request.leadId == id
  }

  /** ... on this lead, which is closed already. */
  ghost predicate TouchesClosedAt(trace: seq<World>, k: nat, t: nat, id: int) {
    HitsLeadAt(trace, k, t, id) && Closed(trace[k].repo.leads[id].status)
  }

  /** ... closing this lead on behalf of its owner. */
  ghost predicate ClosesAt(trace: seq<World>, k: nat, t: nat, id: int, owner: int) {
    && HitsLeadAt(trace, k, t, id) && trace[k].tasks[t].request.salesId == owner
    && Closed(trace[k].tasks[t].pc.plan.status)
  }

  ghost predicate FlyingAt(w: World, t: nat, q: Request) {
    t in w.tasks && w.tasks[t].request == q && InFlight(w.tasks[t].pc)
  }

  /** Task `t` read its lead at `r` and has been in flight from then up to `k`. */
  ghost predicate InFlightSince(trace: seq<World>, r: nat, k: nat, t: nat) {
    && r < k < |trace| && ReadLead(trace[r], trace[r + 1], t)
    && forall j :: r < j <= k ==> FlyingAt(trace[j], t, trace[r].tasks[t].request)
  }

  ghost predicate NoHitAt(trace: seq<World>, k: nat, id: int) {
    forall t :: !HitsLeadAt(trace, k, t, id)
  }

  ghost predicate NoHitBetween(trace: seq<World>, m: nat, k: nat, id: int) {
    forall j :: m < j < k ==> NoHitAt(trace, j, id)
  }

  /** Between the read of `t` and `k`, another request of the same owner closed the lead. */
  ghost predicate OvertakenAt(trace: seq<World>, k: nat, t: nat, id: int, m: nat, u: nat) {
    && k < |trace| && t in trace[k].tasks && u != t && m < k
    && ClosesAt(trace, m, u, id, trace[k].tasks[t].request.salesId)
    && exists r: nat :: r < m && InFlightSince(trace, r, k, t)
  }

  /** A plan changes the owner's own lead; one that closes it leaves the owner. */
  predicate OwnersPlan(q: Request, p: Plan) {
    p.expected == Some(q.salesId) && (Closed(p.status) ==> p.assign == None)
  }

  ghost predicate OwnersPlans(w: World) {
    forall t :: t in w.tasks && w.tasks[t].pc.Decided? ==> OwnersPlan(w.tasks[t].request, w.tasks[t].pc.plan)
  }

  lemma {:induction false} ScreenIsOwners(status: Status, q: Request, active: seq<Sales>, tried: set<int>)
    ensures Screen(status, q).Proceed? ==> OwnersPlan(q, Screen(status, q).plan)
    ensures OwnersPlan(q, ReassignPlan(active, tried, q))
    ensures !Screen(status, q).Refuse? ==> !Closed(status)
  {
  }

  lemma {:induction false} OwnersPlansKept(w: World, w': World)
    requires OwnersPlans(w) && Next(w, w')
    ensures OwnersPlans(w')
  {
    if t, q :| Spawn(w, w', t, q) {
    } else {
      var t :| TaskStep(w, w', t);
      var q := w.tasks[t].request;
      if ReadLead(w, w', t) && Owns(w.repo.leads, q) {
        ScreenIsOwners(w.repo.leads[q.leadId].status, q, [], {});
      } else if ReadActive(w, w', t) {
        ScreenIsOwners(w.tasks[t].pc.seen, q, Active(w.repo.roster), w.tasks[t].pc.tried);
      }
    }
  }

  lemma {:induction false} OwnersPlansHold(trace: seq<World>, i: nat)
    requires IsTrace(trace) && trace[0].tasks == map[] && i < |trace|
    ensures OwnersPlans(trace[i])
  {
    if i > 0 {
      OwnersPlansHold(trace, i - 1);
      OwnersPlansKept(trace[i - 1], trace[i]);
    }
  }

  /** Whoever is in flight was so before, or has just read its lead. */
  lemma {:induction false} InFlightBefore(w: World, w': World, t: nat)
    requires Next(w, w') && t in w'.tasks && InFlight(w'.tasks[t].pc)
    ensures t in w.tasks && w.tasks[t].request == w'.tasks[t].request
    ensures InFlight(w.tasks[t].pc) || ReadLead(w, w', t)
  {
    if u, q :| Spawn(w, w', u, q) {
    } else {
      var u :| TaskStep(w, w', u);
    }
  }

  lemma {:induction false} WhenRead(trace: seq<World>, k: nat, t: nat) returns (r: nat)
    requires IsTrace(trace) && trace[0].tasks == map[] && k < |trace|
    requires t in trace[k].tasks && InFlight(trace[k].tasks[t].pc)
    ensures InFlightSince(trace, r, k, t) && trace[r].tasks[t].request == trace[k].tasks[t].request
  {
    InFlightBefore(trace[k - 1], trace[k], t);
    if InFlight(trace[k - 1].tasks[t].pc) {
      r := WhenRead(trace, k - 1, t);
    } else {
      r := k - 1;
    }
  }

  /** A read that goes on found the lead owned and open. */
  lemma {:induction false} ReadFoundItOpen(trace: seq<World>, r: nat, k: nat, t: nat, id: int)
    requires InFlightSince(trace, r, k, t) && trace[r].tasks[t].request.leadId == id
    ensures id in trace[r].repo.leads && !Closed(trace[r].repo.leads[id].status)
    ensures trace[r + 1].repo == trace[r].repo
  {
    var q := trace[r].tasks[t].request;
    ScreenIsOwners(trace[r].repo.leads[q.leadId].status, q, [], {});
  }

  lemma {:induction false} LeadsStay(w: World, w': World, id: int)
    requires Next(w, w') && id in w.repo.leads
    ensures id in w'.repo.leads
  {
  }

  /** Only a hit on its row changes a lead. */
  lemma {:induction false} OnlyHitsChange(trace: seq<World>, k: nat, id: int)
    requires IsTrace(trace) && k + 1 < |trace| && id in trace[k].repo.leads
    ensures id in trace[k + 1].repo.leads
    ensures trace[k + 1].repo.leads[id] == trace[k].repo.leads[id] || !NoHitAt(trace, k, id)
  {
    var w, w' := trace[k], trace[k + 1];
    if t, q :| Spawn(w, w', t, q) {
    } else {
      var t :| TaskStep(w, w', t);
      if Update(w, w', t) && Guard(w.repo.leads, w.tasks[t].request.leadId, w.tasks[t].pc.plan.expected) {
        assert HitsLeadAt(trace, k, t, w.tasks[t].request.leadId);
      }
    }
  }

  lemma {:induction false} Untouched(trace: seq<World>, i: nat, k: nat, id: int)
    requires IsTrace(trace) && i <= k < |trace| && id in trace[i].repo.leads
    requires forall j :: i <= j < k ==> NoHitAt(trace, j, id)
    ensures id in trace[k].repo.leads && trace[k].repo.leads[id] == trace[i].repo.leads[id]
  {
    if i < k {
      var j := k - 1;
      Untouched(trace, i, j, id);
      OnlyHitsChange(trace, j, id);
    }
  }

  /** A lead whose value at `k` is not the one at `i` was last hit somewhere in between. */
  lemma {:induction false} LastHit(trace: seq<World>, i: nat, k: nat, id: int) returns (m: nat, u: nat)
    requires IsTrace(trace) && i <= k < |trace| && id in trace[i].repo.leads
    requires id in trace[k].repo.leads && trace[k].repo.leads[id] != trace[i].repo.leads[id]
    ensures i <= m < k && HitsLeadAt(trace, m, u, id) && NoHitBetween(trace, m, k, id)
    decreases k
  {
    var j := k - 1;
    if NoHitAt(trace, j, id) {
      StillThere(trace, i, j, id);
      OnlyHitsChange(trace, j, id);
      m, u := LastHit(trace, i, j, id);
    } else {
      u :| HitsLeadAt(trace, j, u, id);
      m := j;
    }
  }

  lemma {:induction false} StillThere(trace: seq<World>, i: nat, k: nat, id: int)
    requires IsTrace(trace) && i <= k < |trace| && id in trace[i].repo.leads
    ensures id in trace[k].repo.leads
  {
    if i < k {
      var j := k - 1;
      StillThere(trace, i, j, id);
      LeadsStay(trace[j], trace[j + 1], id);
    }
  }

  /** The lead just after a hit; after one that closes it, it is closed and has the same owner. */
  lemma {:induction false} AfterHit(trace: seq<World>, m: nat, u: nat, id: int)
    requires HitsLeadAt(trace, m, u, id) && OwnersPlans(trace[m])
    ensures trace[m].repo.leads[id].owner == Some(trace[m].tasks[u].request.salesId)
    ensures id in trace[m + 1].repo.leads && u in trace[m + 1].tasks && trace[m + 1].tasks[u].pc.Logging?
    ensures var p := trace[m].tasks[u].pc.plan;
            && trace[m + 1].repo.leads[id].status == p.status
            && (Closed(p.status) ==> trace[m + 1].repo.leads[id].owner == trace[m].repo.leads[id].owner)
  {
    assert OwnersPlan(trace[m].tasks[u].request, trace[m].tasks[u].pc.plan);
  }

  /** A lead open at `i` and closed at `k` was closed by its owner at the last hit in between. */
  lemma {:induction false} WhenClosed(trace: seq<World>, i: nat, k: nat, id: int, owner: int) returns (m: nat, u: nat)
    requires IsTrace(trace) && trace[0].tasks == map[] && i <= k < |trace|
    requires id in trace[i].repo.leads && !Closed(trace[i].repo.leads[id].status)
    requires id in trace[k].repo.leads && Closed(trace[k].repo.leads[id].status)
    requires trace[k].repo.leads[id].owner == Some(owner)
    ensures i <= m < k && ClosesAt(trace, m, u, id, owner) && NoHitBetween(trace, m, k, id)
    ensures u in trace[m + 1].tasks && trace[m + 1].tasks[u].pc.Logging?
  {
    m, u := LastHit(trace, i, k, id);
    OwnersPlansHold(trace, m);
    AfterHit(trace, m, u, id);
    Untouched(trace, m + 1, k, id);
  }

  /** What a hit on a closed lead was overtaken by. */
  lemma {:induction false} TouchWasOvertaken(trace: seq<World>, k: nat, t: nat, id: int) returns (m: nat, u: nat)
    requires IsTrace(trace) && trace[0].tasks == map[] && TouchesClosedAt(trace, k, t, id)
    ensures OvertakenAt(trace, k, t, id, m, u) && NoHitBetween(trace, m, k, id)
  {
    var r := WhenRead(trace, k, t);
    ReadFoundItOpen(trace, r, k, t, id);
    OwnersPlansHold(trace, k);
    AfterHit(trace, k, t, id);
    m, u := WhenClosed(trace, r + 1, k, id, trace[k].tasks[t].request.salesId);
    assert FlyingAt(trace[m + 1], t, trace[r].tasks[t].request);
  }

  lemma {:induction false} StaysClosed(trace: seq<World>, m: nat, u: nat, k: nat, id: int)
    requires IsTrace(trace) && trace[0].tasks == map[] && m < k < |trace|
    requires HitsLeadAt(trace, m, u, id) && Closed(trace[m].tasks[u].pc.plan.status)
    requires NoHitBetween(trace, m, k, id)
    ensures id in trace[k].repo.leads && Closed(trace[k].repo.leads[id].status)
  {
    OwnersPlansHold(trace, m);
    AfterHit(trace, m, u, id);
    Untouched(trace, m + 1, k, id);
  }

  /**
   Exactly when a hit lands on a closed lead: another request of the same owner
   closed it after this one had read it, and no update hit the lead since.
   */
  lemma {:induction false} TouchesClosedExactlyWhen(trace: seq<World>, k: nat, t: nat, id: int)
    requires IsTrace(trace) && trace[0].tasks == map[] && HitsLeadAt(trace, k, t, id)
    ensures Closed(trace[k].repo.leads[id].status) <==>
            exists m: nat, u: nat :: OvertakenAt(trace, k, t, id, m, u) && NoHitBetween(trace, m, k, id)
  {
    if Closed(trace[k].repo.leads[id].status) {
      var m, u := TouchWasOvertaken(trace, k, t, id);
    } else {
      forall m: nat, u: nat | OvertakenAt(trace, k, t, id, m, u) ensures !NoHitBetween(trace, m, k, id) {
        if NoHitBetween(trace, m, k, id) {
          StaysClosed(trace, m, u, k, id);
        }
      }
    }
  }

  /** The first hit on a lead after a step, up to a known one. */
  lemma {:induction false} FirstHit(trace: seq<World>, m: nat, k: nat, t: nat, id: int) returns (f: nat, u: nat)
    requires m < k && HitsLeadAt(trace, k, t, id)
    ensures m < f <= k && HitsLeadAt(trace, f, u, id) && NoHitBetween(trace, m, f, id)
    decreases k
  {
    if j: nat :| m < j < k && !NoHitAt(trace, j, id) {
      var v :| HitsLeadAt(trace, j, v, id);
      f, u := FirstHit(trace, m, j, v, id);
    } else {
      f, u := k, t;
    }
  }

  ghost predicate SomeTouch(trace: seq<World>, id: int) {
    exists k: nat, t: nat :: TouchesClosedAt(trace, k, t, id)
  }

  ghost predicate SomeOvertaking(trace: seq<World>, id: int) {
    exists k: nat, t: nat, m: nat, u: nat :: HitsLeadAt(trace, k, t, id) && OvertakenAt(trace, k, t, id, m, u)
  }

  lemma {:induction false} OvertakingTouches(trace: seq<World>, k: nat, t: nat, id: int, m: nat, u: nat)
    requires IsTrace(trace) && trace[0].tasks == map[]
    requires HitsLeadAt(trace, k, t, id) && OvertakenAt(trace, k, t, id, m, u)
    ensures SomeTouch(trace, id)
  {
    var f, v := FirstHit(trace, m, k, t, id);
    StaysClosed(trace, m, u, f, id);
    assert TouchesClosedAt(trace, f, v, id);
  }

  /** Over whole runs: a closed lead is touched exactly when a request that hits it is overtaken by its owner's closing one. */
  lemma {:induction false} ClosedIsTouchedExactlyWhen(trace: seq<World>, id: int)
    requires IsTrace(trace) && trace[0].tasks == map[]
    ensures SomeTouch(trace, id) <==> SomeOvertaking(trace, id)
  {
    if SomeTouch(trace, id) {
      var k: nat, t: nat :| TouchesClosedAt(trace, k, t, id);
      var m, u := TouchWasOvertaken(trace, k, t, id);
    } else if SomeOvertaking(trace, id) {
      var k: nat, t: nat, m: nat, u: nat :| HitsLeadAt(trace, k, t, id) && OvertakenAt(trace, k, t, id, m, u);
      OvertakingTouches(trace, k, t, id, m, u);
    }
  }

  // ---------------------------------------------------------------- two requests in flight

  /** One owner's two decided requests on one lead. */
  ghost predicate TwoDecided(w: World, id: int, a: nat, b: nat) {
    && a != b && a in w.tasks && b in w.tasks && id in w.repo.leads && OwnersPlans(w)
    && w.tasks[a].pc.Decided? && w.tasks[b].pc.Decided?
    && w.tasks[a].request.leadId == id && w.tasks[b].request.leadId == id
    && w.repo.leads[id].owner == Some(w.tasks[a].request.salesId) == Some(w.tasks[b].request.salesId)
  }

  /** A run in which only these two move. */
  ghost predicate RunOfTwo(trace: seq<World>, w: World, a: nat, b: nat) {
    && trace != [] && trace[0] == w
    && forall i :: 0 <= i < |trace| - 1 ==> TaskStep(trace[i], trace[i + 1], a) || TaskStep(trace[i], trace[i + 1], b)
  }

  ghost predicate CanTouch(w: World, id: int, a: nat, b: nat) {
    exists trace :: RunOfTwo(trace, w, a, b) && SomeTouch(trace, id)
  }

  /** Past its read, with nothing left to do that would close a lead. */
  predicate Harmless(task: Task) {
    match task.pc
    case Decided(_, p) => !Closed(p.status)
    case Logging(_) => true
    case Gone => true
    case _ => false
  }

  ghost predicate BothHarmless(w: World, id: int, a: nat, b: nat) {
    && a in w.tasks && b in w.tasks && Harmless(w.tasks[a]) && Harmless(w.tasks[b])
    && w.tasks[a].request.leadId == id && w.tasks[b].request.leadId == id
    && id in w.repo.leads && !Closed(w.repo.leads[id].status)
  }

  lemma {:induction false} HarmlessStep(w: World, w': World, id: int, a: nat, b: nat)
    requires BothHarmless(w, id, a, b) && (TaskStep(w, w', a) || TaskStep(w, w', b))
    ensures BothHarmless(w', id, a, b)
  {
  }

  lemma {:induction false} HarmlessRun(trace: seq<World>, w: World, id: int, a: nat, b: nat, i: nat)
    requires RunOfTwo(trace, w, a, b) && BothHarmless(w, id, a, b) && i < |trace|
    ensures BothHarmless(trace[i], id, a, b)
  {
    if i > 0 {
      HarmlessRun(trace, w, id, a, b, i - 1);
      HarmlessStep(trace[i - 1], trace[i], id, a, b);
    }
  }

  /** The world after the update of a decided task whose guard holds. */
  function Hit(w: World, t: nat): World
    requires t in w.tasks && w.tasks[t].pc.Decided? && w.tasks[t].request.leadId in w.repo.leads
  {
    var q, p := w.tasks[t].request, w.tasks[t].pc.plan;
    var lead := w.repo.leads[q.leadId];
    WithPc(w, t, Logging(p.lines)).(
      repo := w.repo.(leads := w.repo.leads[q.leadId := Changed(lead, p.status, p.assign, p.lock, p.close)]),
      effects := w.effects[t := Effect(q, lead, p)])
  }

  /** If `a` closes the lead, or it is closed, `a` and then `b` touch it closed. */
  lemma {:induction false} ClosingFirstTouches(w: World, id: int, a: nat, b: nat)
    requires TwoDecided(w, id, a, b)
    requires Closed(w.repo.leads[id].status) || Closed(w.tasks[a].pc.plan.status)
    ensures CanTouch(w, id, a, b) && CanTouch(w, id, b, a)
  {
    var w1 := Hit(w, a);
    assert Update(w, w1, a) && TaskStep(w, w1, a);
    if Closed(w.repo.leads[id].status) {
      var trace := [w, w1];
      assert TouchesClosedAt(trace, 0, a, id);
      assert RunOfTwo(trace, w, a, b) && RunOfTwo(trace, w, b, a);
    } else {
      var w2 := Hit(w1, b);
      assert Update(w1, w2, b) && TaskStep(w1, w2, b);
      var trace := [w, w1, w2];
      assert TouchesClosedAt(trace, 1, b, id);
      assert RunOfTwo(trace, w, a, b) && RunOfTwo(trace, w, b, a);
    }
  }

  /**
   Two decided requests of the lead's owner can touch it closed, in some order of
   their steps, exactly when it is closed already or one of their plans closes it:
   called with callback never does, lost or booked with anything does.
   */
  lemma {:induction false} OverlapTouchesExactlyWhen(w: World, id: int, a: nat, b: nat)
    requires TwoDecided(w, id, a, b)
    ensures CanTouch(w, id, a, b) <==>
            || Closed(w.repo.leads[id].status)
            || Closed(w.tasks[a].pc.plan.status) || Closed(w.tasks[b].pc.plan.status)
  {
    if Closed(w.repo.leads[id].status) || Closed(w.tasks[a].pc.plan.status) {
      ClosingFirstTouches(w, id, a, b);
    } else if Closed(w.tasks[b].pc.plan.status) {
      ClosingFirstTouches(w, id, b, a);
    } else {
      forall trace | RunOfTwo(trace, w, a, b) ensures !SomeTouch(trace, id) {
        forall k: nat, t: nat ensures !TouchesClosedAt(trace, k, t, id) {
          if k < |trace| {
            HarmlessRun(trace, w, id, a, b, k);
          }
        }
      }
    }
  }

  // ---------------------------------------------------------------- no overlap at all

  /** No owner has two requests on the same lead between read and update. */
  ghost predicate Serial(w: World) {
    forall t, u :: t in w.tasks && u in w.tasks && t != u
      && InFlight(w.tasks[t].pc) && InFlight(w.tasks[u].pc)
      && w.tasks[t].request.leadId == w.tasks[u].request.leadId
      ==> w.tasks[t].request.salesId != w.tasks[u].request.salesId
  }

  lemma {:induction false} OvertakenIsNotSerial(trace: seq<World>, k: nat, t: nat, id: int, m: nat, u: nat)
    requires HitsLeadAt(trace, k, t, id) && OvertakenAt(trace, k, t, id, m, u)
    ensures !Serial(trace[m])
  {
    var r: nat :| r < m && InFlightSince(trace, r, k, t);
    assert FlyingAt(trace[k], t, trace[r].tasks[t].request);
    assert FlyingAt(trace[m], t, trace[r].tasks[t].request);
  }

  lemma {:induction false} SerialNeverTouches(trace: seq<World>, k: nat, t: nat, id: int)
    requires IsTrace(trace) && trace[0].tasks == map[]
    requires forall j :: 0 <= j < |trace| ==> Serial(trace[j])
    ensures !TouchesClosedAt(trace, k, t, id)
  {
    if TouchesClosedAt(trace, k, t, id) {
      var m, u := TouchWasOvertaken(trace, k, t, id);
      OvertakenIsNotSerial(trace, k, t, id, m, u);
    }
  }

  /**
   So if no owner overlaps two requests on one lead, a closed lead is never
   touched again, however the requests of different people interleave.
   */
  lemma {:induction false} SerialKeepsClosed(trace: seq<World>, i: nat, j: nat, leadId: int)
    requires IsTrace(trace) && trace[0].tasks == map[] && i <= j < |trace|
    requires forall k :: 0 <= k < |trace| ==> Serial(trace[k])
    requires leadId in trace[i].repo.leads && Closed(trace[i].repo.leads[leadId].status)
    ensures leadId in trace[j].repo.leads && trace[j].repo.leads[leadId] == trace[i].repo.leads[leadId]
  {
    if i < j {
      var k := j - 1;
      SerialKeepsClosed(trace, i, k, leadId);
      forall t: nat ensures !HitsLeadAt(trace, k, t, leadId) {
        SerialNeverTouches(trace, k, t, leadId);
      }
      OnlyHitsChange(trace, k, leadId);
    }
  }
}
