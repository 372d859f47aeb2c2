/**
 The step system of overlapping requests and the whole requests of
 api/application/services/lead_service.py agree: a request nobody interrupts does,
 step by step, what it does as one.
 */
module LeadAlone {
  import opened Common
  import opened LeadActions
  import opened LeadInterleaving

  /** A step of task `t`, or a request that only arrives. */
  ghost predicate Moves(w: World, w': World, t: nat) {
    TaskStep(w, w', t) || exists u, q :: Spawn(w, w', u, q)
  }

  ghost predicate Alone(trace: seq<World>, i: nat, j: nat, t: nat) {
    i <= j < |trace| && forall k :: i <= k < j ==> Moves(trace[k], trace[k + 1], t)
  }

  /** What is in the tables once task `t` has gone through, if no other task makes a step. */
  function Prospect(w: World, t: nat): Repo
    requires t in w.tasks
  {
    var q := w.tasks[t].request;
    match w.tasks[t].pc
    case Ready => Act(w.repo, q).0
    case Reassigning(_) =>
      Apply(w.repo, q.leadId, ReassignPlan(Active(w.repo.roster), TriedIds(w.repo.logs, q.leadId), q), q.now).0
    case HasTried(_, tried) => Apply(w.repo, q.leadId, ReassignPlan(Active(w.repo.roster), tried, q), q.now).0
    case Decided(_, p) => Apply(w.repo, q.leadId, p, q.now).0
    case Logging(lines) => LoggedAll(w.repo, lines, q.now)
    case Gone => w.repo
  }

  /** Lines are logged one by one from the front as they are from the back. */
  lemma {:induction false} LoggedFromFront(repo: Repo, lines: seq<LogLine>, now: int)
    requires lines != []
    ensures LoggedAll(repo, lines, now) == LoggedAll(Logged(repo, lines[0], now), lines[1..], now)
  {
    var n := |lines| - 1;
    if n > 0 {
      LoggedFromFront(repo, lines[..n], now);
      assert lines[..n][1..] == lines[1..][..n - 1];
    } else {
      assert lines[..0] == [];
    }
  }

  lemma {:induction false} StepKeepsProspect(w: World, w': World, t: nat)
    requires t in w.tasks && Moves(w, w', t)
    ensures t in w'.tasks && w'.tasks[t].request == w.tasks[t].request
    ensures Prospect(w', t) == Prospect(w, t)
  {
    if WriteLog(w, w', t) && w.tasks[t].pc.lines != [] {
      LoggedFromFront(w.repo, w.tasks[t].pc.lines, w.tasks[t].request.now);
    }
  }

  lemma {:induction false} ProspectStays(trace: seq<World>, i: nat, j: nat, t: nat)
    requires Alone(trace, i, j, t) && t in trace[i].tasks
    ensures t in trace[j].tasks && trace[j].tasks[t].request == trace[i].tasks[t].request
    ensures Prospect(trace[j], t) == Prospect(trace[i], t)
    decreases j
  {
    if i < j {
      ProspectStays(trace, i, j - 1, t);
      var k := j - 1;
      assert Moves(trace[k], trace[k + 1], t);
      StepKeepsProspect(trace[j - 1], trace[j], t);
    }
  }

  /** A request that goes from start to end without another's step in between leaves what the whole request leaves. */
  lemma {:induction false} AloneIsAct(trace: seq<World>, i: nat, j: nat, t: nat)
    requires Alone(trace, i, j, t) && t in trace[i].tasks
    requires trace[i].tasks[t].pc.Ready? && t in trace[j].tasks && trace[j].tasks[t].pc.Gone?
    ensures trace[j].repo == Act(trace[i].repo, trace[i].tasks[t].request).0
  {
    ProspectStays(trace, i, j, t);
  }

  // ---------------------------------------------------------------- and it can go through

  /** At most how many steps a task has left. */
  function StepsLeft(pc: Pc): nat {
    match pc
    case Ready => 7
    case Reassigning(_) => 6
    case HasTried(_, _) => 5
    case Decided(_, p) => |p.lines| + 2
    case Logging(lines) => |lines| + 1
    case Gone => 0
  }

  lemma {:induction false} CanMove(w: World, t: nat) returns (w': World)
    requires t in w.tasks && !w.tasks[t].pc.Gone?
    ensures TaskStep(w, w', t) && t in w'.tasks && StepsLeft(w'.tasks[t].pc) < StepsLeft(w.tasks[t].pc)
  {
    var q := w.tasks[t].request;
    match w.tasks[t].pc
    case Ready =>
      ScreenFits(if q.leadId in w.repo.leads then w.repo.leads[q.leadId].status else New, q, [], {});
      w' := WithPc(w, t,
        if !Owns(w.repo.leads, q) then Gone
        else
          var status := w.repo.leads[q.leadId].status;
          match Screen(status, q)
          case Refuse => Gone
          case Proceed(p) => Decided(status, p)
          case Reassign => Reassigning(status));
      assert ReadLead(w, w', t);
    case Reassigning(seen) =>
      w' := WithPc(w, t, HasTried(seen, TriedIds(w.repo.logs, q.leadId)));
      assert ReadTried(w, w', t);
    case HasTried(seen, tried) =>
      var p := ReassignPlan(Active(w.repo.roster), tried, q);
      w' := WithPc(w, t, Decided(seen, p));
      assert ReadActive(w, w', t) && |p.lines| == 2;
    case Decided(_, p) =>
      if Guard(w.repo.leads, q.leadId, p.expected) {
        var lead := w.repo.leads[q.leadId];
        var leads := w.repo.leads[q.leadId := Changed(lead, p.status, p.assign, p.lock, p.close)];
        w' := WithPc(w, t, Logging(p.lines)).(repo := w.repo.(leads := leads), effects := w.effects[t := Effect(q, lead, p)]);
      } else {
        w' := WithPc(w, t, Gone);
      }
      assert Update(w, w', t);
    case Logging(lines) =>
      w' := if lines == [] then WithPc(w, t, Gone)
            else WithPc(w, t, Logging(lines[1..])).(repo := Logged(w.repo, lines[0], q.now), author := w.author + [t]);
      assert WriteLog(w, w', t);
  }

  /** Nothing keeps a request that is alone from going through, within seven steps. */
  lemma {:induction false} AloneGoesThrough(w: World, t: nat) returns (trace: seq<World>)
    requires t in w.tasks
    ensures 1 <= |trace| <= StepsLeft(w.tasks[t].pc) + 1 && trace[0] == w && Alone(trace, 0, |trace| - 1, t)
    ensures t in trace[|trace| - 1].tasks && trace[|trace| - 1].tasks[t].pc.Gone?
    decreases StepsLeft(w.tasks[t].pc)
  {
    if w.tasks[t].pc.Gone? {
      trace := [w];
    } else {
      var w' := CanMove(w, t);
      var rest := AloneGoesThrough(w', t);
      trace := [w] + rest;
      forall k | 0 <= k < |trace| - 1 ensures Moves(trace[k], trace[k + 1], t) {
        if k > 0 {
          assert Moves(rest[k - 1], rest[k - 1 + 1], t);
        }
      }
    }
  }
}
