/**
 No silent degradation: with retrieval done as the source does it, a leg that is
 done with a degraded result is told of by the flags, in every run.
 */
module QueryDegradation {
  import opened Common
  import opened QueryPipeline
  import opened QueryRuns
  import RagLeg

  // ---------------------------------------------------------------- where a result comes from

  predicate HasResult(s: State, l: Leg) {
    s.legs.Get(l).Storing? || (HasStored(s.legs.Get(l)) && s.results.Get(l).Some?)
  }

  /** A leg's result, whether it is about to be stored or has been. */
  function ResultAt(s: State, l: Leg): LegResult
    requires HasResult(s, l)
  {
    if s.legs.Get(l).Storing? then s.legs.Get(l).result else s.results.Get(l).value
  }

  /** A step gives a leg its result when it begins without a call or its backend returns; no other step changes it. */
  lemma {:induction false} ResultOfStep(req: Request, s: State, a: Action, l: Leg)
    requires JoinInv(s) && Enabled(req, s, a) && HasResult(Do(req, s, a), l)
    ensures var r := ResultAt(Do(req, s, a), l);
            || (a == Begin(l) && Begun(req, l).Storing? && r == Begun(req, l).result)
            || (a.Return? && a.leg == l && r == Returning(l, a.outcome).result)
            || (HasResult(s, l) && r == ResultAt(s, l))
  {
  }

  /** The return action a leg's result was made of; None when the leg made no call. */
  lemma {:induction false} CameFrom(req: Request, states: seq<State>, actions: seq<Action>, m: nat, l: Leg)
    returns (at: Option<nat>)
    requires IsRun(req, states, actions) && m <= |actions| && HasResult(states[m], l)
    ensures match at
            case None => Begun(req, l).Storing? && ResultAt(states[m], l) == Begun(req, l).result
            case Some(n) => n < m && actions[n].Return? && actions[n].leg == l
                            && ResultAt(states[m], l) == Returning(l, actions[n].outcome).result
  {
    assert m > 0;
    var n := m - 1;
    StepOfRun(req, states, actions, n);
    ResultOfStep(req, states[n], actions[n], l);
    if actions[n].Return? && actions[n].leg == l {
      at := Some(n);
    } else if actions[n] == Begin(l) {
      at := None;
    } else {
      at := CameFrom(req, states, actions, n, l);
    }
  }

  // ---------------------------------------------------------------- the flags

  /** Retrieval's answers are those of the retrieval backend; anything may still time out or raise. */
  ghost predicate RetrievalAsInSource(actions: seq<Action>) {
    forall n :: 0 <= n < |actions| && actions[n].Return? && actions[n].leg == Rag && actions[n].outcome.Answered? ==>
      exists calls :: actions[n].outcome == RagLeg.RagOutcome(calls)
  }

  /** A flag of this leg's own, a reason code of retrieval, or the mark of an unresolved training turn. */
  predicate TellsOfDegraded(req: Request, l: Leg, f: Flag) {
    || Names(l, f)
    || (l == Rag && f.Note? && RagLeg.IsCode(f.text))
    || (f == TrainingUnresolved && Unresolved(req))
  }

  predicate DegradationTold(req: Request, l: Leg, flags: seq<Flag>) {
    exists i :: 0 <= i < |flags| && TellsOfDegraded(req, l, flags[i])
  }

  lemma {:induction false} SourceIsReasoned(actions: seq<Action>, n: nat, l: Leg, o: Outcome)
    requires RetrievalAsInSource(actions) && n < |actions| && actions[n] == Return(l, o) && Degrades(o)
    ensures Reasoned(l, o)
    ensures l == Rag && o.Answered? ==> forall i :: 0 <= i < |o.reasons| ==> RagLeg.IsCode(o.reasons[i])
  {
    if l == Rag && o.Answered? {
      var calls :| o == RagLeg.RagOutcome(calls);
      RagLeg.DegradedHasReasons(calls);
      assert o.reasons[0] != "";
    }
  }

  lemma {:induction false} ToldIsTold(req: Request, l: Leg, o: Outcome, flags: seq<Flag>)
    requires Told(l, o, flags)
    requires l == Rag && o.Answered? ==> forall i :: 0 <= i < |o.reasons| ==> RagLeg.IsCode(o.reasons[i])
    ensures DegradationTold(req, l, flags)
  {
    var i :| 0 <= i < |flags| && TellsOf(l, o, flags[i]);
    assert TellsOfDegraded(req, l, flags[i]);
  }

  /** A leg that made no call is degraded only for want of a context project, and says so. */
  lemma {:induction false} ClosedIsTold(req: Request, states: seq<State>, actions: seq<Action>, m: nat, l: Leg)
    requires IsRun(req, states, actions) && m <= |actions|
    requires states[m].legs.Get(l).Sent? || states[m].legs.Get(l).Joined?
    requires Begun(req, l).Storing? && Begun(req, l).result.degraded
    ensures DegradationTold(req, l, states[m].flags)
  {
    UnresolvedTurnIsFlagged(req, states[..m + 1], actions[..m], l);
    var flags := states[m].flags;
    assert Holds(flags, TrainingUnresolved);
    var i :| 0 <= i < |flags| && flags[i] == TrainingUnresolved;
    assert TellsOfDegraded(req, l, flags[i]);
  }

  /** In every run of the source, a leg that is done with a degraded result is told of by the flags. */
  lemma {:induction false} NoSilentDegradation(req: Request, states: seq<State>, actions: seq<Action>, m: nat, l: Leg)
    requires IsRun(req, states, actions) && m <= |actions| && RetrievalAsInSource(actions)
    requires states[m].legs.Get(l).Sent? || states[m].legs.Get(l).Joined?
    ensures states[m].results.Get(l).Some?
    ensures states[m].results.Get(l).value.degraded ==> DegradationTold(req, l, states[m].flags)
  {
    RunPrefixInv(req, states, actions, m);
    assert HasStored(states[m].legs.Get(l));
    if states[m].results.Get(l).value.degraded {
      var at := CameFrom(req, states, actions, m, l);
      if at.Some? {
        var o := actions[at.value].outcome;
        SourceIsReasoned(actions, at.value, l, o);
        DegradedLegsAreFlaggedExactly(req, states, actions, at.value, m, l, o);
        ToldIsTold(req, l, o, states[m].flags);
      } else {
        ClosedIsTold(req, states, actions, m, l);
      }
    }
  }
}
