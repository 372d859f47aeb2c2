/**
 What a turn of the query pipeline reads, stores, flags and sends, said without
 the functions that compute it.
 */
module QueryTurns {
  import opened Common
  import opened QueryPipeline
  import opened QueryRuns
  import opened QueryDegradation

  // ---------------------------------------------------------------- frames

  /** The join was given these chunks and images. */
  ghost predicate GivenToJoin(actions: seq<Action>, chunks: seq<int>, images: seq<int>) {
    exists n :: 0 <= n < |actions| && actions[n].Enrich? && actions[n].chunks == chunks && actions[n].images == images
  }

  /** This text came out of the generation. */
  ghost predicate GivenByGeneration(actions: seq<Action>, text: string) {
    exists n :: 0 <= n < |actions| && actions[n] == Action.Generate(text)
  }

  /** This verdict came out of the guard. */
  ghost predicate GivenByGuard(actions: seq<Action>, v: Verdict) {
    exists n :: 0 <= n < |actions| && actions[n] == Action.Verify(v)
  }

  /** What the join, the generation and the guard gave is what the state holds. */
  ghost predicate Given(actions: seq<Action>, s: State) {
    && (!s.phase.Starting? && !s.phase.Waiting? && !s.phase.Enriching? ==> GivenToJoin(actions, s.chunks, s.images))
    && (s.generated.Some? ==> GivenByGeneration(actions, s.generated.value))
    && (s.verdict.Some? ==> GivenByGuard(actions, s.verdict.value))
  }

  lemma {:induction false} GivenInMore(actions: seq<Action>, more: seq<Action>, s: State)
    requires Given(actions, s) && actions <= more
    ensures Given(more, s)
  {
    forall n | 0 <= n < |actions| ensures more[n] == actions[n] {
    }
    if !s.phase.Starting? && !s.phase.Waiting? && !s.phase.Enriching? {
      var n :| 0 <= n < |actions| && actions[n].Enrich? && actions[n].chunks == s.chunks && actions[n].images == s.images;
      assert more[n].Enrich?;
    }
    if s.generated.Some? {
      var n :| 0 <= n < |actions| && actions[n] == Action.Generate(s.generated.value);
      assert more[n] == actions[n];
    }
    if s.verdict.Some? {
      var n :| 0 <= n < |actions| && actions[n] == Action.Verify(s.verdict.value);
      assert more[n] == actions[n];
    }
  }

  lemma {:induction false} GivenStep(req: Request, actions: seq<Action>, s: State, a: Action)
    requires JoinInv(s) && Given(actions, s) && Enabled(req, s, a)
    ensures Given(actions + [a], Do(req, s, a))
  {
    var more := actions + [a];
    GivenInMore(actions, more, s);
    assert more[|actions|] == a;
  }

  lemma {:induction false} GivenInRun(req: Request, states: seq<State>, actions: seq<Action>, m: nat)
    requires IsRun(req, states, actions) && m <= |actions|
    ensures Given(actions[..m], states[m])
  {
    if m > 0 {
      var n := m - 1;
      GivenInRun(req, states, actions, n);
      StepOfRun(req, states, actions, n);
      GivenStep(req, actions[..n], states[n], actions[n]);
      assert actions[..m] == actions[..n] + [actions[n]];
    }
  }

  /**
   At any moment of any run the frames sent are the first of: places if routing
   asked for them, sources, facts, images, the answer. They carry the stored
   results of the geo and the sql leg and what the join was given.
   */
  lemma {:induction false} FramesInOrder(req: Request, states: seq<State>, actions: seq<Action>)
    requires IsRun(req, states, actions)
    ensures var s := states[|actions|];
            && (s.frames != [] ==>
                  && s.results.geo.Some? && s.results.sql.Some? && GivenToJoin(actions, s.chunks, s.images)
                  && s.frames <= (if req.needsGeo then [Places(s.results.geo.value.items)] else [])
                                 + [Sources(s.chunks), Facts(s.results.sql.value.items), Images(s.images)]
                                 + (if s.answer.Some? then [Token(s.answer.value)] else []))
            && (s.phase.Finished? ==>
                  && s.answer.Some?
                  && |s.frames| == if req.needsGeo then 5 else 4)
  {
    var s := states[|actions|];
    FramesFollowTheScript(req, states, actions);
    RunKeepsInv(req, states, actions);
    GivenInRun(req, states, actions, |actions|);
    assert actions[..|actions|] == actions;
    if s.frames != [] {
      assert HasStored(s.legs.Get(Geo)) && HasStored(s.legs.Get(Sql));
    }
  }

  /**
   A token frame carries the generated text if the guard returned HIGH or MEDIUM,
   and the safe copy if it returned LOW, raised or timed out.
   */
  lemma {:induction false} TokenIsVerified(req: Request, states: seq<State>, actions: seq<Action>, i: nat)
    requires IsRun(req, states, actions) && i < |states[|actions|].frames| && states[|actions|].frames[i].Token?
    ensures var s := states[|actions|];
            && s.generated.Some? && GivenByGeneration(actions, s.generated.value)
            && s.verdict.Some? && GivenByGuard(actions, s.verdict.value)
            && s.frames[i].text ==
               match s.verdict.value
               case TimedOut => VERIFICATION_FALLBACK_MESSAGE
               case Raised(_) => VERIFICATION_FALLBACK_MESSAGE
               case Returned(High) => s.generated.value
               case Returned(Medium) => s.generated.value
               case Returned(Low) => VERIFICATION_FALLBACK_MESSAGE
  {
    FramesFollowTheScript(req, states, actions);
    GivenInRun(req, states, actions, |actions|);
    assert actions[..|actions|] == actions;
  }

  // ---------------------------------------------------------------- results

  predicate Done(leg: LegState) {
    leg.Sent? || leg.Joined?
  }

  /** The turn asked for the leg and has a project to read. */
  predicate Called(req: Request, l: Leg) {
    && (match l case Rag => req.needsRag case Sql => req.needsSql case Geo => req.needsGeo)
    && !(req.project == Some("_training") && (req.context == None || req.context == Some("")))
  }

  /**
   In every run a done leg has stored what its backend returned, or nothing,
   degraded, if that failed or was late. A leg that was not called has stored
   nothing; it is degraded if an unresolved training turn asked for text or facts.
   */
  lemma {:induction false} StoredIsReturned(req: Request, states: seq<State>, actions: seq<Action>, m: nat, l: Leg)
    requires IsRun(req, states, actions) && m <= |actions| && Done(states[m].legs.Get(l))
    ensures states[m].results.Get(l).Some?
    ensures Called(req, l) ==>
              exists n, o :: 0 <= n < m && actions[n] == Return(l, o)
                && states[m].results.Get(l).value == if o.Answered? then o.result else LegResult([], true)
    ensures !Called(req, l) ==>
              states[m].results.Get(l).value ==
              LegResult([], match l case Rag => req.needsRag case Sql => req.needsSql case Geo => false)
  {
    RunPrefixInv(req, states, actions, m);
    assert HasStored(states[m].legs.Get(l));
    var at := CameFrom(req, states, actions, m, l);
    if at.Some? {
      ReturnWasCalled(req, states, actions, at.value, l);
      var o := actions[at.value].outcome;
      assert actions[at.value] == Return(l, o);
    }
  }

  lemma {:induction false} CallingIsCalled(req: Request, states: seq<State>, actions: seq<Action>, m: nat, l: Leg)
    requires IsRun(req, states, actions) && m <= |actions| && states[m].legs.Get(l).Calling?
    ensures Called(req, l)
  {
    assert m > 0;
    var n := m - 1;
    StepOfRun(req, states, actions, n);
    if states[n].legs.Get(l).Calling? {
      CallingIsCalled(req, states, actions, n, l);
    } else {
      BeganCalling(req, states[n], actions[n], l);
      BegunIsCalled(req, l);
    }
  }

  lemma {:induction false} BeganCalling(req: Request, s: State, a: Action, l: Leg)
    requires Enabled(req, s, a) && !s.legs.Get(l).Calling? && Do(req, s, a).legs.Get(l).Calling?
    ensures Begun(req, l).Calling?
  {
  }

  lemma {:induction false} BegunIsCalled(req: Request, l: Leg)
    ensures Begun(req, l).Calling? <==> Called(req, l)
  {
  }

  lemma {:induction false} ReturnWasCalled(req: Request, states: seq<State>, actions: seq<Action>, n: nat, l: Leg)
    requires IsRun(req, states, actions) && n < |actions| && actions[n].Return? && actions[n].leg == l
    ensures Called(req, l)
  {
    assert Enabled(req, states[n], actions[n]);
    CallingIsCalled(req, states, actions, n, l);
  }

  /** The backend of a leg, and the project it is to read. */
  function LegCall(req: Request, l: Leg): Call {
    Call(match l case Rag => RagStore case Sql => FactStore case Geo => GeoSearch,
         if req.project == Some("_training") then req.context else req.project)
  }

  ghost predicate Made(calls: seq<Call>, c: Call) {
    exists i :: 0 <= i < |calls| && calls[i] == c
  }

  lemma {:induction false} CallsGrow(req: Request, s: State, a: Action)
    requires Enabled(req, s, a)
    ensures s.calls <= Do(req, s, a).calls
  {
  }

  lemma {:induction false} MadeInMore(calls: seq<Call>, more: seq<Call>, c: Call)
    requires Made(calls, c) && calls <= more
    ensures Made(more, c)
  {
    var i :| 0 <= i < |calls| && calls[i] == c;
    assert more[i] == c;
  }

  /** In every run a leg that is asked for and resolved has called its own backend, for its own project, before it is done. */
  lemma {:induction false} CallsAreMade(req: Request, states: seq<State>, actions: seq<Action>, m: nat, l: Leg)
    requires IsRun(req, states, actions) && m <= |actions| && Called(req, l)
    requires !states[m].legs.Get(l).Unsent? && !states[m].legs.Get(l).Requested?
    ensures Made(states[m].calls, LegCall(req, l))
  {
    assert m > 0;
    var n := m - 1;
    StepOfRun(req, states, actions, n);
    CallsGrow(req, states[n], actions[n]);
    if states[n].legs.Get(l).Unsent? || states[n].legs.Get(l).Requested? {
      assert actions[n] == Action.Begin(l);
      var calls := states[m].calls;
      assert calls[|calls| - 1] == LegCall(req, l);
    } else {
      CallsAreMade(req, states, actions, n, l);
      MadeInMore(states[n].calls, states[m].calls, LegCall(req, l));
    }
  }

  /** Every chunk is one that retrieval has stored; without a stored result there is none. */
  ghost predicate FromRetrieval(s: State, chunks: seq<int>) {
    var stored := if s.results.rag.Some? then s.results.rag.value.items else [];
    forall i :: 0 <= i < |chunks| ==> chunks[i] in stored
  }

  /** The join's own calls: hydration if it kept chunks, and images, of which an unresolved training turn gets none. */
  lemma {:induction false} JoinCalls(req: Request, states: seq<State>, actions: seq<Action>, n: nat)
    requires IsRun(req, states, actions) && n < |actions| && actions[n].Enrich?
    ensures var chunks := actions[n].chunks;
            var training := req.project == Some("_training");
            var scope := if training then req.context else req.project;
            states[n + 1].calls == states[n].calls
              + ((if chunks != [] then [Call(Hydration, scope)] else [])
                 + (if scope != None && scope != Some("") then [Call(ImageSearch, scope)]
                    else if training then [] else [Call(ImageSearch, None)]))
    ensures FromRetrieval(states[n], actions[n].chunks)
    ensures req.project == Some("_training") && (req.context == None || req.context == Some("")) ==> actions[n].images == []
  {
    StepOfRun(req, states, actions, n);
    MergeCallsAre(req, actions[n].chunks);
  }

  lemma {:induction false} MergeCallsAre(req: Request, chunks: seq<int>)
    ensures var training := req.project == Some("_training");
            var scope := if training then req.context else req.project;
            MergeCalls(req, chunks)
            == (if chunks != [] then [Call(Hydration, scope)] else [])
               + (if scope != None && scope != Some("") then [Call(ImageSearch, scope)]
                  else if training then [] else [Call(ImageSearch, None)])
  {
  }

  /** Nothing else calls anything: beginning a leg makes its one call, the join makes its own. */
  lemma {:induction false} OnlyLegsAndJoinCall(req: Request, states: seq<State>, actions: seq<Action>, n: nat)
    requires IsRun(req, states, actions) && n < |actions| && !actions[n].Enrich?
    ensures states[n + 1].calls == states[n].calls
              + if actions[n].Begin? && Called(req, actions[n].leg) then [LegCall(req, actions[n].leg)] else []
  {
    StepOfRun(req, states, actions, n);
    if actions[n].Begin? {
      BegunIsCalled(req, actions[n].leg);
    }
  }

  // ---------------------------------------------------------------- flags

  /** A flag a leg's outcome calls for is set, or still due. */
  ghost predicate SetOrDue(s: State, l: Leg, f: Flag) {
    Holds(s.flags, f) || Holds(Due(s.legs.Get(l)), f)
  }

  lemma {:induction false} StepKeepsSetOrDue(req: Request, s: State, a: Action, l: Leg, f: Flag)
    requires JoinInv(s) && Distinct(s.flags) && Enabled(req, s, a) && f != Note("")
    requires !Unanswered(s.legs.Get(l)) && SetOrDue(s, l, f)
    ensures !Unanswered(Do(req, s, a).legs.Get(l)) && SetOrDue(Do(req, s, a), l, f)
  {
    var t := Do(req, s, a);
    StepKeepsFlags(req, s, a);
    if a == Flagging(l) {
      OwnFlagging(s, l, f);
    } else {
      if !a.Flagging? {
        DueUnlessFlagging(req, s, a, l);
      }
      if Holds(s.flags, f) {
        HoldsInMore(s.flags, t.flags, f);
      }
    }
  }

  lemma {:induction false} OwnFlagging(s: State, l: Leg, f: Flag)
    requires var leg := s.legs.Get(l); (leg.Storing? && leg.early != []) || (leg.Closing? && leg.late != [])
    requires Distinct(s.flags) && f != Note("") && SetOrDue(s, l, f)
    ensures SetOrDue(FlagNext(s, l), l, f)
  {
    var due := Due(s.legs.Get(l));
    FlaggingTakesOne(s, l);
    FlagNextDistinct(s, l);
    if Holds(s.flags, f) {
      HoldsInMore(s.flags, FlagNext(s, l).flags, f);
    } else {
      var i :| 0 <= i < |due| && due[i] == f;
      if i > 0 {
        assert due[1..][i - 1] == f;
      } else {
        FirstDueIsSet(s, l);
      }
    }
  }

  lemma {:induction false} FirstDueIsSet(s: State, l: Leg)
    requires var leg := s.legs.Get(l); (leg.Storing? && leg.early != []) || (leg.Closing? && leg.late != [])
    requires Distinct(s.flags)
    ensures Due(s.legs.Get(l)) != []
    ensures Due(s.legs.Get(l))[0] != Note("") ==> Holds(FlagNext(s, l).flags, Due(s.legs.Get(l))[0])
  {
    FlaggingTakesOne(s, l);
    var f := Due(s.legs.Get(l))[0];
    AddFlagDistinct(s.flags, f);
    match s.legs.Get(l)
    case Storing(early, _, late) => assert (early + late)[0] == early[0];
    case Closing(_) =>
  }

  lemma {:induction false} SetOrDueSince(req: Request, states: seq<State>, actions: seq<Action>, n: nat, m: nat, l: Leg, f: Flag)
    requires IsRun(req, states, actions) && n < m <= |actions| && f != Note("")
    requires actions[n].Return? && actions[n].leg == l && Holds(Returning(l, actions[n].outcome).early, f)
    ensures !Unanswered(states[m].legs.Get(l)) && SetOrDue(states[m], l, f)
    decreases m
  {
    var k := m - 1;
    StepOfRun(req, states, actions, k);
    if k == n {
      var p := Returning(l, actions[n].outcome);
      assert p.early + p.late == p.early;
    } else {
      SetOrDueSince(req, states, actions, n, k, l, f);
      StepKeepsSetOrDue(req, states[k], actions[k], l, f);
    }
  }

  lemma {:induction false} FlagIsSet(req: Request, states: seq<State>, actions: seq<Action>, n: nat, m: nat, l: Leg, f: Flag, i: nat)
    requires IsRun(req, states, actions) && n < m <= |actions| && f != Note("") && Done(states[m].legs.Get(l))
    requires actions[n].Return? && actions[n].leg == l
    requires i < |Returning(l, actions[n].outcome).early| && Returning(l, actions[n].outcome).early[i] == f
    ensures Holds(states[m].flags, f)
  {
    SetOrDueSince(req, states, actions, n, m, l, f);
  }

  /** In every run a done leg has set the flags that its outcome calls for. */
  lemma {:induction false} FlagsAreSet(req: Request, states: seq<State>, actions: seq<Action>, n: nat, m: nat, l: Leg, o: Outcome)
    requires IsRun(req, states, actions) && n < m <= |actions| && actions[n] == Return(l, o) && Done(states[m].legs.Get(l))
    ensures var flags := states[m].flags;
            match o
            case Late => Holds(flags, LegTimeout(l)) && Holds(flags, LegDegraded(l, "timeout"))
            case Failed(e) => Holds(flags, LegError(l, e)) && Holds(flags, LegDegraded(l, e))
            case Answered(r, reasons, e) =>
              r.degraded ==>
                if l == Rag && reasons != []
                then forall i :: 0 <= i < |reasons| && reasons[i] != "" ==> Holds(flags, Note(reasons[i]))
                else Holds(flags, LegDegraded(l, e))
  {
    match o
    case Late =>
      FlagIsSet(req, states, actions, n, m, l, LegTimeout(l), 0);
      FlagIsSet(req, states, actions, n, m, l, LegDegraded(l, "timeout"), 1);
    case Failed(e) =>
      FlagIsSet(req, states, actions, n, m, l, LegError(l, e), 0);
      FlagIsSet(req, states, actions, n, m, l, LegDegraded(l, e), 1);
    case Answered(r, reasons, e) =>
      if r.degraded && l == Rag && reasons != [] {
        forall i | 0 <= i < |reasons| && reasons[i] != "" ensures Holds(states[m].flags, Note(reasons[i])) {
          FlagIsSet(req, states, actions, n, m, l, Note(reasons[i]), i);
        }
      } else if r.degraded {
        FlagIsSet(req, states, actions, n, m, l, LegDegraded(l, e), 0);
      }
  }

  /** And a leg whose backend answered well is named by no flag. */
  lemma {:induction false} HealthyIsUnnamed(req: Request, states: seq<State>, actions: seq<Action>, n: nat, m: nat, l: Leg, o: Outcome)
    requires IsRun(req, states, actions) && n < m <= |actions| && actions[n] == Return(l, o) && !Degrades(o)
    ensures !NamedIn(l, states[m].flags) && Due(states[m].legs.Get(l)) == [] && !Unanswered(states[m].legs.Get(l))
    decreases m
  {
    var k := m - 1;
    StepOfRun(req, states, actions, k);
    if k == n {
      UnansweredIsUnnamed(req, states, actions, n, l);
      assert [] + [] == Returning(l, o).early + Returning(l, o).late;
    } else {
      HealthyIsUnnamed(req, states, actions, n, k, l, o);
      if actions[k].Flagging? {
        FlaggingTakesOne(states[k], actions[k].leg);
        assert actions[k].leg != l;
        assert !NamedIn(l, Due(states[k].legs.Get(actions[k].leg)));
      } else {
        DueUnlessFlagging(req, states[k], actions[k], l);
      }
      OthersDoNotName(req, states[k], actions[k], l);
    }
  }
}
