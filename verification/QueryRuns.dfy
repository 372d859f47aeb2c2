/**
 What holds in every run of the query pipeline, whatever the legs' order, their
 outcomes and the moment the run stops.
 */
module QueryRuns {
  import opened Common
  import opened QueryPipeline

  // ---------------------------------------------------------------- the join

  /** The leg has stored its result. */
  predicate HasStored(leg: LegState) {
    leg.Closing? || leg.Sent? || leg.Joined?
  }

  /** Results are stored exactly by the legs that got that far. */
  ghost predicate ResultsMatchLegs(s: State) {
    forall l :: HasStored(s.legs.Get(l)) <==> s.results.Get(l).Some?
  }

  predicate AllUnsent(legs: PerLeg<LegState>) {
    legs.rag.Unsent? && legs.sql.Unsent? && legs.geo.Unsent?
  }

  predicate NoneUnsent(legs: PerLeg<LegState>) {
    !legs.rag.Unsent? && !legs.sql.Unsent? && !legs.geo.Unsent?
  }

  /** The join has fired once when the run is past waiting, and only with all three events. */
  ghost predicate JoinInv(s: State) {
    && ResultsMatchLegs(s)
    && (s.phase.Starting? ==> AllUnsent(s.legs) && s.merges == 0)
    && (!s.phase.Starting? ==> NoneUnsent(s.legs))
    && (s.phase.Waiting? ==> !Complete(s.legs) && s.merges == 0)
    && (!s.phase.Starting? && !s.phase.Waiting? ==> Complete(s.legs) && s.merges == 1)
  }

  lemma {:induction false} LegMoves(req: Request, s: State, a: Action, l: Leg)
    requires JoinInv(s) && Enabled(req, s, a)
    requires a == Begin(l) || a == Flagging(l) || a == Store(l) || a == Send(l) || (a.Return? && a.leg == l)
    ensures JoinInv(Do(req, s, a)) && Do(req, s, a).phase == s.phase
  {
    var t := Do(req, s, a);
    forall m ensures HasStored(t.legs.Get(m)) <==> t.results.Get(m).Some? {
      assert HasStored(s.legs.Get(m)) <==> s.results.Get(m).Some?;
    }
    assert !s.legs.Get(l).Joined? && !t.legs.Get(l).Joined?;
  }

  lemma {:induction false} JoinKeeps(req: Request, s: State, l: Leg)
    requires JoinInv(s) && Enabled(req, s, Join(l))
    ensures JoinInv(Do(req, s, Join(l)))
    ensures s.phase.Waiting?
  {
    var t := Do(req, s, Join(l));
    forall m ensures HasStored(t.legs.Get(m)) <==> t.results.Get(m).Some? {
      assert HasStored(s.legs.Get(m)) <==> s.results.Get(m).Some?;
    }
    assert !s.legs.Get(l).Joined?;
  }

  lemma {:induction false} StepKeepsJoin(req: Request, s: State, a: Action)
    requires JoinInv(s) && Enabled(req, s, a)
    ensures JoinInv(Do(req, s, a))
  {
    match a
    case Begin(l) => LegMoves(req, s, a, l);
    case Return(l, _) => LegMoves(req, s, a, l);
    case Flagging(l) => LegMoves(req, s, a, l);
    case Store(l) => LegMoves(req, s, a, l);
    case Send(l) => LegMoves(req, s, a, l);
    case Join(l) => JoinKeeps(req, s, l);
    case _ => MainMoves(req, s, a);
  }

  predicate IsMain(a: Action) {
    !a.Begin? && !a.Return? && !a.Flagging? && !a.Store? && !a.Send? && !a.Join?
  }

  lemma {:induction false} MainMoves(req: Request, s: State, a: Action)
    requires JoinInv(s) && Enabled(req, s, a) && IsMain(a)
    ensures JoinInv(Do(req, s, a))
  {
    var t := Do(req, s, a);
    forall m ensures HasStored(t.legs.Get(m)) <==> t.results.Get(m).Some? {
      assert HasStored(s.legs.Get(m)) <==> s.results.Get(m).Some?;
    }
  }

  // ---------------------------------------------------------------- frames and the answer

  /** Frames sent, and still to be sent, in each phase; the one token frame comes last. */
  ghost predicate FramesInv(req: Request, s: State) {
    match s.phase
    case Starting => s.frames == []
    case Waiting => s.frames == []
    case Enriching => s.frames == []
    case Emitting(todo) => s.frames + todo == MergeFrames(req, s)
    case Merged => s.frames == MergeFrames(req, s)
    case Generated => s.frames == MergeFrames(req, s)
    case Publishing(_) => s.frames == MergeFrames(req, s)
    case Delivered => s.answer.Some? && s.frames == MergeFrames(req, s) + [Token(s.answer.value)]
    case Finished => s.answer.Some? && s.frames == MergeFrames(req, s) + [Token(s.answer.value)]
  }

  /** From verification on, the stored answer is what may be delivered. */
  ghost predicate AnswerInv(s: State) {
    && (s.phase.Generated? ==> s.generated.Some? && s.answer == s.generated)
    && (s.phase.Publishing? || s.phase.Delivered? || s.phase.Finished? ==>
          s.generated.Some? && s.verdict.Some? && s.answer == Some(Delivery(s.generated.value, s.verdict.value)))
    && (s.phase.Publishing? ==> s.answer == Some(s.phase.text))
  }

  /** Once legs are joined their results, chunks and images do not change. */
  lemma {:induction false} FramesFixed(req: Request, s: State, t: State)
    requires t.results == s.results && t.chunks == s.chunks && t.images == s.images
    ensures MergeFrames(req, t) == MergeFrames(req, s)
  {
  }

  lemma {:induction false} StepKeepsFrames(req: Request, s: State, a: Action)
    requires JoinInv(s) && FramesInv(req, s) && AnswerInv(s) && Enabled(req, s, a)
    ensures FramesInv(req, Do(req, s, a)) && AnswerInv(Do(req, s, a))
  {
    var t := Do(req, s, a);
    if a.Emit? {
      var todo := s.phase.todo;
      assert s.frames + todo == (s.frames + [todo[0]]) + todo[1..];
      FramesFixed(req, s, t);
    } else if a.Enrich? {
      EnrichFrames(req, s, a);
    } else if a.Merge? {
      assert s.frames + [] == s.frames;
      FramesFixed(req, s, t);
    } else if IsMain(a) {
      FramesFixed(req, s, t);
    } else {
      LegsLeaveFrames(req, s, a);
    }
  }

  lemma {:induction false} EnrichFrames(req: Request, s: State, a: Action)
    requires FramesInv(req, s) && AnswerInv(s) && a.Enrich? && Enabled(req, s, a)
    ensures FramesInv(req, Do(req, s, a)) && AnswerInv(Do(req, s, a))
  {
    var t := Do(req, s, a);
    assert [] + t.phase.todo == t.phase.todo;
  }

  lemma {:induction false} LegsLeaveFrames(req: Request, s: State, a: Action)
    requires JoinInv(s) && FramesInv(req, s) && AnswerInv(s) && Enabled(req, s, a) && !IsMain(a)
    ensures FramesInv(req, Do(req, s, a)) && AnswerInv(Do(req, s, a))
  {
    assert !s.legs.Get(a.leg).Joined? && !s.legs.Get(a.leg).Unsent?;
    assert s.phase.Waiting?;
  }

  // ---------------------------------------------------------------- flags

  lemma {:induction false} AddFlagDistinct(flags: seq<Flag>, f: Flag)
    requires Distinct(flags)
    ensures Distinct(AddFlag(flags, f))
    ensures flags <= AddFlag(flags, f)
    ensures f != Note("") ==> Holds(AddFlag(flags, f), f)
  {
    if f != Note("") && !Holds(flags, f) {
      assert AddFlag(flags, f)[|flags|] == f;
    }
  }

  /** However many flags are added, none is listed twice, none is dropped, and the order of the old ones stays. */
  lemma {:induction false} AddFlagsDistinct(flags: seq<Flag>, fs: seq<Flag>)
    requires Distinct(flags)
    ensures Distinct(AddFlags(flags, fs))
    ensures flags <= AddFlags(flags, fs)
    decreases |fs|
  {
    if fs != [] {
      AddFlagDistinct(flags, fs[0]);
      AddFlagsDistinct(AddFlag(flags, fs[0]), fs[1..]);
    }
  }

  lemma {:induction false} StepKeepsFlags(req: Request, s: State, a: Action)
    requires Distinct(s.flags) && Enabled(req, s, a)
    ensures Distinct(Do(req, s, a).flags) && s.flags <= Do(req, s, a).flags
  {
    match a
    case Route(notes) => AddFlagsDistinct(s.flags, Notes(notes));
    case Flagging(l) => FlagNextDistinct(s, l);
    case Enrich(_, _, problems) => AddFlagsDistinct(s.flags, RerankFlags(problems));
    case Verify(v) => AddFlagsDistinct(s.flags, GuardFlags(v));
    case _ =>
  }

  lemma {:induction false} FlagNextDistinct(s: State, l: Leg)
    requires var leg := s.legs.Get(l); (leg.Storing? && leg.early != []) || (leg.Closing? && leg.late != [])
    requires Distinct(s.flags)
    ensures Distinct(FlagNext(s, l).flags) && s.flags <= FlagNext(s, l).flags
  {
    match s.legs.Get(l)
    case Storing(early, _, _) => AddFlagDistinct(s.flags, early[0]);
    case Closing(late) => AddFlagDistinct(s.flags, late[0]);
  }

  // ---------------------------------------------------------------- isolation

  /** A leg's backend is only called when routing asked for the leg. */
  predicate Wanted(req: Request, b: Backend) {
    match b
    case RagStore => req.needsRag
    case FactStore => req.needsSql
    case GeoSearch => req.needsGeo
    case _ => true
  }

  /** A training turn reads its context project only; a customer turn its own project, or images of none. */
  predicate CallAllowed(req: Request, c: Call) {
    Wanted(req, c.backend) &&
    if IsTraining(req) then !Falsy(req.context) && c.scope == req.context
    else c.scope == req.project || (c.backend.ImageSearch? && Falsy(req.project) && c.scope.None?)
  }

  ghost predicate CallsAllowed(req: Request, calls: seq<Call>) {
    forall i :: 0 <= i < |calls| ==> CallAllowed(req, calls[i])
  }

  /** A leg of an unresolved training turn holds nothing. */
  predicate HoldsNothing(leg: LegState, r: Option<LegResult>) {
    !leg.Calling? && (leg.Storing? ==> leg.result.items == []) && (r.Some? ==> r.value.items == [])
  }

  ghost predicate NothingRead(req: Request, s: State) {
    Unresolved(req) ==> forall l :: HoldsNothing(s.legs.Get(l), s.results.Get(l))
  }

  lemma {:induction false} MergeCallsAllowed(req: Request, chunks: seq<int>, rag: seq<int>)
    requires PicksFrom(chunks, rag) && (Unresolved(req) ==> rag == [])
    ensures CallsAllowed(req, MergeCalls(req, chunks))
  {
    if chunks != [] {
      assert chunks[0] in rag;
    }
  }

  lemma {:induction false} CallsAppend(req: Request, a: seq<Call>, b: seq<Call>)
    requires CallsAllowed(req, a) && CallsAllowed(req, b)
    ensures CallsAllowed(req, a + b)
  {
  }

  lemma {:induction false} StepKeepsCalls(req: Request, s: State, a: Action)
    requires CallsAllowed(req, s.calls) && NothingRead(req, s) && Enabled(req, s, a)
    ensures CallsAllowed(req, Do(req, s, a).calls)
  {
    match a
    case Begin(l) =>
      if Begun(req, l).Calling? {
        CallsAppend(req, s.calls, [Call(BackendOf(l), RetrievalScope(req))]);
      }
    case Enrich(chunks, _, _) =>
      if Unresolved(req) {
        assert HoldsNothing(s.legs.Get(Rag), s.results.Get(Rag));
      }
      MergeCallsAllowed(req, chunks, ItemsOf(s.results.rag));
      CallsAppend(req, s.calls, MergeCalls(req, chunks));
    case _ =>
  }

  lemma {:induction false} StepKeepsNothingRead(req: Request, s: State, a: Action)
    requires NothingRead(req, s) && Enabled(req, s, a)
    ensures NothingRead(req, Do(req, s, a))
  {
    if Unresolved(req) {
      var t := Do(req, s, a);
      forall l ensures HoldsNothing(t.legs.Get(l), t.results.Get(l)) {
        assert HoldsNothing(s.legs.Get(l), s.results.Get(l));
        if !IsMain(a) {
          assert HoldsNothing(s.legs.Get(a.leg), s.results.Get(a.leg));
        }
      }
    }
  }

  // ---------------------------------------------------------------- every run

  ghost predicate Inv(req: Request, s: State) {
    && JoinInv(s) && FramesInv(req, s) && AnswerInv(s)
    && Distinct(s.flags) && CallsAllowed(req, s.calls) && NothingRead(req, s)
  }

  lemma {:induction false} StartInv(req: Request)
    ensures Inv(req, Start())
  {
    forall l ensures HasStored(Start().legs.Get(l)) <==> Start().results.Get(l).Some? {
    }
  }

  lemma {:induction false} StepKeepsInv(req: Request, s: State, a: Action)
    requires Inv(req, s) && Enabled(req, s, a)
    ensures Inv(req, Do(req, s, a))
  {
    StepKeepsJoin(req, s, a);
    StepKeepsFrames(req, s, a);
    StepKeepsFlags(req, s, a);
    StepKeepsCalls(req, s, a);
    StepKeepsNothingRead(req, s, a);
  }

  lemma {:induction false} RunKeepsInv(req: Request, states: seq<State>, actions: seq<Action>)
    requires IsRun(req, states, actions)
    ensures Inv(req, states[|actions|])
  {
    if actions == [] {
      StartInv(req);
    } else {
      var n := |actions| - 1;
      RunKeepsInv(req, states[..n + 1], actions[..n]);
      assert Enabled(req, states[n], actions[n]);
      StepKeepsInv(req, states[n], actions[n]);
    }
  }

  /** The join fires at most once, and only with all three results stored. */
  lemma {:induction false} JoinFiresOnceWithAllResults(req: Request, states: seq<State>, actions: seq<Action>)
    requires IsRun(req, states, actions)
    ensures var s := states[|actions|];
            && s.merges <= 1
            && (s.merges == 1 ==> forall l :: s.results.Get(l).Some?)
  {
    RunKeepsInv(req, states, actions);
    var s := states[|actions|];
    forall l | s.merges == 1 ensures s.results.Get(l).Some? {
      assert HasStored(s.legs.Get(l));
    }
  }

  /** The frames of a whole run: places when asked for, sources, facts, images, and the answer. */
  function Script(req: Request, s: State): seq<Frame> {
    MergeFrames(req, s) + (if s.answer.Some? then [Token(s.answer.value)] else [])
  }

  /**
   At any moment of any run the frames sent are the first of that script, from
   stored results. A token frame is the last, carries the stored answer, and that
   is the generated one exactly when the guard returned with confidence other
   than LOW; otherwise it is the safe copy. A finished run has sent the whole
   script.
   */
  lemma {:induction false} FramesFollowTheScript(req: Request, states: seq<State>, actions: seq<Action>)
    requires IsRun(req, states, actions)
    ensures var s := states[|actions|];
            && s.frames <= Script(req, s)
            && (forall i :: 0 <= i < |s.frames| && s.frames[i].Token? ==>
                  && i == |s.frames| - 1 && s.answer == Some(s.frames[i].text)
                  && s.generated.Some? && s.verdict.Some?
                  && s.frames[i].text ==
                     if Verified(s.verdict.value) then s.generated.value else VERIFICATION_FALLBACK_MESSAGE)
            && (s.phase.Finished? ==> s.answer.Some? && s.frames == MergeFrames(req, s) + [Token(s.answer.value)])
  {
    RunKeepsInv(req, states, actions);
    var s := states[|actions|];
    NoTokenBeforePublish(req, s);
    PrefixOfScript(req, s);
  }

  lemma {:induction false} NoTokenBeforePublish(req: Request, s: State)
    ensures forall i :: 0 <= i < |MergeFrames(req, s)| ==> !MergeFrames(req, s)[i].Token?
  {
  }

  lemma {:induction false} PrefixOfScript(req: Request, s: State)
    requires FramesInv(req, s)
    ensures s.frames <= Script(req, s)
  {
  }

  /** No backend call of a training turn leaves its context project, and an unresolved one makes none. */
  lemma {:induction false} TrainingReadsItsContextOnly(req: Request, states: seq<State>, actions: seq<Action>, i: nat)
    requires IsRun(req, states, actions) && IsTraining(req) && i < |states[|actions|].calls|
    ensures !Unresolved(req)
    ensures states[|actions|].calls[i].scope == req.context
    ensures req.context != Some(TRAINING_PROJECT_KEY) ==> states[|actions|].calls[i].scope != Some(TRAINING_PROJECT_KEY)
  {
    RunKeepsInv(req, states, actions);
    assert CallAllowed(req, states[|actions|].calls[i]);
  }

  /** A leg that routing did not ask for never calls its backend. */
  lemma {:induction false} OnlyWantedBackendsAreCalled(req: Request, states: seq<State>, actions: seq<Action>, i: nat)
    requires IsRun(req, states, actions) && i < |states[|actions|].calls|
    ensures Wanted(req, states[|actions|].calls[i].backend)
  {
    RunKeepsInv(req, states, actions);
    assert CallAllowed(req, states[|actions|].calls[i]);
  }

  /** Degradation flags never repeat. */
  lemma {:induction false} FlagsNeverRepeat(req: Request, states: seq<State>, actions: seq<Action>)
    requires IsRun(req, states, actions)
    ensures Distinct(states[|actions|].flags)
  {
    RunKeepsInv(req, states, actions);
  }

  // ---------------------------------------------------------------- no silent degradation

  /** A flag only this leg raises. */
  predicate Names(l: Leg, f: Flag) {
    match f
    case LegTimeout(m) => m == l
    case LegError(m, _) => m == l
    case LegDegraded(m, _) => m == l
    case _ => false
  }

  /** A flag that tells of this outcome: the leg's own, or for retrieval a reason the backend gave. */
  predicate TellsOf(l: Leg, o: Outcome, f: Flag) {
    Names(l, f) || (l == Rag && o.Answered? && f.Note? && f.text in o.reasons)
  }

  predicate Told(l: Leg, o: Outcome, fs: seq<Flag>) {
    exists i :: 0 <= i < |fs| && TellsOf(l, o, fs[i])
  }

  predicate NamedIn(l: Leg, fs: seq<Flag>) {
    exists i :: 0 <= i < |fs| && Names(l, fs[i])
  }

  predicate Degrades(o: Outcome) {
    !o.Answered? || o.result.degraded
  }

  /** Retrieval gave no reasons at all, or one that says something; other legs' reasons do not matter. */
  predicate Reasoned(l: Leg, o: Outcome) {
    l == Rag && o.Answered? && o.reasons != [] ==> exists i :: 0 <= i < |o.reasons| && o.reasons[i] != ""
  }

  /** No empty flag is ever kept, and a leg's own flags are only ever raised or due by that leg. */
  ghost predicate NoBlank(flags: seq<Flag>) {
    forall i :: 0 <= i < |flags| ==> flags[i] != Note("")
  }

  /** Flags a leg is still to set. */
  function Due(leg: LegState): seq<Flag> {
    match leg
    case Storing(early, _, late) => early + late
    case Closing(late) => late
    case _ => []
  }

  ghost predicate OwnDue(s: State) {
    forall l, m :: l != m ==> !NamedIn(l, Due(s.legs.Get(m)))
  }

  ghost predicate FlagsInv(s: State) {
    NoBlank(s.flags) && OwnDue(s)
  }

  lemma {:induction false} ToldInMore(l: Leg, o: Outcome, fs: seq<Flag>, more: seq<Flag>)
    requires Told(l, o, fs) && fs <= more
    ensures Told(l, o, more)
  {
    var i :| 0 <= i < |fs| && TellsOf(l, o, fs[i]);
    assert more[i] == fs[i];
  }

  /** One flag added: what is told is what was, or what it tells. */
  lemma {:induction false} AddFlagTells(l: Leg, o: Outcome, flags: seq<Flag>, f: Flag)
    requires NoBlank(flags) && Distinct(flags)
    ensures NoBlank(AddFlag(flags, f))
    ensures Told(l, o, AddFlag(flags, f)) <==> Told(l, o, flags) || (f != Note("") && TellsOf(l, o, f))
  {
    var after := AddFlag(flags, f);
    AddFlagDistinct(flags, f);
    if Told(l, o, flags) {
      ToldInMore(l, o, flags, after);
    }
    if f != Note("") {
      var i :| 0 <= i < |after| && after[i] == f;
      assert TellsOf(l, o, f) ==> TellsOf(l, o, after[i]);
    }
    if Told(l, o, after) {
      var i :| 0 <= i < |after| && TellsOf(l, o, after[i]);
      if i < |flags| {
        assert TellsOf(l, o, flags[i]);
      }
    }
  }

  /** Something other than a blank note tells of the outcome. */
  predicate Says(l: Leg, o: Outcome, fs: seq<Flag>) {
    exists i :: 0 <= i < |fs| && fs[i] != Note("") && TellsOf(l, o, fs[i])
  }

  lemma {:induction false} SaysCons(l: Leg, o: Outcome, fs: seq<Flag>)
    requires fs != []
    ensures Says(l, o, fs) <==> (fs[0] != Note("") && TellsOf(l, o, fs[0])) || Says(l, o, fs[1..])
  {
    if Says(l, o, fs) {
      var i :| 0 <= i < |fs| && fs[i] != Note("") && TellsOf(l, o, fs[i]);
      assert i > 0 ==> fs[1..][i - 1] == fs[i];
    }
    if Says(l, o, fs[1..]) {
      var i :| 0 <= i < |fs[1..]| && fs[1..][i] != Note("") && TellsOf(l, o, fs[1..][i]);
      assert fs[i + 1] == fs[1..][i];
    }
  }

  /** A degraded outcome is told of exactly when it is reasoned. */
  lemma {:induction false} ReturningSays(l: Leg, o: Outcome)
    requires Degrades(o)
    ensures Says(l, o, Returning(l, o).early) <==> Reasoned(l, o)
  {
    var early := Returning(l, o).early;
    if o.Answered? && l == Rag && o.reasons != [] {
      if Reasoned(l, o) {
        var i :| 0 <= i < |o.reasons| && o.reasons[i] != "";
        assert early[i] == Note(o.reasons[i]);
      }
      if Says(l, o, early) {
        var i :| 0 <= i < |early| && early[i] != Note("") && TellsOf(l, o, early[i]);
        assert o.reasons[i] != "";
      }
    } else {
      assert early[0] != Note("") && TellsOf(l, o, early[0]);
    }
  }

  /** What the flags tell after all of some were added. */
  lemma {:induction false} AddFlagsTells(l: Leg, o: Outcome, flags: seq<Flag>, fs: seq<Flag>)
    requires NoBlank(flags) && Distinct(flags)
    ensures NoBlank(AddFlags(flags, fs))
    ensures Told(l, o, AddFlags(flags, fs)) <==> Told(l, o, flags) || Says(l, o, fs)
    decreases |fs|
  {
    if fs != [] {
      AddFlagTells(l, o, flags, fs[0]);
      AddFlagDistinct(flags, fs[0]);
      AddFlagsTells(l, o, AddFlag(flags, fs[0]), fs[1..]);
      SaysCons(l, o, fs);
    }
  }

  /**
   Whatever the backend does: its degraded outcome leaves a flag that tells of it
   exactly when it is reasoned. Blank reasons alone are skipped, and so is the
   flag that stands in for missing ones.
   */
  lemma {:induction false} OutcomeIsFlaggedExactly(l: Leg, o: Outcome, flags: seq<Flag>)
    requires Degrades(o) && NoBlank(flags) && Distinct(flags) && !Told(l, o, flags)
    ensures Told(l, o, AddFlags(flags, Returning(l, o).early)) <==> Reasoned(l, o)
  {
    AddFlagsTells(l, o, flags, Returning(l, o).early);
    ReturningSays(l, o);
  }

  // ---------------------------------------------------------------- flags over runs

  lemma {:induction false} DueOfNext(req: Request, l: Leg, o: Outcome, m: Leg)
    requires l != m
    ensures !NamedIn(l, Due(Begun(req, m))) && !NamedIn(l, Due(Returning(m, o)))
  {
  }

  lemma {:induction false} DueShrinks(l: Leg, fs: seq<Flag>, more: seq<Flag>)
    requires fs != [] && !NamedIn(l, fs + more)
    ensures !NamedIn(l, fs[1..] + more) && !Names(l, fs[0])
  {
    assert (fs + more)[0] == fs[0];
    forall i | 0 <= i < |fs[1..] + more| ensures !Names(l, (fs[1..] + more)[i]) {
      assert (fs[1..] + more)[i] == (fs + more)[i + 1];
    }
  }

  lemma {:induction false} StepKeepsOwnDue(req: Request, s: State, a: Action)
    requires OwnDue(s) && Enabled(req, s, a)
    ensures OwnDue(Do(req, s, a))
  {
    var t := Do(req, s, a);
    forall l, m | l != m ensures !NamedIn(l, Due(t.legs.Get(m))) {
      assert !NamedIn(l, Due(s.legs.Get(m)));
      match a
      case Begin(k) => DueOfNext(req, l, Late, m);
      case Return(k, o) => DueOfNext(req, l, o, m);
      case Flagging(k) =>
        if k == m {
          match s.legs.Get(m)
          case Storing(early, r, late) => DueShrinks(l, early, late);
          case Closing(late) =>
            assert late + [] == late;
            DueShrinks(l, late, []);
            assert late[1..] + [] == late[1..];
        }
      case Store(k) =>
        if k == m {
          assert s.legs.Get(m).early + s.legs.Get(m).late == s.legs.Get(m).late;
        }
      case _ =>
    }
  }

  /** The flags a step sets for no leg in particular. */
  function Plain(a: Action): seq<Flag> {
    match a
    case Route(notes) => Notes(notes)
    case Enrich(_, _, problems) => RerankFlags(problems)
    case Verify(v) => GuardFlags(v)
    case _ => []
  }

  lemma {:induction false} PlainNamesNobody(l: Leg, a: Action)
    ensures !NamedIn(l, Plain(a))
  {
  }

  lemma {:induction false} FlagsOfStep(req: Request, s: State, a: Action)
    requires Enabled(req, s, a)
    ensures Do(req, s, a).flags
            == if a.Flagging? then AddFlag(s.flags, Due(s.legs.Get(a.leg))[0]) else AddFlags(s.flags, Plain(a))
  {
    if a.Flagging? {
      match s.legs.Get(a.leg)
      case Storing(early, _, late) => assert (early + late)[0] == early[0];
      case Closing(_) =>
    }
  }

  lemma {:induction false} NamedIsTold(l: Leg, o: Outcome, fs: seq<Flag>)
    requires !NamedIn(l, fs) && forall i :: 0 <= i < |fs| ==> !(fs[i].Note? && TellsOf(l, o, fs[i]))
    ensures !Told(l, o, fs) && !Says(l, o, fs)
  {
    forall i | 0 <= i < |fs| ensures !TellsOf(l, o, fs[i]) {
      assert !Names(l, fs[i]);
    }
  }

  lemma {:induction false} StepKeepsFlagsInv(req: Request, s: State, a: Action)
    requires FlagsInv(s) && Distinct(s.flags) && Enabled(req, s, a)
    ensures FlagsInv(Do(req, s, a))
  {
    StepKeepsOwnDue(req, s, a);
    FlagsOfStep(req, s, a);
    if a.Flagging? {
      AddFlagTells(Rag, Late, s.flags, Due(s.legs.Get(a.leg))[0]);
    } else {
      AddFlagsTells(Rag, Late, s.flags, Plain(a));
    }
  }

  lemma {:induction false} RunKeepsFlagsInv(req: Request, states: seq<State>, actions: seq<Action>, n: nat)
    requires IsRun(req, states, actions) && n <= |actions|
    ensures FlagsInv(states[n]) && Distinct(states[n].flags)
  {
    if n > 0 {
      RunKeepsFlagsInv(req, states, actions, n - 1);
      assert Enabled(req, states[n - 1], actions[n - 1]);
      StepKeepsFlagsInv(req, states[n - 1], actions[n - 1]);
      StepKeepsFlags(req, states[n - 1], actions[n - 1]);
    }
  }

  /** The leg has not had its backend's answer yet. */
  predicate Unanswered(leg: LegState) {
    leg.Unsent? || leg.Requested? || leg.Calling?
  }

  lemma {:induction false} BlankTellsNothing(l: Leg, o: Outcome, f: Flag)
    requires !Reasoned(l, o) && f != Note("")
    ensures TellsOf(l, o, f) <==> Names(l, f)
  {
  }

  /** A blank outcome: nothing but the leg's own flags could tell of it. */
  lemma {:induction false} BlankToldIsNamed(l: Leg, o: Outcome, fs: seq<Flag>)
    requires NoBlank(fs) && !Reasoned(l, o)
    ensures Told(l, o, fs) <==> NamedIn(l, fs)
  {
    if NamedIn(l, fs) {
      var i :| 0 <= i < |fs| && Names(l, fs[i]);
      assert TellsOf(l, o, fs[i]);
    }
    if Told(l, o, fs) {
      var i :| 0 <= i < |fs| && TellsOf(l, o, fs[i]);
      BlankTellsNothing(l, o, fs[i]);
    }
  }

  /** Every step other than the leg's own leaves it unnamed. */
  lemma {:induction false} OthersDoNotName(req: Request, s: State, a: Action, l: Leg)
    requires FlagsInv(s) && Distinct(s.flags) && Enabled(req, s, a)
    requires !NamedIn(l, s.flags) && (a.Flagging? ==> !Names(l, Due(s.legs.Get(a.leg))[0]))
    ensures !NamedIn(l, Do(req, s, a).flags)
  {
    FlagsOfStep(req, s, a);
    var t := Do(req, s, a);
    NamedExactlyTold(l, s.flags);
    if a.Flagging? {
      AddFlagTells(l, Late, s.flags, Due(s.legs.Get(a.leg))[0]);
    } else {
      PlainNamesNobody(l, a);
      AddFlagsTells(l, Late, s.flags, Plain(a));
    }
    NamedExactlyTold(l, t.flags);
  }

  lemma {:induction false} NamedExactlyTold(l: Leg, fs: seq<Flag>)
    ensures NamedIn(l, fs) <==> Told(l, Late, fs)
  {
    if NamedIn(l, fs) {
      var i :| 0 <= i < |fs| && Names(l, fs[i]);
      assert TellsOf(l, Late, fs[i]);
    }
    if Told(l, Late, fs) {
      var i :| 0 <= i < |fs| && TellsOf(l, Late, fs[i]);
      assert Names(l, fs[i]);
    }
  }

  lemma {:induction false} StillUnanswered(req: Request, s: State, a: Action, l: Leg)
    requires JoinInv(s) && Enabled(req, s, a) && Unanswered(Do(req, s, a).legs.Get(l))
    ensures Unanswered(s.legs.Get(l))
  {
  }

  lemma {:induction false} StaysUnnamed(req: Request, s: State, a: Action, l: Leg)
    requires JoinInv(s) && FlagsInv(s) && Distinct(s.flags) && Enabled(req, s, a)
    requires Unanswered(Do(req, s, a).legs.Get(l)) && !NamedIn(l, s.flags)
    ensures !NamedIn(l, Do(req, s, a).flags)
  {
    StillUnanswered(req, s, a, l);
    if a.Flagging? {
      assert a.leg != l;
      assert !NamedIn(l, Due(s.legs.Get(a.leg)));
      assert Due(s.legs.Get(a.leg)) != [];
    }
    OthersDoNotName(req, s, a, l);
  }

  /** Before its answer a leg is not named anywhere. */
  lemma {:induction false} UnansweredIsUnnamed(req: Request, states: seq<State>, actions: seq<Action>, n: nat, l: Leg)
    requires IsRun(req, states, actions) && n <= |actions| && Unanswered(states[n].legs.Get(l))
    ensures !NamedIn(l, states[n].flags)
  {
    if n > 0 {
      StepOfRun(req, states, actions, n - 1);
      StillUnanswered(req, states[n - 1], actions[n - 1], l);
      UnansweredIsUnnamed(req, states, actions, n - 1, l);
      StaysUnnamed(req, states[n - 1], actions[n - 1], l);
    }
  }

  lemma {:induction false} StepOfRun(req: Request, states: seq<State>, actions: seq<Action>, n: nat)
    requires IsRun(req, states, actions) && n < |actions|
    ensures JoinInv(states[n]) && FlagsInv(states[n]) && Distinct(states[n].flags)
    ensures Enabled(req, states[n], actions[n]) && states[n + 1] == Do(req, states[n], actions[n])
  {
    RunKeepsFlagsInv(req, states, actions, n);
    RunPrefixInv(req, states, actions, n);
  }

  /** After its answer: what is told by the flags, or is still due, is told exactly of a reasoned outcome. */
  ghost predicate Accounted(s: State, l: Leg, o: Outcome) {
    var leg := s.legs.Get(l);
    && !Unanswered(leg)
    && ((Told(l, o, s.flags) || Says(l, o, Due(leg))) <==> Reasoned(l, o))
  }

  lemma {:induction false} ReturnIsAccounted(req: Request, states: seq<State>, actions: seq<Action>, n: nat, l: Leg, o: Outcome)
    requires IsRun(req, states, actions) && n < |actions| && actions[n] == Return(l, o) && Degrades(o)
    ensures Accounted(states[n + 1], l, o)
    ensures states[n + 1].legs.Get(l) == Returning(l, o)
  {
    var s := states[n];
    assert Enabled(req, s, actions[n]);
    RunKeepsFlagsInv(req, states, actions, n);
    UnansweredIsUnnamed(req, states, actions, n, l);
    ReturningSays(l, o);
    var p := Returning(l, o);
    assert p.early + p.late == p.early;
    if !Reasoned(l, o) {
      BlankToldIsNamed(l, o, s.flags);
    }
  }

  lemma {:induction false} StepKeepsAccounted(req: Request, s: State, a: Action, l: Leg, o: Outcome)
    requires FlagsInv(s) && Distinct(s.flags) && Accounted(s, l, o) && Enabled(req, s, a) && JoinInv(s)
    ensures Accounted(Do(req, s, a), l, o)
  {
    var t := Do(req, s, a);
    FlagsOfStep(req, s, a);
    assert !a.Route?;
    if a == Flagging(l) {
      var due := Due(s.legs.Get(l));
      FlaggingTakesOne(s, l);
      AddFlagTells(l, o, s.flags, due[0]);
      SaysCons(l, o, due);
    } else if a.Flagging? {
      AddFlagTells(l, o, s.flags, Due(s.legs.Get(a.leg))[0]);
      OtherFlagTells(s, a.leg, l, o);
    } else {
      StepKeepsFlagsInv(req, s, a);
      DueUnlessFlagging(req, s, a, l);
      AddFlagsTells(l, o, s.flags, Plain(a));
      PlainNamesNobody(l, a);
      NamedIsTold(l, o, Plain(a));
    }
  }

  lemma {:induction false} FlaggingTakesOne(s: State, l: Leg)
    requires var leg := s.legs.Get(l); (leg.Storing? && leg.early != []) || (leg.Closing? && leg.late != [])
    ensures Due(s.legs.Get(l)) != [] && Due(FlagNext(s, l).legs.Get(l)) == Due(s.legs.Get(l))[1..]
  {
  }

  /** Another leg's flag does not tell of this one's outcome, except a note, which is no news for a reasoned one. */
  lemma {:induction false} OtherFlagTells(s: State, m: Leg, l: Leg, o: Outcome)
    requires FlagsInv(s) && m != l && Due(s.legs.Get(m)) != []
    ensures var f := Due(s.legs.Get(m))[0];
            f != Note("") && TellsOf(l, o, f) ==> Reasoned(l, o)
  {
    var f := Due(s.legs.Get(m))[0];
    assert !NamedIn(l, Due(s.legs.Get(m)));
    if f != Note("") && TellsOf(l, o, f) {
      assert !Names(l, f);
      var k :| 0 <= k < |o.reasons| && o.reasons[k] == f.text;
      assert o.reasons[k] != "";
    }
  }

  lemma {:induction false} DueUnlessFlagging(req: Request, s: State, a: Action, l: Leg)
    requires Enabled(req, s, a) && !a.Flagging? && !Unanswered(s.legs.Get(l)) && !a.Route?
    ensures Due(Do(req, s, a).legs.Get(l)) == Due(s.legs.Get(l)) && !Unanswered(Do(req, s, a).legs.Get(l))
  {
    if a == Store(l) {
      assert s.legs.Get(l).early + s.legs.Get(l).late == s.legs.Get(l).late;
    }
  }

  lemma {:induction false} AccountedStep(req: Request, states: seq<State>, actions: seq<Action>, n: nat, l: Leg, o: Outcome)
    requires IsRun(req, states, actions) && n < |actions| && Accounted(states[n], l, o)
    ensures Accounted(states[n + 1], l, o)
  {
    StepOfRun(req, states, actions, n);
    StepKeepsAccounted(req, states[n], actions[n], l, o);
  }

  lemma {:induction false} AccountedSince(
    req: Request, states: seq<State>, actions: seq<Action>, n: nat, m: nat, l: Leg, o: Outcome)
    requires IsRun(req, states, actions) && n < m <= |actions| && actions[n] == Return(l, o) && Degrades(o)
    ensures Accounted(states[m], l, o)
    decreases m
  {
    if m == n + 1 {
      ReturnIsAccounted(req, states, actions, n, l, o);
    } else {
      AccountedSince(req, states, actions, n, m - 1, l, o);
      AccountedStep(req, states, actions, m - 1, l, o);
    }
  }

  lemma {:induction false} NothingDue(s: State, l: Leg, o: Outcome)
    requires Accounted(s, l, o) && (s.legs.Get(l).Sent? || s.legs.Get(l).Joined?)
    ensures Told(l, o, s.flags) <==> Reasoned(l, o)
  {
  }

  /**
   In every run: once a leg whose backend came back degraded has sent its done
   event, the flags tell of that outcome exactly when it was reasoned.
   */
  lemma {:induction false} DegradedLegsAreFlaggedExactly(
    req: Request, states: seq<State>, actions: seq<Action>, n: nat, m: nat, l: Leg, o: Outcome)
    requires IsRun(req, states, actions) && n < m <= |actions| && actions[n] == Return(l, o) && Degrades(o)
    requires states[m].legs.Get(l).Sent? || states[m].legs.Get(l).Joined?
    ensures Told(l, o, states[m].flags) <==> Reasoned(l, o)
  {
    AccountedSince(req, states, actions, n, m, l, o);
    NothingDue(states[m], l, o);
  }

  lemma {:induction false} RunPrefixInv(req: Request, states: seq<State>, actions: seq<Action>, n: nat)
    requires IsRun(req, states, actions) && n <= |actions|
    ensures Inv(req, states[n])
  {
    RunKeepsInv(req, states[..n + 1], actions[..n]);
  }

  /** A leg that fails closed for want of a context project: its result is degraded and its flag due or set. */
  predicate ClosedLeg(flags: seq<Flag>, leg: LegState) {
    match leg
    case Calling => false
    case Storing(early, result, late) => early == [] && result.degraded && late == [TrainingUnresolved]
    case Closing(late) => late == [TrainingUnresolved] || (late == [] && Holds(flags, TrainingUnresolved))
    case Sent => Holds(flags, TrainingUnresolved)
    case Joined => Holds(flags, TrainingUnresolved)
    case _ => true
  }

  lemma {:induction false} HoldsInMore(flags: seq<Flag>, more: seq<Flag>, f: Flag)
    requires Holds(flags, f) && flags <= more
    ensures Holds(more, f)
  {
    var i :| 0 <= i < |flags| && flags[i] == f;
    assert more[i] == f;
  }

  lemma {:induction false} StepKeepsClosedLeg(req: Request, s: State, a: Action, l: Leg)
    requires Unresolved(req) && Needs(req, l) && l != Geo
    requires Distinct(s.flags) && Enabled(req, s, a) && ClosedLeg(s.flags, s.legs.Get(l))
    ensures ClosedLeg(Do(req, s, a).flags, Do(req, s, a).legs.Get(l))
  {
    var t := Do(req, s, a);
    StepKeepsFlags(req, s, a);
    if Holds(s.flags, TrainingUnresolved) {
      HoldsInMore(s.flags, t.flags, TrainingUnresolved);
    }
    if a == Flagging(l) {
      AddFlagDistinct(s.flags, TrainingUnresolved);
    }
  }

  /** In every run an unresolved training turn says so once either leg it needs is done. */
  lemma {:induction false} UnresolvedTurnIsFlagged(req: Request, states: seq<State>, actions: seq<Action>, l: Leg)
    requires IsRun(req, states, actions) && Unresolved(req) && Needs(req, l) && l != Geo
    ensures ClosedLeg(states[|actions|].flags, states[|actions|].legs.Get(l))
  {
    if actions != [] {
      var n := |actions| - 1;
      UnresolvedTurnIsFlagged(req, states[..n + 1], actions[..n], l);
      StepOfRun(req, states, actions, n);
      StepKeepsClosedLeg(req, states[n], actions[n], l);
    }
  }

  // ---------------------------------------------------------------- progress

  /** Something to do other than stopping. */
  function NextFor(s: State, l: Leg): Action {
    match s.legs.Get(l)
    case Requested => Begin(l)
    case Calling => Return(l, Late)
    case Storing(early, _, _) => if early == [] then Store(l) else Flagging(l)
    case Closing(late) => if late == [] then Send(l) else Flagging(l)
    case Sent => Join(l)
    case _ => Stop
  }

  function Next(s: State): Action {
    match s.phase
    case Starting => Route([])
    case Waiting => NextFor(s, if !s.legs.rag.Joined? then Rag else if !s.legs.sql.Joined? then Sql else Geo)
    case Enriching => Enrich([], [], [])
    case Emitting(todo) => if todo == [] then Merge else Emit
    case Merged => Generate("")
    case Generated => Verify(TimedOut)
    case Publishing(_) => Publish
    case Delivered => Finish
    case Finished => Stop
  }

  /** The join never waits for ever: in every state that is neither finished nor stopped a step other than Stop can be taken. */
  lemma {:induction false} NeverStuck(req: Request, s: State)
    requires Inv(req, s) && !s.stopped && !s.phase.Finished?
    ensures Enabled(req, s, Next(s)) && !Next(s).Stop?
  {
  }

  function LegRank(leg: LegState): nat {
    match leg
    case Unsent => 6 case Requested => 5 case Calling => 4 case Storing(_, _, _) => 3
    case Closing(_) => 2 case Sent => 1 case Joined => 0
  }

  function PhaseRank(p: Phase): nat {
    match p
    case Starting => 12 case Waiting => 11 case Enriching => 10 case Emitting(todo) => 5 + |todo|
    case Merged => 4 case Generated => 3 case Publishing(_) => 2 case Delivered => 1 case Finished => 0
  }

  function LegsRank(legs: PerLeg<LegState>): nat {
    LegRank(legs.rag) + LegRank(legs.sql) + LegRank(legs.geo)
  }

  function Rank(s: State): nat {
    (if s.stopped then 0 else 1) + PhaseRank(s.phase) + LegsRank(s.legs)
  }

  /** Flags a leg has still to set. */
  function Unset(leg: LegState): nat {
    match leg
    case Storing(early, _, late) => |early| + |late|
    case Closing(late) => |late|
    case _ => 0
  }

  function FlagsLeft(legs: PerLeg<LegState>): nat {
    Unset(legs.rag) + Unset(legs.sql) + Unset(legs.geo)
  }

  lemma {:induction false} RankOfSet(legs: PerLeg<LegState>, l: Leg, v: LegState)
    ensures LegsRank(legs.Set(l, v)) == LegsRank(legs) - LegRank(legs.Get(l)) + LegRank(v)
    ensures FlagsLeft(legs.Set(l, v)) == FlagsLeft(legs) - Unset(legs.Get(l)) + Unset(v)
  {
  }

  ghost predicate Closer(s: State, t: State) {
    Rank(t) < Rank(s) || (Rank(t) == Rank(s) && FlagsLeft(t.legs) < FlagsLeft(s.legs))
  }

  lemma {:induction false} LegsMoveWhileWaiting(req: Request, s: State, a: Action)
    requires JoinInv(s) && Enabled(req, s, a) && !IsMain(a)
    ensures s.phase.Waiting?
  {
    assert !s.legs.Get(a.leg).Joined? && !s.legs.Get(a.leg).Unsent?;
  }

  lemma {:induction false} LegStepsForward(req: Request, s: State, a: Action)
    requires Enabled(req, s, a) && !IsMain(a)
    ensures var t := Do(req, s, a);
            && t.legs == s.legs.Set(a.leg, t.legs.Get(a.leg)) && t.stopped == s.stopped
            && (t.phase == s.phase || t.phase == Enriching)
            && (LegRank(t.legs.Get(a.leg)) < LegRank(s.legs.Get(a.leg))
                || (LegRank(t.legs.Get(a.leg)) == LegRank(s.legs.Get(a.leg))
                    && Unset(t.legs.Get(a.leg)) < Unset(s.legs.Get(a.leg))))
  {
  }

  lemma {:induction false} LegRunsOut(req: Request, s: State, a: Action)
    requires JoinInv(s) && Enabled(req, s, a) && !IsMain(a)
    ensures Closer(s, Do(req, s, a))
  {
    var t := Do(req, s, a);
    LegsMoveWhileWaiting(req, s, a);
    LegStepsForward(req, s, a);
    RankOfSet(s.legs, a.leg, t.legs.Get(a.leg));
  }

  lemma {:induction false} MainRunsOut(req: Request, s: State, a: Action)
    requires JoinInv(s) && Enabled(req, s, a) && IsMain(a)
    ensures Closer(s, Do(req, s, a))
  {
    if a.Enrich? {
      assert |MergeFrames(req, Do(req, s, a))| <= 4;
    }
  }

  /** Every step brings a run closer to its end: no run goes on for ever. */
  lemma {:induction false} StepsRunOut(req: Request, s: State, a: Action)
    requires Inv(req, s) && Enabled(req, s, a)
    ensures Closer(s, Do(req, s, a))
  {
    if IsMain(a) {
      MainRunsOut(req, s, a);
    } else {
      LegRunsOut(req, s, a);
    }
  }
}
