/**
 The steps of the query workflow as they run one after another
 (api/application/pipelines/workflow.py), and the proof that each of them is a
 stretch of the step system's actions.
 */
module QuerySteps {
  import opened Common
  import opened QueryPipeline
  import opened QueryRuns

  /** A stretch of a run. */
  ghost predicate Reaches(req: Request, s: State, actions: seq<Action>, t: State)
    decreases |actions|
  {
    if actions == [] then s == t
    else Enabled(req, s, actions[0]) && Reaches(req, Do(req, s, actions[0]), actions[1..], t)
  }

  lemma {:induction false} ReachesOne(req: Request, s: State, a: Action)
    requires Enabled(req, s, a)
    ensures Reaches(req, s, [a], Do(req, s, a))
  {
    assert [a][1..] == [];
  }

  lemma {:induction false} ReachesAppend(req: Request, s: State, a: seq<Action>, t: State, b: seq<Action>, u: State)
    requires Reaches(req, s, a, t) && Reaches(req, t, b, u)
    ensures Reaches(req, s, a + b, u)
    decreases |a|
  {
    if a == [] {
      assert a + b == b;
    } else {
      assert (a + b)[1..] == a[1..] + b;
      ReachesAppend(req, Do(req, s, a[0]), a[1..], t, b, u);
    }
  }

  /** What holds in every run holds across steps. */
  lemma {:induction false} ReachesKeepsInv(req: Request, s: State, actions: seq<Action>, t: State)
    requires Inv(req, s) && Reaches(req, s, actions, t)
    ensures Inv(req, t)
    decreases |actions|
  {
    if actions != [] {
      StepKeepsInv(req, s, actions[0]);
      ReachesKeepsInv(req, Do(req, s, actions[0]), actions[1..], t);
    }
  }

  // ---------------------------------------------------------------- one leg from start to end

  /** What the leg is to flag and store, given its backend's outcome. */
  function LegPlan(req: Request, l: Leg, o: Outcome): (p: LegState)
    ensures p.Storing?
  {
    if Begun(req, l).Calling? then Returning(l, o) else Begun(req, l)
  }

  /** The state once the leg has run to its done event, no other leg having moved. */
  function AfterLeg(req: Request, s: State, l: Leg, o: Outcome): State {
    var p := LegPlan(req, l, o);
    s.(legs := s.legs.Set(l, Sent), results := s.results.Set(l, Some(p.result)),
       flags := AddFlags(AddFlags(s.flags, p.early), p.late),
       calls := if Begun(req, l).Calling? then s.calls + [Call(BackendOf(l), RetrievalScope(req))] else s.calls)
  }

  lemma {:induction false} EarlyFlags(req: Request, s: State, l: Leg, early: seq<Flag>, r: LegResult, late: seq<Flag>)
    returns (acts: seq<Action>)
    requires !s.stopped && !s.phase.Finished? && s.legs.Get(l) == Storing(early, r, late)
    ensures Reaches(req, s, acts, s.(flags := AddFlags(s.flags, early), legs := s.legs.Set(l, Storing([], r, late))))
    decreases |early|
  {
    if early == [] {
      acts := [];
      assert s.legs.Set(l, Storing([], r, late)) == s.legs;
    } else {
      var t := Do(req, s, Flagging(l));
      var rest := EarlyFlags(req, t, l, early[1..], r, late);
      acts := [Flagging(l)] + rest;
      assert acts[1..] == rest;
      SetTwice(s.legs, l, Storing(early[1..], r, late), Storing([], r, late));
    }
  }

  lemma {:induction false} LateFlags(req: Request, s: State, l: Leg, late: seq<Flag>) returns (acts: seq<Action>)
    requires !s.stopped && !s.phase.Finished? && s.legs.Get(l) == Closing(late)
    ensures Reaches(req, s, acts, s.(flags := AddFlags(s.flags, late), legs := s.legs.Set(l, Closing([]))))
    decreases |late|
  {
    if late == [] {
      acts := [];
      assert s.legs.Set(l, Closing([])) == s.legs;
    } else {
      var t := Do(req, s, Flagging(l));
      var rest := LateFlags(req, t, l, late[1..]);
      acts := [Flagging(l)] + rest;
      assert acts[1..] == rest;
      SetTwice(s.legs, l, Closing(late[1..]), Closing([]));
    }
  }

  lemma {:induction false} SetTwice<T>(p: PerLeg<T>, l: Leg, a: T, b: T)
    ensures p.Set(l, a).Set(l, b) == p.Set(l, b) && p.Set(l, a).Get(l) == a
  {
  }

  /** From its plan on, a leg reaches its done event. */
  lemma {:induction false} PlanIsReached(req: Request, s: State, l: Leg, p: LegState) returns (acts: seq<Action>)
    requires !s.stopped && !s.phase.Finished? && p.Storing? && s.legs.Get(l) == p
    ensures Reaches(req, s, acts,
                    s.(legs := s.legs.Set(l, Sent), results := s.results.Set(l, Some(p.result)),
                       flags := AddFlags(AddFlags(s.flags, p.early), p.late)))
  {
    var a1 := EarlyFlags(req, s, l, p.early, p.result, p.late);
    var s1 := s.(flags := AddFlags(s.flags, p.early), legs := s.legs.Set(l, Storing([], p.result, p.late)));
    SetTwice(s.legs, l, Storing([], p.result, p.late), Closing(p.late));
    var s2 := Do(req, s1, Store(l));
    ReachesOne(req, s1, Store(l));
    SetTwice(s.legs, l, Closing(p.late), Closing([]));
    var a3 := LateFlags(req, s2, l, p.late);
    var s3 := s2.(flags := AddFlags(s2.flags, p.late), legs := s2.legs.Set(l, Closing([])));
    SetTwice(s.legs, l, Closing([]), Sent);
    ReachesOne(req, s3, Send(l));
    ReachesAppend(req, s, a1, s1, [Store(l)], s2);
    ReachesAppend(req, s, a1 + [Store(l)], s2, a3, s3);
    ReachesAppend(req, s, a1 + [Store(l)] + a3, s3, [Send(l)], Do(req, s3, Send(l)));
    acts := a1 + [Store(l)] + a3 + [Send(l)];
  }

  /** A leg that runs undisturbed is a stretch of a run. */
  lemma {:induction false} LegIsReached(req: Request, s: State, l: Leg, o: Outcome) returns (acts: seq<Action>)
    requires !s.stopped && !s.phase.Finished? && s.legs.Get(l).Requested?
    ensures Reaches(req, s, acts, AfterLeg(req, s, l, o))
  {
    var s1 := Do(req, s, Begin(l));
    ReachesOne(req, s, Begin(l));
    SetTwice(s.legs, l, Begun(req, l), LegPlan(req, l, o));
    SetTwice(s.legs, l, LegPlan(req, l, o), Sent);
    if s1.legs.Get(l).Calling? {
      var s2 := Do(req, s1, Return(l, o));
      ReachesOne(req, s1, Return(l, o));
      var rest := PlanIsReached(req, s2, l, LegPlan(req, l, o));
      ReachesAppend(req, s, [Begin(l)], s1, [Return(l, o)], s2);
      ReachesAppend(req, s, [Begin(l)] + [Return(l, o)], s2, rest, AfterLeg(req, s, l, o));
      acts := [Begin(l)] + [Return(l, o)] + rest;
    } else {
      var rest := PlanIsReached(req, s1, l, LegPlan(req, l, o));
      ReachesAppend(req, s, [Begin(l)], s1, rest, AfterLeg(req, s, l, o));
      acts := [Begin(l)] + rest;
    }
  }

  // ---------------------------------------------------------------- the workflow object

  /** The tokens of an answer, each cleaned, joined. */
  function Buffered(sanitize: string -> string, tokens: seq<string>): string {
    if tokens == [] then "" else Buffered(sanitize, tokens[..|tokens| - 1]) + sanitize(tokens[|tokens| - 1])
  }

  class RagQueryWorkflow {
    const req: Request
    var ctx: State

    constructor (req: Request)
      ensures this.req == req && ctx == Start()
    {
      this.req, ctx := req, Start();
    }

    predicate Running()
      reads this
    {
      !ctx.stopped && !ctx.phase.Finished?
    }

    /** `_flag` */
    method Flag(fs: seq<Flag>)
      modifies this
      ensures ctx == old(ctx).(flags := AddFlags(old(ctx.flags), fs))
    {
      var degraded := ctx.flags;
      for i := 0 to |fs|
        invariant ctx == old(ctx)
        invariant AddFlags(degraded, fs[i..]) == AddFlags(old(ctx.flags), fs)
      {
        assert fs[i..][0] == fs[i] && fs[i..][1..] == fs[i + 1..];
        if fs[i] != Note("") && !Holds(degraded, fs[i]) {
          degraded := degraded + [fs[i]];
        }
      }
      ctx := ctx.(flags := degraded);
    }

    /** `rag_leg`, `sql_leg`, `geo_leg`: `o` is what the backend does within its time. */
    method RunLeg(l: Leg, o: Outcome)
      requires Running() && ctx.legs.Get(l).Requested?
      modifies this
      ensures ctx == AfterLeg(req, old(ctx), l, o)
      ensures exists acts :: Reaches(req, old(ctx), acts, ctx)
      ensures Inv(req, old(ctx)) ==> Inv(req, ctx)
    {
      ghost var acts := LegIsReached(req, ctx, l, o);
      if Inv(req, ctx) {
        ReachesKeepsInv(req, ctx, acts, AfterLeg(req, ctx, l, o));
      }
      if !Needs(req, l) {
        ctx := ctx.(results := ctx.results.Set(l, Some(LegResult([], false))));
      } else if IsTraining(req) && Falsy(req.context) {
        ctx := ctx.(results := ctx.results.Set(l, Some(LegResult([], l != Geo))));
        if l != Geo {
          Flag([TrainingUnresolved]);
        }
      } else {
        ctx := ctx.(calls := ctx.calls + [Call(BackendOf(l), RetrievalScope(req))]);
        CallBackend(l, o);
      }
      ctx := ctx.(legs := ctx.legs.Set(l, Sent));
    }

    method CallBackend(l: Leg, o: Outcome)
      modifies this
      ensures var p := Returning(l, o);
              ctx == old(ctx).(results := old(ctx.results).Set(l, Some(p.result)),
                               flags := AddFlags(old(ctx.flags), p.early))
      ensures Returning(l, o).late == []
    {
      var result, reasons, error := LegResult([], true), [], "timeout";
      match o {
        case Late =>
          Flag([LegTimeout(l)]);
        case Failed(e) =>
          error := e;
          Flag([LegError(l, e)]);
        case Answered(r, rs, e) =>
          result, error := r, e;
          if l == Rag {
            reasons := rs;
          }
      }
      if result.degraded {
        Flag(Notes(reasons));
        if reasons == [] {
          Flag([LegDegraded(l, error)]);
        }
      }
      ctx := ctx.(results := ctx.results.Set(l, Some(result)));
    }

    /** The frames of the join, one at a time; `sent` of them leave before a failure, all if it is large enough. */
    method EmitMergeFrames(sent: nat)
      requires Running() && ctx.phase.Emitting?
      modifies this
      ensures exists acts :: Reaches(req, old(ctx), acts, ctx)
      ensures var todo := old(ctx.phase.todo);
              var n := if sent < |todo| then sent else |todo|;
              ctx == old(ctx).(frames := old(ctx.frames) + todo[..n], phase := Emitting(todo[n..]), stopped := n < |todo|)
    {
      var todo := ctx.phase.todo;
      ghost var acts: seq<Action> := [];
      var i := 0;
      assert todo[..0] == [] && todo[0..] == todo && ctx.frames + [] == ctx.frames;
      while i < |todo| && i < sent
        invariant 0 <= i <= |todo| && i <= sent
        invariant ctx == old(ctx).(frames := old(ctx.frames) + todo[..i], phase := Emitting(todo[i..]))
        invariant Reaches(req, old(ctx), acts, ctx)
      {
        ghost var before := ctx;
        ctx := ctx.(frames := ctx.frames + [todo[i]], phase := Emitting(todo[i + 1..]));
        assert todo[..i + 1] == todo[..i] + [todo[i]];
        assert Do(req, before, Emit) == ctx;
        ReachesOne(req, before, Emit);
        ReachesAppend(req, old(ctx), acts, before, [Emit], ctx);
        acts := acts + [Emit];
        i := i + 1;
      }
      if i < |todo| {
        ghost var before := ctx;
        ctx := ctx.(stopped := true);
        ReachesOne(req, before, Stop);
        ReachesAppend(req, old(ctx), acts, before, [Stop], ctx);
      }
    }

    /** `generate`: every token is buffered, none is sent. */
    method Generate(tokens: seq<string>, sanitize: string -> string, normalize: string -> string)
      requires Running() && ctx.phase.Merged?
      modifies this
      ensures var text := normalize(Buffered(sanitize, tokens));
              Reaches(req, old(ctx), [Action.Generate(text)], ctx)
      ensures ctx.answer == Some(normalize(Buffered(sanitize, tokens))) && ctx.frames == old(ctx.frames)
    {
      var parts := "";
      for i := 0 to |tokens|
        invariant ctx == old(ctx) && parts == Buffered(sanitize, tokens[..i])
      {
        assert tokens[..i + 1][..i] == tokens[..i];
        parts := parts + sanitize(tokens[i]);
      }
      assert tokens[..|tokens|] == tokens;
      var answer := normalize(parts);
      ReachesOne(req, ctx, Action.Generate(answer));
      ctx := ctx.(phase := Generated, generated := Some(answer), answer := Some(answer));
    }

    /** `output_guard`: what leaves is verified, or the safe copy. */
    method OutputGuard(v: Verdict) returns (delivered: string)
      requires Running() && ctx.phase.Generated? && ctx.generated.Some? && ctx.answer == ctx.generated
      modifies this
      ensures delivered == if Verified(v) then old(ctx.generated).value else VERIFICATION_FALLBACK_MESSAGE
      ensures ctx.answer == Some(delivered) && ctx.frames == old(ctx.frames) + [Token(delivered)]
      ensures exists acts :: Reaches(req, old(ctx), acts, ctx)
      ensures Inv(req, old(ctx)) ==> Inv(req, ctx)
    {
      ghost var s0 := ctx;
      ghost var s1 := Do(req, s0, Verify(v));
      ghost var s2 := Do(req, s1, Publish);
      ghost var s3 := Do(req, s2, Finish);
      ReachesOne(req, s0, Verify(v));
      ReachesOne(req, s1, Publish);
      ReachesOne(req, s2, Finish);
      ReachesAppend(req, s0, [Verify(v)], s1, [Publish], s2);
      ReachesAppend(req, s0, [Verify(v)] + [Publish], s2, [Finish], s3);
      if Inv(req, s0) {
        ReachesKeepsInv(req, s0, [Verify(v)] + [Publish] + [Finish], s3);
      }
      var answer := ctx.answer.value;
      var failed := true;
      match v {
        case TimedOut => Flag([GuardTimeout]);
        case Raised(kind) => Flag([GuardError(kind)]);
        case Returned(_) => failed := false;
      }
      if failed || v.confidence == Low {
        answer := VERIFICATION_FALLBACK_MESSAGE;
        ctx := ctx.(answer := Some(answer));
      }
      ctx := ctx.(frames := ctx.frames + [Token(answer)], verdict := Some(v), phase := Finished);
      delivered := answer;
      assert ctx == s3;
    }
  }
}
