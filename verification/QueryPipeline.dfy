/**
 The query pipeline (api/application/pipelines/workflow.py) as a step system:
 three legs that interleave freely, a join, frames sent one at a time, and an
 answer that is verified before it is delivered. Any backend may answer, fail or
 time out, and the run may stop after any step.
 */
module QueryPipeline {
  import opened Common

  // ---------------------------------------------------------------- requests and scopes

  const TRAINING_PROJECT_KEY: string := "_training"

  datatype Request = Request(
    project: Option<string>, context: Option<string>, needsRag: bool, needsSql: bool, needsGeo: bool)

  /** `is_training_scope` */
  predicate IsTraining(req: Request) {
    req.project == Some(TRAINING_PROJECT_KEY)
  }

  /** Python's `not s`. */
  predicate Falsy(s: Option<string>) {
    s.None? || s.value == ""
  }

  /** A training turn without a context project. */
  predicate Unresolved(req: Request) {
    IsTraining(req) && Falsy(req.context)
  }

  /** `training_retrieval_scope` */
  function RetrievalScope(req: Request): Option<string> {
    if IsTraining(req) then req.context else req.project
  }

  // ---------------------------------------------------------------- state

  datatype Leg = Rag | Sql | Geo

  datatype PerLeg<T> = PerLeg(rag: T, sql: T, geo: T) {
    function Get(l: Leg): T {
      match l case Rag => rag case Sql => sql case Geo => geo
    }

    function Set(l: Leg, v: T): PerLeg<T> {
      match l case Rag => this.(rag := v) case Sql => this.(sql := v) case Geo => this.(geo := v)
    }
  }

  datatype LegResult = LegResult(items: seq<int>, degraded: bool)

  /** Degradation flags, kept apart by what raises them. */
  datatype Flag =
    | Note(text: string)
    | LegTimeout(leg: Leg)
    | LegError(leg: Leg, error: string)
    | LegDegraded(leg: Leg, error: string)
    | TrainingUnresolved
    | RerankProblem(text: string)
    | GuardTimeout
    | GuardError(kind: string)

  /**
   Where a leg is: asked for, waiting for its backend, about to set flags and
   store its result, about to set flags after that, its done event sent, and the
   event taken by the join.
   */
  datatype LegState =
    | Unsent
    | Requested
    | Calling
    | Storing(early: seq<Flag>, result: LegResult, late: seq<Flag>)
    | Closing(late: seq<Flag>)
    | Sent
    | Joined

  datatype Frame =
    | Places(items: seq<int>)
    | Sources(items: seq<int>)
    | Facts(items: seq<int>)
    | Images(items: seq<int>)
    | Token(text: string)

  datatype Backend = RagStore | FactStore | GeoSearch | Hydration | ImageSearch

  datatype Call = Call(backend: Backend, scope: Option<string>)

  datatype Confidence = High | Medium | Low

  datatype Verdict = TimedOut | Raised(kind: string) | Returned(confidence: Confidence)

  datatype Phase =
    | Starting | Waiting | Enriching | Emitting(todo: seq<Frame>)
    | Merged | Generated | Publishing(text: string) | Delivered | Finished

  datatype State = State(
    phase: Phase, stopped: bool, legs: PerLeg<LegState>, results: PerLeg<Option<LegResult>>, merges: nat,
    chunks: seq<int>, images: seq<int>, flags: seq<Flag>, calls: seq<Call>, frames: seq<Frame>,
    generated: Option<string>, verdict: Option<Verdict>, answer: Option<string>)

  function Start(): State {
    State(Starting, false, PerLeg(Unsent, Unsent, Unsent), PerLeg(None, None, None), 0,
          [], [], [], [], [], None, None, None)
  }

  // ---------------------------------------------------------------- flags

  predicate Holds(flags: seq<Flag>, f: Flag) {
    exists i :: 0 <= i < |flags| && flags[i] == f
  }

  /** `_flag` with one flag: empty ones and repeats are dropped. */
  function AddFlag(flags: seq<Flag>, f: Flag): seq<Flag> {
    if f == Note("") || Holds(flags, f) then flags else flags + [f]
  }

  function AddFlags(flags: seq<Flag>, fs: seq<Flag>): seq<Flag>
    decreases |fs|
  {
    if fs == [] then flags else AddFlags(AddFlag(flags, fs[0]), fs[1..])
  }

  // ---------------------------------------------------------------- the legs

  predicate Needs(req: Request, l: Leg) {
    match l case Rag => req.needsRag case Sql => req.needsSql case Geo => req.needsGeo
  }

  function BackendOf(l: Leg): Backend {
    match l case Rag => RagStore case Sql => FactStore case Geo => GeoSearch
  }

  /** What a leg does first: skip, fail closed, or call its backend. */
  function Begun(req: Request, l: Leg): LegState {
    if !Needs(req, l) then Storing([], LegResult([], false), [])
    else if Unresolved(req) then
      if l == Geo then Storing([], LegResult([], false), []) else Storing([], LegResult([], true), [TrainingUnresolved])
    else Calling
  }

  datatype Outcome = Late | Failed(error: string) | Answered(result: LegResult, reasons: seq<string>, error: string)

  function Notes(reasons: seq<string>): seq<Flag> {
    seq(|reasons|, i requires 0 <= i < |reasons| => Note(reasons[i]))
  }

  /** What the backend's outcome makes a leg flag and store. */
  function Returning(l: Leg, o: Outcome): LegState {
    match o
    case Late => Storing([LegTimeout(l), LegDegraded(l, "timeout")], LegResult([], true), [])
    case Failed(e) => Storing([LegError(l, e), LegDegraded(l, e)], LegResult([], true), [])
    case Answered(r, reasons, e) =>
      if !r.degraded then Storing([], r, [])
      else if l == Rag && reasons != [] then Storing(Notes(reasons), r, [])
      else Storing([LegDegraded(l, e)], r, [])
  }

  // ---------------------------------------------------------------- after the join

  /** What the join's rerank call may do to the chunks: nothing, or pick among them. */
  predicate PicksFrom(chunks: seq<int>, from: seq<int>) {
    forall i :: 0 <= i < |chunks| ==> chunks[i] in from
  }

  /** Calls made while merging: hydration when there are chunks, images unless the scope is unresolved. */
  function MergeCalls(req: Request, chunks: seq<int>): seq<Call> {
    var scope := RetrievalScope(req);
    (if chunks != [] then [Call(Hydration, scope)] else [])
    + (if IsTraining(req) && Falsy(scope) then []
       else if Falsy(scope) then [Call(ImageSearch, None)]
       else [Call(ImageSearch, scope)])
  }

  function ItemsOf(r: Option<LegResult>): seq<int> {
    match r case None => [] case Some(x) => x.items
  }

  /** Frames the join sends, in order. */
  function MergeFrames(req: Request, s: State): seq<Frame> {
    (if req.needsGeo then [Places(ItemsOf(s.results.geo))] else [])
    + [Sources(s.chunks), Facts(ItemsOf(s.results.sql)), Images(s.images)]
  }

  const VERIFICATION_FALLBACK_MESSAGE: string :=
    "T\U{F4}i ch\U{1B0}a th\U{1EC3} x\U{E1}c minh c\U{E2}u tr\U{1EA3} l\U{1EDD}i n\U{E0}y t\U{1EEB} c\U{E1}c ngu\U{1ED3}n hi\U{1EC7}n c\U{F3}. Vui l\U{F2}ng th\U{1EED} l\U{1EA1}i sau."

  /** The guard returned normally, and not with LOW confidence. */
  predicate Verified(v: Verdict) {
    v.Returned? && v.confidence != Low
  }

  /** What may be delivered. */
  function Delivery(generated: string, v: Verdict): string {
    if Verified(v) then generated else VERIFICATION_FALLBACK_MESSAGE
  }

  function GuardFlags(v: Verdict): seq<Flag> {
    match v
    case TimedOut => [GuardTimeout]
    case Raised(kind) => [GuardError(kind)]
    case Returned(_) => []
  }

  // ---------------------------------------------------------------- steps

  datatype Action =
    | Route(notes: seq<string>)
    | Begin(leg: Leg)
    | Return(leg: Leg, outcome: Outcome)
    | Flagging(leg: Leg)
    | Store(leg: Leg)
    | Send(leg: Leg)
    | Join(leg: Leg)
    | Enrich(chunks: seq<int>, images: seq<int>, problems: seq<string>)
    | Emit
    | Merge
    | Generate(text: string)
    | Verify(verdict: Verdict)
    | Publish
    | Finish
    | Stop

  /** The done events the join has collected, once it takes this leg's. */
  predicate Complete(legs: PerLeg<LegState>) {
    legs.rag.Joined? && legs.sql.Joined? && legs.geo.Joined?
  }

  predicate Enabled(req: Request, s: State, a: Action) {
    !s.stopped && !s.phase.Finished? &&
    match a
    case Route(_) => s.phase.Starting?
    case Begin(l) => s.legs.Get(l).Requested?
    case Return(l, _) => s.legs.Get(l).Calling?
    case Flagging(l) =>
      var leg := s.legs.Get(l);
      (leg.Storing? && leg.early != []) || (leg.Closing? && leg.late != [])
    case Store(l) => s.legs.Get(l).Storing? && s.legs.Get(l).early == []
    case Send(l) => s.legs.Get(l) == Closing([])
    case Join(l) => s.legs.Get(l).Sent?
    case Enrich(chunks, images, _) =>
      s.phase.Enriching? && PicksFrom(chunks, ItemsOf(s.results.rag))
      && (IsTraining(req) && Falsy(RetrievalScope(req)) ==> images == [])
    case Emit => s.phase.Emitting? && s.phase.todo != []
    case Merge => s.phase == Emitting([])
    case Generate(_) => s.phase.Merged?
    case Verify(_) => s.phase.Generated? && s.generated.Some?
    case Publish => s.phase.Publishing?
    case Finish => s.phase.Delivered?
    case Stop => true
  }

  function RerankFlags(problems: seq<string>): seq<Flag> {
    seq(|problems|, i requires 0 <= i < |problems| => RerankProblem(problems[i]))
  }

  function FlagNext(s: State, l: Leg): State
    requires var leg := s.legs.Get(l); (leg.Storing? && leg.early != []) || (leg.Closing? && leg.late != [])
  {
    match s.legs.Get(l)
    case Storing(early, result, late) =>
      s.(flags := AddFlag(s.flags, early[0]), legs := s.legs.Set(l, Storing(early[1..], result, late)))
    case Closing(late) =>
      s.(flags := AddFlag(s.flags, late[0]), legs := s.legs.Set(l, Closing(late[1..])))
  }

  function Do(req: Request, s: State, a: Action): State
    requires Enabled(req, s, a)
  {
    match a
    case Route(notes) =>
      s.(phase := Waiting, legs := PerLeg(Requested, Requested, Requested), flags := AddFlags(s.flags, Notes(notes)))
    case Begin(l) =>
      var next := Begun(req, l);
      s.(legs := s.legs.Set(l, next),
         calls := if next.Calling? then s.calls + [Call(BackendOf(l), RetrievalScope(req))] else s.calls)
    case Return(l, o) => s.(legs := s.legs.Set(l, Returning(l, o)))
    case Flagging(l) => FlagNext(s, l)
    case Store(l) =>
      var leg := s.legs.Get(l);
      s.(results := s.results.Set(l, Some(leg.result)), legs := s.legs.Set(l, Closing(leg.late)))
    case Send(l) => s.(legs := s.legs.Set(l, Sent))
    case Join(l) =>
      var legs := s.legs.Set(l, Joined);
      if Complete(legs) then s.(legs := legs, phase := Enriching, merges := s.merges + 1) else s.(legs := legs)
    case Enrich(chunks, images, problems) =>
      var t := s.(chunks := chunks, images := images, flags := AddFlags(s.flags, RerankFlags(problems)),
                  calls := s.calls + MergeCalls(req, chunks));
      t.(phase := Emitting(MergeFrames(req, t)))
    case Emit => s.(frames := s.frames + [s.phase.todo[0]], phase := Emitting(s.phase.todo[1..]))
    case Merge => s.(phase := Merged)
    case Generate(text) => s.(phase := Generated, generated := Some(text), answer := Some(text))
    case Verify(v) =>
      var text := Delivery(s.generated.value, v);
      s.(phase := Publishing(text), verdict := Some(v), answer := Some(text), flags := AddFlags(s.flags, GuardFlags(v)))
    case Publish => s.(phase := Delivered, frames := s.frames + [Token(s.phase.text)])
    case Finish => s.(phase := Finished)
    case Stop => s.(stopped := true)
  }

  /** A run: the states it goes through, from the start. */
  ghost predicate IsRun(req: Request, states: seq<State>, actions: seq<Action>) {
    && |states| == |actions| + 1 && states[0] == Start()
    && forall n :: 0 <= n < |actions| ==>
         Enabled(req, states[n], actions[n]) && states[n + 1] == Do(req, states[n], actions[n])
  }
}
