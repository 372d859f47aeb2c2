/**
 The retrieval backend (api/application/services/rag_leg.py): set-up, a query
 tried twice, a filter by the registry, and the reason codes of every way in which
 less comes back than was found.
 */
module RagLeg {
  import opened Common
  import opened Filtering
  import opened QueryPipeline

  const QUERY_ATTEMPTS := 2

  /** A retrieved chunk; the empty id is a missing one. */
  datatype Chunk = Chunk(item: int, id: string)

  datatype Attempt = TimedOut(error: string) | QueryRaised(error: string) | Data(chunks: seq<Chunk>)

  /** The registry's answer: the ids that are published, in force and of the project. */
  datatype Registry = FilterRaised(error: string) | Valid(ids: set<string>)

  /** What the calls of one retrieval do; `init` and `param` are the errors they raise. */
  datatype Calls = Calls(init: Option<string>, param: Option<string>, attempts: nat -> Attempt, registry: Registry)

  datatype Reason =
    | RagInitError | QueryParamError | AqueryTimeout | AqueryError | PostFilterError | ChunksMissingIds | ChunksFiltered

  function Code(r: Reason): string {
    match r
    case RagInitError => "rag_init_error"
    case QueryParamError => "query_param_error"
    case AqueryTimeout => "aquery_timeout"
    case AqueryError => "aquery_error"
    case PostFilterError => "post_filter_error"
    case ChunksMissingIds => "chunks_missing_ids"
    case ChunksFiltered => "chunks_filtered"
  }

  function Codes(rs: seq<Reason>): seq<string> {
    seq(|rs|, i requires 0 <= i < |rs| => Code(rs[i]))
  }

  function Items(chunks: seq<Chunk>): seq<int> {
    seq(|chunks|, i requires 0 <= i < |chunks| => chunks[i].item)
  }

  function MissingIds(chunks: seq<Chunk>): nat {
    |Filter((c: Chunk) => c.id == "", chunks)|
  }

  /** `_post_filter`: without any id it asks nothing and keeps nothing. */
  function PostFilter(chunks: seq<Chunk>, registry: Registry): Result<seq<Chunk>, string> {
    if MissingIds(chunks) == |chunks| then Ok([])
    else
      match registry
      case FilterRaised(e) => Err(e)
      case Valid(ids) => Ok(Filter((c: Chunk) => c.id != "" && c.id in ids, chunks))
  }

  function Degraded(rs: seq<Reason>, error: string): Outcome {
    Answered(LegResult([], true), Codes(rs), error)
  }

  /** The last attempt made: the second one only after a time-out. */
  function LastAttempt(calls: Calls): Attempt {
    if calls.attempts(0).TimedOut? then calls.attempts(1) else calls.attempts(0)
  }

  function ReasonsOf(chunks: seq<Chunk>, kept: seq<Chunk>): seq<Reason> {
    (if MissingIds(chunks) > 0 then [ChunksMissingIds] else [])
    + (if |kept| < |chunks| - MissingIds(chunks) then [ChunksFiltered] else [])
  }

  function Checked(chunks: seq<Chunk>, registry: Registry): Outcome {
    if chunks == [] then Answered(LegResult([], false), [], "")
    else
      match PostFilter(chunks, registry)
      case Err(e) =>
        Degraded(if MissingIds(chunks) > 0 then [ChunksMissingIds, PostFilterError] else [PostFilterError], e)
      case Ok(kept) =>
        var rs := ReasonsOf(chunks, kept);
        Answered(LegResult(Items(kept), rs != []), Codes(rs), "")
  }

  function RagOutcome(calls: Calls): Outcome {
    if calls.init.Some? then Degraded([RagInitError], calls.init.value)
    else if calls.param.Some? then Degraded([QueryParamError], calls.param.value)
    else
      match LastAttempt(calls)
      case TimedOut(e) => Degraded([AqueryTimeout], e)
      case QueryRaised(e) => Degraded([AqueryError], e)
      case Data(chunks) => Checked(chunks, calls.registry)
  }

  /** `run_rag_leg` */
  method RunRagLeg(calls: Calls) returns (o: Outcome)
    ensures o == RagOutcome(calls)
  {
    if calls.init.Some? {
      return Degraded([RagInitError], calls.init.value);
    }
    if calls.param.Some? {
      return Degraded([QueryParamError], calls.param.value);
    }
    var chunks := [];
    for attempt := 0 to QUERY_ATTEMPTS
      invariant attempt > 0 ==> attempt == 1 && calls.attempts(0).TimedOut?
    {
      match calls.attempts(attempt) {
        case Data(found) =>
          chunks := found;
          break;
        case TimedOut(e) =>
          if attempt > 0 {
            return Degraded([AqueryTimeout], e);
          }
        case QueryRaised(e) =>
          return Degraded([AqueryError], e);
      }
    }
    if chunks == [] {
      return Answered(LegResult([], false), [], "");
    }
    var missing := MissingIds(chunks);
    match PostFilter(chunks, calls.registry) {
      case Err(e) =>
        return Degraded(if missing > 0 then [ChunksMissingIds, PostFilterError] else [PostFilterError], e);
      case Ok(kept) =>
        var reasons := [];
        if missing > 0 {
          reasons := reasons + [ChunksMissingIds];
        }
        if |kept| < |chunks| - missing {
          reasons := reasons + [ChunksFiltered];
        }
        return Answered(LegResult(Items(kept), reasons != []), Codes(reasons), "");
    }
  }

  // ---------------------------------------------------------------- what a degraded answer means

  lemma {:induction false} FilterSizes<T>(p: T -> bool, s: seq<T>)
    ensures |Filter(p, s)| <= |s|
    ensures |Filter(p, s)| == |s| <==> forall i :: 0 <= i < |s| ==> p(s[i])
    ensures |Filter(p, s)| == |s| ==> Filter(p, s) == s
  {
    if s != [] {
      var front, last := s[..|s| - 1], s[|s| - 1];
      FilterSizes(p, front);
      assert s == front + [last];
      forall i | 0 <= i < |front| ensures front[i] == s[i] {}
    }
  }

  /** Every call succeeded, and the registry kept all that was found. */
  ghost predicate Whole(calls: Calls) {
    && calls.init.None? && calls.param.None? && LastAttempt(calls).Data?
    && var found := LastAttempt(calls).chunks;
    found == [] || PostFilter(found, calls.registry) == Ok(found)
  }

  lemma {:induction false} ReasonsExactly(chunks: seq<Chunk>, registry: Registry)
    requires PostFilter(chunks, registry).Ok? && chunks != []
    ensures var kept := PostFilter(chunks, registry).value;
            ReasonsOf(chunks, kept) == [] <==> kept == chunks
  {
    FilterSizes((c: Chunk) => c.id == "", chunks);
    if registry.Valid? {
      FilterSizes((c: Chunk) => c.id != "" && c.id in registry.ids, chunks);
    }
    FilterNoneIsEmpty(chunks);
  }

  lemma {:induction false} FilterNoneIsEmpty(chunks: seq<Chunk>)
    ensures MissingIds(chunks) == 0 <==> forall i :: 0 <= i < |chunks| ==> chunks[i].id != ""
  {
    var p := (c: Chunk) => c.id == "";
    if i :| 0 <= i < |chunks| && p(chunks[i]) {
      assert chunks == chunks[..i] + [chunks[i]] + chunks[i + 1..];
      FilterAppend(p, chunks[..i] + [chunks[i]], chunks[i + 1..]);
      FilterAppend(p, chunks[..i], [chunks[i]]);
    } else {
      FilterNone(p, chunks);
    }
  }

  /** Retrieval is marked degraded exactly when something failed or was dropped. */
  lemma {:induction false} DegradedExactlyWhen(calls: Calls)
    ensures var o := RagOutcome(calls);
            && o.Answered? && (o.result.degraded <==> !Whole(calls))
            && (Whole(calls) ==> o.result.items == Items(LastAttempt(calls).chunks))
  {
    if calls.init.None? && calls.param.None? && LastAttempt(calls).Data? {
      var found := LastAttempt(calls).chunks;
      if found != [] && PostFilter(found, calls.registry).Ok? {
        ReasonsExactly(found, calls.registry);
      }
    }
  }

  /** How far the calls of a retrieval came. */
  predicate Queried(calls: Calls) {
    calls.init == None && calls.param == None && LastAttempt(calls).Data?
  }

  /** The chunk has an id, and the registry knows it as valid. */
  predicate Keeps(ids: set<string>, c: Chunk) {
    c.id != "" && c.id in ids
  }

  lemma {:induction false} MissingExactlyWhen(chunks: seq<Chunk>)
    ensures MissingIds(chunks) > 0 <==> exists i :: 0 <= i < |chunks| && chunks[i].id == ""
    ensures MissingIds(chunks) == |chunks| <==> forall i :: 0 <= i < |chunks| ==> chunks[i].id == ""
  {
    FilterNoneIsEmpty(chunks);
    FilterSizes((c: Chunk) => c.id == "", chunks);
  }

  /** Which reason is given for what; the last attempt is the second one only after a time-out. */
  lemma {:induction false} ReasonsTell(calls: Calls)
    ensures var o := RagOutcome(calls);
            && (calls.init.Some? ==> o == Answered(LegResult([], true), ["rag_init_error"], calls.init.value))
            && (calls.init == None && calls.param.Some? ==>
                  o == Answered(LegResult([], true), ["query_param_error"], calls.param.value))
    ensures var o, last := RagOutcome(calls), LastAttempt(calls);
            && (last == calls.attempts(0) || (calls.attempts(0).TimedOut? && last == calls.attempts(1)))
            && (calls.init == None && calls.param == None && last.TimedOut? ==>
                  calls.attempts(0).TimedOut? && o == Answered(LegResult([], true), ["aquery_timeout"], last.error))
            && (calls.init == None && calls.param == None && last.QueryRaised? ==>
                  o == Answered(LegResult([], true), ["aquery_error"], last.error))
  {
    assert Codes([RagInitError]) == ["rag_init_error"];
    assert Codes([QueryParamError]) == ["query_param_error"];
    assert Codes([AqueryTimeout]) == ["aquery_timeout"];
    assert Codes([AqueryError]) == ["aquery_error"];
  }

  /** After a query: a filter that fails, chunks without an id, and chunks the registry does not keep. */
  lemma {:induction false} ChunkReasonsTell(calls: Calls)
    requires Queried(calls) && LastAttempt(calls).chunks != []
    ensures var o, chunks := RagOutcome(calls), LastAttempt(calls).chunks;
            var asked := exists i :: 0 <= i < |chunks| && chunks[i].id != "";
            && o.Answered?
            && (Code(PostFilterError) in o.reasons <==> asked && calls.registry.FilterRaised?)
            && (Code(ChunksMissingIds) in o.reasons <==> exists i :: 0 <= i < |chunks| && chunks[i].id == "")
            && (asked && calls.registry.FilterRaised? ==> o.result.items == [] && o.error == calls.registry.error)
            && (!asked ==> o.result.items == [])
            && (asked && calls.registry.Valid? ==>
                  o.result.items == Items(Filter((c: Chunk) => Keeps(calls.registry.ids, c), chunks)))
  {
    var chunks := LastAttempt(calls).chunks;
    MissingExactlyWhen(chunks);
    CodesDiffer();
    if PostFilter(chunks, calls.registry).Ok? {
      var kept := PostFilter(chunks, calls.registry).value;
      CodesIn(ReasonsOf(chunks, kept));
      if calls.registry.Valid? {
        SameFilter((c: Chunk) => c.id != "" && c.id in calls.registry.ids, (c: Chunk) => Keeps(calls.registry.ids, c), chunks);
      }
    } else {
      CodesIn(if MissingIds(chunks) > 0 then [ChunksMissingIds, PostFilterError] else [PostFilterError]);
    }
  }

  lemma {:induction false} SameFilter<T>(p: T -> bool, q: T -> bool, s: seq<T>)
    requires forall x :: p(x) <==> q(x)
    ensures Filter(p, s) == Filter(q, s)
  {
    if s != [] {
      SameFilter(p, q, s[..|s| - 1]);
    }
  }

  lemma CodesDiffer()
    ensures forall r, t :: Code(r) == Code(t) ==> r == t
  {
    forall r: Reason, t: Reason | r != t ensures Code(r) != Code(t) {
      CodesDifferAt(r, t);
    }
  }

  lemma CodesDifferAt(r: Reason, t: Reason)
    requires r != t
    ensures Code(r) != Code(t)
  {
    assert |Code(RagInitError)| == 14 && |Code(QueryParamError)| == 17 && |Code(AqueryTimeout)| == 14;
    assert |Code(AqueryError)| == 12 && |Code(PostFilterError)| == 17 && |Code(ChunksMissingIds)| == 18;
    assert |Code(ChunksFiltered)| == 15;
    assert Code(RagInitError)[0] == 'r' && Code(AqueryTimeout)[0] == 'a';
    assert Code(QueryParamError)[0] == 'q' && Code(PostFilterError)[0] == 'p';
  }

  lemma {:induction false} CodesIn(rs: seq<Reason>)
    ensures forall r :: r in rs ==> Code(r) in Codes(rs)
    ensures forall text :: text in Codes(rs) ==> exists r :: r in rs && text == Code(r)
  {
    forall r | r in rs ensures Code(r) in Codes(rs) {
      var i :| 0 <= i < |rs| && rs[i] == r;
      assert Codes(rs)[i] == Code(r);
    }
    forall text | text in Codes(rs) ensures exists r :: r in rs && text == Code(r) {
      var i :| 0 <= i < |Codes(rs)| && Codes(rs)[i] == text;
      assert rs[i] in rs;
    }
  }

  predicate IsCode(text: string) {
    exists r: Reason :: text == Code(r)
  }

  lemma {:induction false} CodesSay(rs: seq<Reason>)
    ensures |Codes(rs)| == |rs|
    ensures forall i :: 0 <= i < |rs| ==> IsCode(Codes(rs)[i]) && Codes(rs)[i] != ""
  {
  }

  lemma {:induction false} CheckedHasReasons(chunks: seq<Chunk>, registry: Registry)
    ensures var o := Checked(chunks, registry);
            && o.Answered? && (o.result.degraded <==> o.reasons != [])
            && forall i :: 0 <= i < |o.reasons| ==> IsCode(o.reasons[i]) && o.reasons[i] != ""
  {
    if chunks != [] {
      match PostFilter(chunks, registry) {
        case Ok(kept) =>
          CodesSay(ReasonsOf(chunks, kept));
        case Err(_) =>
          CodesSay(if MissingIds(chunks) > 0 then [ChunksMissingIds, PostFilterError] else [PostFilterError]);
      }
    }
  }

  /** A degraded retrieval always names a reason, and its reasons are codes, none of them blank. */
  lemma {:induction false} DegradedHasReasons(calls: Calls)
    ensures var o := RagOutcome(calls);
            && o.Answered? && (o.result.degraded <==> o.reasons != [])
            && forall i :: 0 <= i < |o.reasons| ==> IsCode(o.reasons[i]) && o.reasons[i] != ""
  {
    if calls.init.Some? {
      CodesSay([RagInitError]);
    } else if calls.param.Some? {
      CodesSay([QueryParamError]);
    } else {
      match LastAttempt(calls) {
        case TimedOut(_) => CodesSay([AqueryTimeout]);
        case QueryRaised(_) => CodesSay([AqueryError]);
        case Data(chunks) => CheckedHasReasons(chunks, calls.registry);
      }
    }
  }
}
