/**
 Whole runs of one conversation context: the funnel never goes back, and the
 call-to-action hints are paced as promised
 (api/application/services/conv_state.py).
 */
module ConvRuns {
  import opened Common
  import opened ConvState

  /** What can happen to a context. A slot update may set the phone flag but never clears it. */
  datatype Event =
    | Turn(intent: Intent, newSlot: bool, affordAnswered: bool)
    | AskHint(requiresReview: bool)
    | Useful
    | PhoneGiven
    | SlotUpdate(phone: bool)

  function Step(c: Ctx, e: Event): Ctx {
    match e
    case Turn(intent, newSlot, afford) => Transition(c, intent, newSlot, afford)
    case AskHint(review) => MaybeHint(c, review).0
    case Useful => c.(usefulTurns := c.usefulTurns + 1)
    case PhoneGiven => c.(phoneGiven := true, state := HandoffDone)
    case SlotUpdate(phone) => c.(phoneGiven := c.phoneGiven || phone)
  }

  /** The context after the first `k` events of its life. */
  function CtxAt(es: seq<Event>, k: nat): Ctx
    requires k <= |es|
  {
    if k == 0 then NEW_CTX else Step(CtxAt(es, k - 1), es[k - 1])
  }

  /** The hint shown by event `k`, if it shows one. */
  function HintAt(es: seq<Event>, k: nat): Option<nat>
    requires k < |es|
  {
    if es[k].AskHint? then MaybeHint(CtxAt(es, k), es[k].requiresReview).1 else None
  }

  datatype Shown = Shown(variant: nat, turn: nat)

  /** All hints shown by the first `k` events, with the turn they were shown in. */
  function Hints(es: seq<Event>, k: nat): seq<Shown>
    requires k <= |es|
  {
    if k == 0 then []
    else Hints(es, k - 1)
         + match HintAt(es, k - 1)
           case Some(v) => [Shown(v, CtxAt(es, k - 1).turn)]
           case None => []
  }

  function Rank(s: Funnel): nat {
    match s
    case Greet => 0
    case Qualify => 1
    case Recommend => 2
    case Nurture => 2
    case HandoffDone => 3
  }

  /** From handoff on only handoff; recommend and nurture may alternate; nothing falls back. */
  lemma {:induction false} FunnelNeverFalls(es: seq<Event>, i: nat, j: nat)
    requires i <= j <= |es|
    ensures Rank(CtxAt(es, i).state) <= Rank(CtxAt(es, j).state)
    ensures CtxAt(es, i).state == HandoffDone ==> CtxAt(es, j).state == HandoffDone
  {
    if i < j {
      FunnelNeverFalls(es, i, j - 1);
    }
  }

  ghost predicate Paced(hints: seq<Shown>, c: Ctx) {
    && |hints| == c.ctaShownCount <= 3
    && (forall i :: 0 <= i < |hints| ==> hints[i].variant == i)
    && (forall i :: 0 <= i < |hints| ==> hints[i].turn <= c.turn)
    && (forall i :: 0 < i < |hints| ==> hints[i].turn >= hints[i - 1].turn + 2)
    && (c.lastCtaTurn == if hints == [] then None else Some(hints[|hints| - 1].turn))
  }

  lemma {:induction false} QuietStepKeepsPace(hints: seq<Shown>, c: Ctx, e: Event)
    requires Paced(hints, c) && (e.AskHint? ==> MaybeHint(c, e.requiresReview).1.None?)
    ensures Paced(hints, Step(c, e))
  {
  }

  lemma {:induction false} HintKeepsPace(hints: seq<Shown>, c: Ctx, requiresReview: bool)
    requires Paced(hints, c) && MaybeHint(c, requiresReview).1.Some?
    ensures Paced(hints + [Shown(MaybeHint(c, requiresReview).1.value, c.turn)], MaybeHint(c, requiresReview).0)
  {
  }

  lemma {:induction false} PacedAt(es: seq<Event>, k: nat)
    requires k <= |es|
    ensures Paced(Hints(es, k), CtxAt(es, k))
  {
    if k > 0 {
      PacedAt(es, k - 1);
      var c, e := CtxAt(es, k - 1), es[k - 1];
      if HintAt(es, k - 1).Some? {
        HintKeepsPace(Hints(es, k - 1), c, e.requiresReview);
      } else {
        QuietStepKeepsPace(Hints(es, k - 1), c, e);
      }
    }
  }

  /** What the two gates of a context know about its past. */
  lemma {:induction false} GatesRemember(es: seq<Event>, k: nat)
    requires k <= |es|
    ensures CtxAt(es, k).usefulTurns >= 1 <==> exists q :: 0 <= q < k && es[q] == Useful
    ensures CtxAt(es, k).phoneGiven <==> exists q :: 0 <= q < k && (es[q] == PhoneGiven || es[q] == SlotUpdate(true))
  {
    if k > 0 {
      GatesRemember(es, k - 1);
      var e := es[k - 1];
      if e == Useful || e == PhoneGiven || e == SlotUpdate(true) {
        assert 0 <= k - 1 < k;
      }
    }
  }

  /**
   In every run of one context: at most three hints, the variants in order, at
   least two turns apart; none before a useful turn, none after the phone number
   was given, none while the last answer needs review.
   */
  lemma {:induction false} HintsArePaced(es: seq<Event>, k: nat)
    requires k < |es|
    ensures var h := Hints(es, |es|);
            && |h| <= CTA_VARIANTS
            && (forall i :: 0 <= i < |h| ==> h[i].variant == i)
            && (forall i :: 0 < i < |h| ==> h[i].turn >= h[i - 1].turn + 2)
    ensures HintAt(es, k).Some? ==>
              && (exists q :: 0 <= q < k && es[q] == Useful)
              && (forall q :: 0 <= q < k ==> es[q] != PhoneGiven && es[q] != SlotUpdate(true))
              && es[k] == AskHint(false)
  {
    PacedAt(es, |es|);
    GatesRemember(es, k);
  }

  /** Conversely, with the gates open a hint is shown: exactly the promised conditions decide. */
  lemma {:induction false} HintShownExactlyWhen(es: seq<Event>, k: nat)
    requires k < |es| && es[k].AskHint?
    ensures HintAt(es, k).Some? <==>
              && !es[k].requiresReview
              && (exists q :: 0 <= q < k && es[q] == Useful)
              && (forall q :: 0 <= q < k ==> es[q] != PhoneGiven && es[q] != SlotUpdate(true))
              && |Hints(es, k)| < 3
              && (Hints(es, k) != [] ==> CtxAt(es, k).turn >= Hints(es, k)[|Hints(es, k)| - 1].turn + 2)
  {
    PacedAt(es, k);
    GatesRemember(es, k);
  }
}
