/**
 Where the funnel stands, from the events so far
 (api/application/services/conv_state.py).
 */
module ConvFunnel {
  import opened Common
  import opened ConvState
  import opened ConvRuns

  /** How many of the first `k` events are turns, of whatever intent. */
  function TurnsIn(es: seq<Event>, k: nat): nat
    requires k <= |es|
  {
    if k == 0 then 0 else TurnsIn(es, k - 1) + if es[k - 1].Turn? then 1 else 0
  }

  /** How many of them were useful. */
  function UsefulIn(es: seq<Event>, k: nat): nat
    requires k <= |es|
  {
    if k == 0 then 0 else UsefulIn(es, k - 1) + if es[k - 1] == Useful then 1 else 0
  }

  /** Somebody gave a phone number before event `k`. */
  ghost predicate PhoneBefore(es: seq<Event>, k: nat)
    requires k <= |es|
  {
    exists q :: 0 <= q < k && (es[q] == PhoneGiven || es[q] == SlotUpdate(true))
  }

  /** Turns and useful turns are counted, side-tracks among them. */
  lemma {:induction false} CountersTell(es: seq<Event>, k: nat)
    requires k <= |es|
    ensures CtxAt(es, k).turn == TurnsIn(es, k) && CtxAt(es, k).usefulTurns == UsefulIn(es, k)
  {
    if k > 0 {
      CountersTell(es, k - 1);
    }
  }

  /** A legal, location, closing or other turn leaves the funnel where it is. */
  lemma {:induction false} SideTracksStay(es: seq<Event>, k: nat)
    requires k < |es| && es[k].Turn?
    requires es[k].intent in [Legal, OtherIntent, Location, Closure]
    ensures CtxAt(es, k + 1).state == CtxAt(es, k).state
  {
  }

  /** Where any other turn leads, in this order of precedence. */
  lemma {:induction false} FunnelTable(es: seq<Event>, k: nat)
    requires k < |es| && es[k].Turn? && es[k].intent == Funnelled
    ensures var before, after, e := CtxAt(es, k).state, CtxAt(es, k + 1).state, es[k];
            && (before == HandoffDone ==> after == HandoffDone)
            && (before != HandoffDone && e.affordAnswered ==> after == Recommend)
            && (before != HandoffDone && !e.affordAnswered && e.newSlot ==>
                  after == if before == Greet || before == Qualify then Qualify else Recommend)
            && (before != HandoffDone && !e.affordAnswered && !e.newSlot && UsefulIn(es, k) >= 3 && !PhoneBefore(es, k) ==>
                  after == if before == Greet || before == Qualify then Qualify else Nurture)
            && (before != HandoffDone && !e.affordAnswered && !e.newSlot && (UsefulIn(es, k) < 3 || PhoneBefore(es, k)) ==>
                  after == before)
  {
    CountersTell(es, k);
    GatesRemember(es, k);
  }

  /** What is no turn moves the funnel only to handoff, and that when a lead is stored. */
  lemma {:induction false} OtherEventsStay(es: seq<Event>, k: nat)
    requires k < |es| && !es[k].Turn?
    ensures CtxAt(es, k + 1).state == if es[k] == PhoneGiven then HandoffDone else CtxAt(es, k).state
  {
  }

  /** A conversation is handed off exactly once a lead was stored for it. */
  lemma {:induction false} HandoffExactlyWhen(es: seq<Event>, k: nat)
    requires k <= |es|
    ensures CtxAt(es, k).state == HandoffDone <==> exists q :: 0 <= q < k && es[q] == PhoneGiven
  {
    if k > 0 {
      HandoffExactlyWhen(es, k - 1);
      if es[k - 1] == PhoneGiven {
        assert 0 <= k - 1 < k;
      }
    }
  }

  predicate Answers(e: Event) {
    e.Turn? && e.intent == Funnelled && e.affordAnswered
  }

  /** Nothing is recommended or nurtured before an affordability question was answered. */
  lemma {:induction false} RecommendsAfterAnswer(es: seq<Event>, k: nat)
    requires k <= |es| && CtxAt(es, k).state in [Recommend, Nurture]
    ensures exists q :: 0 <= q < k && Answers(es[q])
  {
    assert k > 0;
    if Answers(es[k - 1]) {
      assert 0 <= k - 1 < k;
    } else {
      RecommendsAfterAnswer(es, k - 1);
    }
  }

  /** And nurturing starts only after three useful turns without a phone number. */
  lemma {:induction false} NurturesAfterThree(es: seq<Event>, k: nat)
    requires k <= |es| && CtxAt(es, k).state == Nurture
    ensures exists q :: 0 <= q < k && es[q].Turn? && UsefulIn(es, q) >= 3 && !PhoneBefore(es, q)
  {
    assert k > 0;
    if CtxAt(es, k - 1).state == Nurture {
      NurturesAfterThree(es, k - 1);
    } else {
      CountersTell(es, k - 1);
      GatesRemember(es, k - 1);
      assert es[k - 1].Turn?;
    }
  }
}
