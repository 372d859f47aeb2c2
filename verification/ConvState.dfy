/**
 Conversation contexts (api/application/services/conv_state.py): the
 insertion-ordered cache of contexts, the funnel, and the pacing of the
 call-to-action hint.
 */
module ConvState {
  import opened Common
  import opened Recency

  const SESSIONS_MAX: nat := 512
  const TTL_SECONDS := 7200

  datatype Funnel = Greet | Qualify | Recommend | Nurture | HandoffDone

  datatype Intent = Legal | OtherIntent | Location | Closure | Funnelled

  /** The part of a context the funnel and the hints work on. */
  datatype Ctx = Ctx(
    state: Funnel, phoneGiven: bool, usefulTurns: nat, lastCtaTurn: Option<nat>,
    ctaShownCount: nat, turn: nat)

  const NEW_CTX := Ctx(Greet, false, 0, None, 0, 0)

  /** Number of hint variants. */
  const CTA_VARIANTS: nat := 3

  // ---------------------------------------------------------------- pure steps

  function Transition(c: Ctx, intent: Intent, newSlot: bool, affordAnswered: bool): Ctx {
    if intent != Funnelled then c.(turn := c.turn + 1)
    else
      var next :=
        if c.state == HandoffDone then HandoffDone
        else if affordAnswered then Recommend
        else if newSlot then (if c.state in [Recommend, Nurture] then Recommend else Qualify)
        else if c.usefulTurns >= 3 && !c.phoneGiven then (if c.state in [Recommend, Nurture] then Nurture else Qualify)
        else c.state;
      c.(state := next, turn := c.turn + 1)
  }

  predicate HintAllowed(c: Ctx, requiresReview: bool) {
    && c.usefulTurns >= 1
    && !c.phoneGiven
    && (c.lastCtaTurn.Some? ==> c.turn - c.lastCtaTurn.value >= 2)
    && !requiresReview
    && c.ctaShownCount < 3
  }

  /** The new context and the index of the hint shown, if any. */
  function MaybeHint(c: Ctx, requiresReview: bool): (Ctx, Option<nat>) {
    if !HintAllowed(c, requiresReview) then (c, None)
    else (c.(ctaShownCount := c.ctaShownCount + 1, lastCtaTurn := Some(c.turn)), Some(c.ctaShownCount % CTA_VARIANTS))
  }

  // ---------------------------------------------------------------- the classes

  class ConvContext {
    const sessionId: string
    var state: Funnel
    var phoneGiven: bool
    var usefulTurns: nat
    var lastCtaTurn: Option<nat>
    var ctaShownCount: nat
    var turn: nat
    var updatedAt: int

    ghost function View(): Ctx
      reads this
    {
      Ctx(state, phoneGiven, usefulTurns, lastCtaTurn, ctaShownCount, turn)
    }

    constructor (sessionId: string, now: int)
      ensures this.sessionId == sessionId && View() == NEW_CTX && updatedAt == now
    {
      this.sessionId := sessionId;
      state, phoneGiven, usefulTurns, lastCtaTurn, ctaShownCount, turn := Greet, false, 0, None, 0, 0;
      updatedAt := now;
    }

    method Advance(intent: Intent, newSlot: bool, affordAnswered: bool, now: int)
      modifies this
      ensures View() == Transition(old(View()), intent, newSlot, affordAnswered) && updatedAt == now
    {
      if intent != Funnelled {
        turn := turn + 1;
        updatedAt := now;
        return;
      }
      var before := state;
      if before == HandoffDone {
        state := HandoffDone;
      } else if affordAnswered {
        state := Recommend;
      } else if newSlot {
        state := if before in [Recommend, Nurture] then Recommend else Qualify;
      } else if usefulTurns >= 3 && !phoneGiven {
        state := if before in [Recommend, Nurture] then Nurture else Qualify;
      }
      turn := turn + 1;
      updatedAt := now;
    }

    method MaybeLeadCtaHint(requiresReview: bool) returns (hint: Option<nat>)
      modifies this
      ensures (View(), hint) == MaybeHint(old(View()), requiresReview) && updatedAt == old(updatedAt)
    {
      if usefulTurns < 1 || phoneGiven {
        return None;
      }
      if lastCtaTurn.Some? && turn - lastCtaTurn.value < 2 {
        return None;
      }
      if requiresReview || ctaShownCount >= 3 {
        return None;
      }
      hint := Some(ctaShownCount % CTA_VARIANTS);
      ctaShownCount := ctaShownCount + 1;
      lastCtaTurn := Some(turn);
    }

    method NoteUsefulTurn()
      modifies this
      ensures View() == old(View()).(usefulTurns := old(usefulTurns) + 1) && updatedAt == old(updatedAt)
    {
      usefulTurns := usefulTurns + 1;
    }

    /** What `mark_phone_given` does to the context it has looked up. */
    method MarkPhone(now: int)
      modifies this
      ensures View() == old(View()).(phoneGiven := true, state := HandoffDone) && updatedAt == now
    {
      phoneGiven := true;
      state := HandoffDone;
      updatedAt := now;
    }
  }

  // ---------------------------------------------------------------- the cache

  /** No two keys share a context. */
  ghost predicate OneEach(entries: map<string, ConvContext>) {
    forall j, k :: j in entries && k in entries && j != k ==> entries[j] != entries[k]
  }

  lemma {:induction false} OneEachAfter(before: map<string, ConvContext>, after: map<string, ConvContext>, key: string)
    requires OneEach(before) && key in after
    requires forall k :: k in after && k != key ==> k in before && after[k] == before[k]
    requires forall k :: k in before && k != key ==> before[k] != after[key]
    ensures OneEach(after)
  {
  }

  /** An insertion-ordered dictionary: `keys` is its order. */
  class ContextCache {
    var keys: seq<string>
    var entries: map<string, ConvContext>
    ghost var history: seq<string>

    ghost predicate Valid()
      reads this
    {
      && (forall k :: k in keys <==> k in entries)
      && Distinct(keys)
      && |keys| <= SESSIONS_MAX
      && OneEach(entries)
      && RecentKeys(history, keys, SESSIONS_MAX)
    }

    constructor ()
      ensures Valid() && history == [] && keys == []
    {
      keys := [];
      entries := map[];
      history := [];
    }

    /** `_LRU.touch`: move an existing key to the end. */
    method Touch(key: string)
      modifies this`keys
      ensures keys == if key in old(keys) then Without(old(keys), key) + [key] else old(keys)
    {
      if key in keys {
        keys := Without(keys, key) + [key];
      }
    }

    /** `_LRU.put`: assignment keeps the place of an existing key; over the limit, the first key goes. */
    method Put(key: string, ctx: ConvContext)
      requires Distinct(keys) && |keys| <= SESSIONS_MAX
      requires forall k :: k in keys <==> k in entries
      modifies this`keys, this`entries
      ensures keys == if key in old(keys) then old(keys)
                      else if |old(keys)| == SESSIONS_MAX then (old(keys) + [key])[1..] else old(keys) + [key]
      ensures forall k :: k in keys <==> k in entries
      ensures key in entries && entries[key] == ctx
      ensures forall k :: k in entries && k != key ==> k in old(entries) && entries[k] == old(entries)[k]
    {
      ghost var before := keys;
      if key !in keys {
        keys := keys + [key];
      }
      entries := entries[key := ctx];
      if |keys| > SESSIONS_MAX {
        var oldest := keys[0];
        assert oldest == before[0] && oldest in before;
        assert oldest !in keys[1..];
        keys := keys[1..];
        entries := entries - {oldest};
        assert keys == before[1..] + [key];
        assert forall k :: k in before <==> k == oldest || k in before[1..];
      }
    }

    /** The access itself: order and entries afterwards. */
    method Access(key: string, now: int, created: int) returns (ctx: ConvContext)
      requires Valid()
      modifies this`keys, this`entries
      ensures keys == Accessed(old(keys), key, SESSIONS_MAX)
      ensures forall k :: k in keys <==> k in entries
      ensures key in entries && entries[key] == ctx && OneEach(entries)
      ensures forall k :: k in entries && k != key ==> k in old(entries) && entries[k] == old(entries)[k]
      ensures if key in old(entries) && now - old(entries)[key].updatedAt <= TTL_SECONDS
              then ctx == old(entries)[key]
              else fresh(ctx) && ctx.sessionId == key && ctx.View() == NEW_CTX && ctx.updatedAt == created
    {
      TouchedThenPut(keys, key, SESSIONS_MAX);
      WithoutFacts(keys, key);
      AccessedFacts(keys, key, SESSIONS_MAX);
      ghost var before, stored := keys, entries;
      Touch(key);
      assert key in before ==> keys == Accessed(before, key, SESSIONS_MAX);
      assert forall k :: k in keys <==> k in before;
      if key in entries && now - entries[key].updatedAt <= TTL_SECONDS {
        ctx := entries[key];
      } else {
        ctx := new ConvContext(key, created);
        Put(key, ctx);
      }
      OneEachAfter(stored, entries, key);
    }

    /**
     `get_context`: the stored context when its key is among the 512 most recent ones
     and it was written in the last two hours, a new one otherwise; and the order
     afterwards is again recency order.
     */
    method GetContext(key: string, now: int, created: int) returns (ctx: ConvContext)
      requires Valid()
      modifies this
      ensures Valid() && history == old(history) + [key]
      ensures key in entries && entries[key] == ctx
      ensures forall k :: k in entries && k != key ==> k in old(entries) && entries[k] == old(entries)[k]
      ensures var hit := key in old(history) && |Later(old(history), key)| < 512;
              if hit && now - old(entries)[key].updatedAt <= 2 * 3600
              then ctx == old(entries)[key]
              else fresh(ctx) && ctx.sessionId == key && ctx.View() == NEW_CTX && ctx.updatedAt == created
    {
      AccessKeepsRecency(history, keys, key, SESSIONS_MAX);
      AccessedFacts(keys, key, SESSIONS_MAX);
      ctx := Access(key, now, created);
      history := history + [key];
    }

    /** `mark_phone_given`: looks the context up, which counts as an access, then marks it. */
    method MarkPhoneGiven(key: string, now: int, created: int, marked: int) returns (ctx: ConvContext)
      requires Valid()
      modifies this, entries.Values
      ensures Valid() && history == old(history) + [key]
      ensures key in entries && entries[key] == ctx
      ensures forall k :: k in entries && k != key ==>
                && k in old(entries) && entries[k] == old(entries)[k]
                && entries[k].View() == old(entries[k].View()) && entries[k].updatedAt == old(entries[k].updatedAt)
      ensures var hit := key in old(history) && |Later(old(history), key)| < 512;
              if hit && now - old(entries[key].updatedAt) <= 2 * 3600
              then ctx == old(entries)[key] && ctx.View() == old(entries[key].View()).(phoneGiven := true, state := HandoffDone)
              else fresh(ctx) && ctx.sessionId == key && ctx.View() == NEW_CTX.(phoneGiven := true, state := HandoffDone)
      ensures ctx.updatedAt == marked
    {
      ctx := GetContext(key, now, created);
      ctx.MarkPhone(marked);
    }
  }
}
