/**
 * What every section of the captcha token bank (proxy/captcha-pool.ts:44-76, 138-196, 249-309,
 * 335-534) does, each with its exact condition, and how large the bank is meant to be.
 */
module TokenBankDecisions {
  import opened Util
  import opened TokenBank

  // ---------------------------------------------------------------------------
  // Bank and registry
  // ---------------------------------------------------------------------------

  /** The tokens younger than the lifetime, read from the oldest on. */
  function Young(tokens: seq<Entry>, now: nat, ttl: nat): seq<Entry> {
    if tokens == [] then []
    else (if now - tokens[0].cachedAt < ttl then [tokens[0]] else []) + Young(tokens[1..], now, ttl)
  }

  lemma {:induction false} YoungSnoc(tokens: seq<Entry>, last: Entry, now: nat, ttl: nat)
    ensures Young(tokens + [last], now, ttl) == Young(tokens, now, ttl) + (if now - last.cachedAt < ttl then [last] else [])
  {
    if tokens == [] {
      assert [last][1..] == [] && tokens + [last] == [last];
    } else {
      assert (tokens + [last])[1..] == tokens[1..] + [last] && (tokens + [last])[0] == tokens[0];
      YoungSnoc(tokens[1..], last, now, ttl);
    }
  }

  lemma {:induction false} UnexpiredIsYoung(tokens: seq<Entry>, now: nat, ttl: nat)
    ensures Unexpired(tokens, now, ttl) == Young(tokens, now, ttl)
  {
    if tokens == [] {
    } else {
      UnexpiredIsYoung(tokens[..|tokens| - 1], now, ttl);
      YoungSnoc(tokens[..|tokens| - 1], tokens[|tokens| - 1], now, ttl);
      assert tokens[..|tokens| - 1] + [tokens[|tokens| - 1]] == tokens;
    }
  }

  /** The mint carries an id that was handed out within the lifetime, or that a token of the bank carries. */
  predicate IsKnown(s: State, tokens: seq<Entry>, param: Param) {
    param.certifyId.Some?
    && var id := param.certifyId.value;
       || (id in s.registry && s.registry[id] + s.opts.tokenTtlMs >= s.now)
       || exists k :: 0 <= k < |tokens| && tokens[k].param.certifyId == Some(id)
  }

  /** The same ids count as handed out. */
  ghost predicate SameRecord(s: State, t: State) {
    forall id :: Recorded(t.registry, id, s.now, s.opts.tokenTtlMs) <==> Recorded(s.registry, id, s.now, s.opts.tokenTtlMs)
  }

  /** No id is kept beyond its lifetime. */
  ghost predicate HoldsNothingOld(t: State) {
    forall id :: id in t.registry ==> t.registry[id] + t.opts.tokenTtlMs >= t.now
  }

  /** An id counts as handed out for exactly the lifetime after it was marked. */
  lemma RecordedIff(r: Registry, id: string, now: nat, ttl: nat)
    ensures Recorded(r, id, now, ttl) <==> id in r && now <= r[id] + ttl
  {
  }

  /** A mint for a waiting request is handed out, and its id marked now, exactly if it is not known. */
  lemma ServingDecides(s: State, param: Param)
    ensures var t := Step(s, MintServed(param));
            && t.tokens == s.tokens && t.effectiveTarget == s.effectiveTarget && t.opts == s.opts && t.minted == s.minted
            && t.lastTakeAt == s.lastTakeAt && t.takeTimestamps == s.takeTimestamps
            && (param.certifyId.Some? ==> HoldsNothingOld(t))
            && if IsKnown(s, s.tokens, param) then t.issues == s.issues && SameRecord(s, t)
               else match param.certifyId
                    case None => t.issues == s.issues && t.registry == s.registry
                    case Some(id) =>
                      && t.issues == s.issues + [Issue(id, s.now, s.opts.tokenTtlMs)]
                      && id in t.registry && t.registry[id] == s.now
                      && forall other :: other != id ==>
                           (Recorded(t.registry, other, s.now, s.opts.tokenTtlMs) <==> Recorded(s.registry, other, s.now, s.opts.tokenTtlMs))
  {
  }

  /** A mint of a refill wave waits to be banked exactly if it is not known. */
  lemma ReturningDecides(s: State, param: Param)
    ensures var t := Step(s, MintReturned(param));
            && t == s.(registry := t.registry, minted := if IsKnown(s, s.tokens, param) then s.minted else s.minted + [param])
            && SameRecord(s, t) && (param.certifyId.Some? ==> HoldsNothingOld(t))
  {
  }

  /** It is banked, with this moment as its age, exactly if the bank is below its target and it is still not known. */
  lemma BankingDecides(s: State, k: nat)
    requires k < |s.minted|
    ensures var t := Step(s, BankMinted(k));
            var param, young := s.minted[k], Young(s.tokens, s.now, s.opts.tokenTtlMs);
            && t.minted == s.minted[..k] + s.minted[k + 1..] && t.issues == s.issues && t.effectiveTarget == s.effectiveTarget && SameRecord(s, t)
            && (param.certifyId.Some? && |young| < s.effectiveTarget ==> HoldsNothingOld(t))
            && t.tokens == if |young| < s.effectiveTarget && !IsKnown(s, young, param) then young + [Entry(param, s.now)] else young
  {
    UnexpiredIsYoung(s.tokens, s.now, s.opts.tokenTtlMs);
    hide Unexpired, Young;
  }

  /** Invalidation forgets tokens and ids, and nothing else. */
  lemma InvalidationForgets(s: State)
    ensures Step(s, Invalidate) == s.(tokens := [], registry := map[], issues := [])
  {
  }

  /** A pop hands out the newest young token whose id is not recorded and drops the newer ones; its id is then recorded. */
  lemma PopDecides(s: State, p: Popped)
    requires p == PopFresh(s)
    ensures var young := Young(s.tokens, s.now, s.opts.tokenTtlMs);
            && p.tokens <= young
            && (p.param.Some? ==> |p.tokens| < |young| && p.param.value == young[|p.tokens|].param && !RecordedId(s, p.param.value))
            && (p.param.None? ==> p.tokens == [])
            && (forall k :: |p.tokens| + (if p.param.Some? then 1 else 0) <= k < |young| ==> RecordedId(s, young[k].param))
            && Step(s, GracePop) == s.(tokens := p.tokens, registry := p.registry, issues := Step(s, GracePop).issues)
            && Step(s, GracePop).issues ==
                 (if p.param.Some? && p.param.value.certifyId.Some?
                  then s.issues + [Issue(p.param.value.certifyId.value, s.now, s.opts.tokenTtlMs)] else s.issues)
            && (p.param.Some? && p.param.value.certifyId.Some? ==> Recorded(p.registry, p.param.value.certifyId.value, s.now, s.opts.tokenTtlMs))
  {
    UnexpiredIsYoung(s.tokens, s.now, s.opts.tokenTtlMs);
    PopFacts(Unexpired(s.tokens, s.now, s.opts.tokenTtlMs), s.registry, s.now, s.opts.tokenTtlMs);
    hide Unexpired, Young, Pop;
  }

  predicate RecordedId(s: State, param: Param) {
    param.certifyId.Some? && param.certifyId.value in s.registry && s.registry[param.certifyId.value] + s.opts.tokenTtlMs >= s.now
  }

  // ---------------------------------------------------------------------------
  // How large the bank is meant to be
  // ---------------------------------------------------------------------------

  /** How many of the takes are less than this old. */
  function TakesWithin(times: seq<nat>, now: nat, age: nat): nat {
    if times == [] then 0
    else TakesWithin(times[..|times| - 1], now, age) + (if now < times[|times| - 1] + age then 1 else 0)
  }

  lemma {:induction false} SinceCounts(times: seq<nat>, now: nat, age: nat)
    ensures |Since(times, now - age)| == TakesWithin(times, now, age)
  {
    if times == [] {
    } else {
      SinceCounts(times[..|times| - 1], now, age);
    }
  }

  /** The floor: the minimum until the first take and soon after one, the idle floor after a while, nothing after long. */
  lemma FloorIs(s: State)
    ensures CurrentFloor(s) ==
              if s.lastTakeAt == 0 || s.now < s.lastTakeAt + (if s.opts.deepIdleAfterMs < s.opts.scaleDownIdleMs then s.opts.deepIdleAfterMs else s.opts.scaleDownIdleMs)
              then s.opts.poolSizeMin
              else if s.now >= s.lastTakeAt + s.opts.deepIdleAfterMs then 0
              else if s.opts.idleFloor < s.opts.poolSizeMin then s.opts.idleFloor else s.opts.poolSizeMin
  {
  }

  /** The least number that is not below `a / b`. */
  predicate IsCeiling(c: nat, a: nat, b: nat) {
    c * b >= a && (c > 0 ==> (c - 1) * b < a)
  }

  lemma CeilDivIs(a: nat, b: nat)
    requires b > 0
    ensures IsCeiling(CeilDiv(a, b), a, b)
  {
    var q, r := (a + b - 1) / b, (a + b - 1) % b;
    assert a + b - 1 == q * b + r;
    assert (q - 1) * b == q * b - b;
  }

  /**
   * The target: with no take in two minutes the minimum; else a quarter more than what the
   * takes of two minutes would use up in a lifetime and a quarter, or than the minimum, and
   * one; but at most the maximum and the governor's, and at least the floor.
   */
  lemma TargetIs(s: State, governorMax: Option<nat>) returns (demand: nat, widened: nat)
    ensures var takes := TakesWithin(s.takeTimestamps, s.now, 120_000);
            var most := if governorMax.Some? && governorMax.value < s.opts.poolSizeMax then governorMax.value else s.opts.poolSizeMax;
            && IsCeiling(demand, takes * s.opts.tokenTtlMs * 5, 480_000)
            && IsCeiling(widened, (if demand > s.opts.poolSizeMin then demand else s.opts.poolSizeMin) * 5, 4)
            && var wanted := if takes == 0 then s.opts.poolSizeMin else widened + 1;
               var capped := if wanted < most then wanted else most;
               ActiveTarget(s, governorMax) == if capped > CurrentFloor(s) then capped else CurrentFloor(s)
  {
    SinceCounts(s.takeTimestamps, s.now, 120_000);
    demand := Demand(TakesWithin(s.takeTimestamps, s.now, 120_000), s.opts.tokenTtlMs);
    widened := CeilDiv((if demand > s.opts.poolSizeMin then demand else s.opts.poolSizeMin) * 5, 4);
    CeilDivIs(TakesWithin(s.takeTimestamps, s.now, 120_000) * s.opts.tokenTtlMs * 5, 480_000);
    CeilDivIs((if demand > s.opts.poolSizeMin then demand else s.opts.poolSizeMin) * 5, 4);
    hide Since, CeilDiv, CurrentFloor, TakesWithin;
  }

  /** The newest tokens up to the target, one at least. */
  function Newest(tokens: seq<Entry>, target: nat): seq<Entry> {
    if target == 0 && |tokens| > 0 then [tokens[|tokens| - 1]]
    else if |tokens| > target then tokens[|tokens| - target..]
    else tokens
  }

  /** New limits are made consistent, the target is moved between them, and the bank is trimmed to it. */
  lemma ConfiguringDecides(s: State, asked: Options)
    ensures var t := Step(s, Configure(asked));
            var least := if asked.poolSizeMin < asked.poolSizeMax then asked.poolSizeMin else asked.poolSizeMax;
            var upper := if s.effectiveTarget < asked.poolSizeMax then s.effectiveTarget else asked.poolSizeMax;
            && t.opts == Options(least, asked.poolSizeMax, if asked.idleFloor < least then asked.idleFloor else least,
                                 if asked.deepIdleAfterMs > asked.scaleDownIdleMs then asked.deepIdleAfterMs else asked.scaleDownIdleMs,
                                 asked.scaleDownIdleMs, asked.tokenTtlMs)
            && t.effectiveTarget == (if upper > least then upper else least)
            && t.tokens == Newest(Young(s.tokens, s.now, asked.tokenTtlMs), t.effectiveTarget)
            && t.registry == s.registry && t.lastTakeAt == s.lastTakeAt && t.takeTimestamps == s.takeTimestamps && t.minted == s.minted
  {
    UnexpiredIsYoung(s.tokens, s.now, asked.tokenTtlMs);
    hide Unexpired, Young;
  }

  lemma {:induction false} SinceKeeps(times: seq<nat>, now: nat, later: nat, age: nat)
    requires now <= later
    ensures TakesWithin(Since(times, now - 120_000), later, 120_000) == TakesWithin(times, later, 120_000)
    ensures age <= 120_000 ==> TakesWithin(Since(times, now - 120_000), later, age) == TakesWithin(times, later, age)
  {
    if times == [] {
    } else {
      var before, last := times[..|times| - 1], times[|times| - 1];
      SinceKeeps(before, now, later, age);
      var kept := Since(before, now - 120_000);
      if last > now - 120_000 {
        assert (kept + [last])[..|kept|] == kept;
      }
      assert kept + [] == kept;
    }
  }

  lemma TakenOnce(times: seq<nat>, now: nat, age: nat)
    requires age > 0
    ensures TakesWithin(times + [now], now, age) == TakesWithin(times, now, age) + 1
  {
    assert (times + [now])[..|times|] == times;
  }

  /**
   * A take stamps the clock, counts itself, and raises the target to the minimum; one that
   * finds nothing raises it to what the demand asks for, unless a storm is on.
   */
  lemma TakeDecides(s: State, governorMax: Option<nat>, storm: bool)
    ensures var t := Step(s, Take(governorMax, storm));
            var popped := Step(s, GracePop);
            var least := if s.effectiveTarget > s.opts.poolSizeMin then s.effectiveTarget else s.opts.poolSizeMin;
            && t.tokens == popped.tokens && t.registry == popped.registry && t.issues == popped.issues && t.opts == s.opts && t.minted == s.minted
            && t.lastTakeAt == s.now
            && TakesWithin(t.takeTimestamps, s.now, 120_000) == TakesWithin(s.takeTimestamps, s.now, 120_000) + 1
            && TakesWithin(t.takeTimestamps, s.now, 60_000) == TakesWithin(s.takeTimestamps, s.now, 60_000) + 1
            && t.effectiveTarget ==
                 if PopFresh(s).param.Some? || storm || ActiveTarget(t, governorMax) <= least then least else ActiveTarget(t, governorMax)
  {
    var taken, t := OnTokenTaken(OnPop(s)), Step(s, Take(governorMax, storm));
    TakenTimes(s.takeTimestamps, s.now);
    TargetIgnoresPruning(taken, t.effectiveTarget, governorMax);
    TargetIgnores(taken, t.effectiveTarget, governorMax);
    hide PopFresh, Since, TakesWithin, ActiveTarget;
  }

  lemma TakenTimes(times: seq<nat>, now: nat)
    ensures var once := Since(times + [now], now - 120_000);
            && TakesWithin(once, now, 120_000) == TakesWithin(times, now, 120_000) + 1
            && TakesWithin(once, now, 60_000) == TakesWithin(times, now, 60_000) + 1
            && Since(once, now - 120_000) == once
  {
    TakenOnce(times, now, 120_000);
    TakenOnce(times, now, 60_000);
    SinceKeeps(times + [now], now, now, 60_000);
    SinceSince(times + [now], now - 120_000, now - 120_000);
    hide Since, TakesWithin;
  }

  lemma TargetIgnoresPruning(s: State, effectiveTarget: nat, governorMax: Option<nat>)
    ensures ActiveTarget(PruneTakeWindow(s).(effectiveTarget := effectiveTarget), governorMax) == ActiveTarget(s, governorMax)
  {
    SinceSince(s.takeTimestamps, s.now - 120_000, s.now - 120_000);
    hide Since, CeilDiv, Demand;
  }

  lemma TargetIgnores(s: State, effectiveTarget: nat, governorMax: Option<nat>)
    ensures ActiveTarget(s.(effectiveTarget := effectiveTarget), governorMax) == ActiveTarget(s, governorMax)
  {
    hide Since, CeilDiv, Demand;
  }

  lemma TrimIsNewest(s: State)
    ensures TrimToTarget(s) == s.(tokens := Newest(Young(s.tokens, s.now, s.opts.tokenTtlMs), s.effectiveTarget))
  {
    UnexpiredIsYoung(s.tokens, s.now, s.opts.tokenTtlMs);
    hide Unexpired, Young;
  }

  /**
   * Scaling down after the idle time: the target falls by twenty, down to the floor, and the
   * bank is trimmed to it, unless two takes came in the last minute.
   */
  lemma ScaleDownDecides(s: State)
    requires s.lastTakeAt > 0 && s.now >= s.lastTakeAt + s.opts.scaleDownIdleMs
    ensures var t := MaybeScaleDown(s);
            var lowered := if s.effectiveTarget < CurrentFloor(s) + 20 then CurrentFloor(s) else s.effectiveTarget - 20;
            if TakesWithin(s.takeTimestamps, s.now, 60_000) >= 2 || s.effectiveTarget <= CurrentFloor(s) then t == PruneTakeWindow(s)
            else t == PruneTakeWindow(s).(effectiveTarget := lowered, tokens := Newest(Young(s.tokens, s.now, s.opts.tokenTtlMs), lowered))
  {
    var p := PruneTakeWindow(s);
    SinceKeeps(s.takeTimestamps, s.now, s.now, 60_000);
    SinceCounts(p.takeTimestamps, s.now, 60_000);
    TrimIsNewest(p.(effectiveTarget := if s.effectiveTarget < CurrentFloor(s) + 20 then CurrentFloor(s) else s.effectiveTarget - 20));
    hide Young, Since, TakesWithin, TrimToTarget, Newest;
  }

  /** A refill tick while takes come in sets the target to what the demand asks for; after the idle time it scales down. */
  lemma RefillDecides(s: State, governorMax: Option<nat>)
    ensures var t := Step(s, RefillSizing(governorMax));
            && t.opts == s.opts && t.registry == s.registry && t.issues == s.issues && t.minted == s.minted && t.lastTakeAt == s.lastTakeAt
            && TakesWithin(t.takeTimestamps, s.now, 120_000) == TakesWithin(s.takeTimestamps, s.now, 120_000)
            && if s.lastTakeAt == 0 || s.now < s.lastTakeAt + s.opts.scaleDownIdleMs
               then t.effectiveTarget == ActiveTarget(s, governorMax) && t.tokens == s.tokens
               else if TakesWithin(s.takeTimestamps, s.now, 60_000) >= 2 || s.effectiveTarget <= CurrentFloor(s)
               then t.effectiveTarget == s.effectiveTarget && t.tokens == s.tokens
               else
                 && t.effectiveTarget == (if s.effectiveTarget < CurrentFloor(s) + 20 then CurrentFloor(s) else s.effectiveTarget - 20)
                 && t.tokens == Newest(Young(s.tokens, s.now, s.opts.tokenTtlMs), t.effectiveTarget)
  {
    SinceKeeps(s.takeTimestamps, s.now, s.now, 60_000);
    TargetIgnoresPruning(s, s.effectiveTarget, governorMax);
    TargetIgnores(PruneTakeWindow(s), s.effectiveTarget, governorMax);
    if s.lastTakeAt > 0 && s.now >= s.lastTakeAt + s.opts.scaleDownIdleMs {
      ScaleDownDecides(s);
    }
    hide Young, Since, TakesWithin, ActiveTarget, MaybeScaleDown, CurrentFloor, Newest;
  }

  /** The governor's cap lowers the target at once, but not below the floor. */
  lemma CapDecides(s: State, cap: nat)
    ensures var t := Step(s, GovernorCap(cap));
            var most := if cap < s.opts.poolSizeMax then cap else s.opts.poolSizeMax;
            var lowered := if s.effectiveTarget < most then s.effectiveTarget else most;
            t == s.(effectiveTarget := if lowered > CurrentFloor(s) then lowered else CurrentFloor(s))
  {
  }

  /** The bank starts empty, with the minimum as its target. */
  lemma StartsEmpty(now: nat, asked: Options)
    ensures var s := Init(now, asked);
            && s.tokens == [] && s.registry == map[] && s.minted == [] && s.issues == [] && s.takeTimestamps == [] && s.lastTakeAt == now
            && s.effectiveTarget == (if asked.poolSizeMin < asked.poolSizeMax then asked.poolSizeMin else asked.poolSizeMax)
  {
  }

  /** The clock never goes back, and time changes nothing else. */
  lemma TimePasses(s: State, to: nat)
    ensures Step(s, Tick(to)) == s.(now := if to > s.now then to else s.now)
  {
  }
}
