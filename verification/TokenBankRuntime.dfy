/**
 * The token bank in the source's own form: a registry object and a pool object whose
 * methods loop over maps and arrays. Each method is proved to be one section of module
 * `TokenBank`; `now` is the section's reading of the clock.
 */
module TokenBankRuntime {
  import opened Util
  import opened B = TokenBank

  class CertifyIdRegistry {
    var ttlMs: nat
    var seen: Registry

    constructor (ttlMs: nat)
      ensures this.ttlMs == ttlMs && seen == map[]
    {
      this.ttlMs := ttlMs;
      seen := map[];
    }

    method SetTtlMs(ttlMs: nat)
      modifies `ttlMs
      ensures this.ttlMs == ttlMs
    {
      this.ttlMs := ttlMs;
    }

    method Prune(now: nat)
      modifies `seen
      ensures seen == PruneRegistry(old(seen), now, ttlMs)
    {
      ghost var was := seen;
      var left := seen.Keys;
      while left != {}
        invariant left <= was.Keys
        invariant seen == map id | id in was && (id in left || was[id] >= now - ttlMs) :: was[id]
        decreases |left|
      {
        var id :| id in left;
        if seen[id] < now - ttlMs {
          seen := seen - {id};
        }
        left := left - {id};
      }
    }

    method Has(id: string, now: nat) returns (found: bool)
      modifies `seen
      ensures seen == PruneRegistry(old(seen), now, ttlMs)
      ensures found <==> Recorded(old(seen), id, now, ttlMs)
    {
      Prune(now);
      found := id in seen;
    }

    method Add(id: string, now: nat)
      modifies `seen
      ensures seen == PruneRegistry(old(seen), now, ttlMs)[id := now]
    {
      Prune(now);
      seen := seen[id := now];
    }

    method Clear()
      modifies `seen
      ensures seen == map[]
    {
      seen := map[];
    }
  }

  class CaptchaTokenPool {
    var tokens: seq<Entry>
    var opts: Options
    var effectiveTarget: nat
    var lastTakeAt: nat
    var takeTimestamps: seq<nat>
    const certifyIds: CertifyIdRegistry
    ghost var minted: seq<Param>
    ghost var issues: seq<Issue>

    ghost predicate Valid()
      reads this, certifyIds
    {
      certifyIds.ttlMs == opts.tokenTtlMs
    }

    ghost function State(now: nat): B.State
      reads this, certifyIds
    {
      B.State(now, opts, effectiveTarget, tokens, certifyIds.seen, lastTakeAt, takeTimestamps, minted, issues)
    }

    constructor (now: nat, asked: Options)
      ensures Valid() && fresh(certifyIds) && State(now) == Init(now, asked)
    {
      tokens := [];
      opts := Resolve(asked);
      effectiveTarget := Resolve(asked).poolSizeMin;
      lastTakeAt := now;
      takeTimestamps := [];
      certifyIds := new CertifyIdRegistry(asked.tokenTtlMs);
      minted, issues := [], [];
    }

    method PruneExpired(now: nat)
      modifies `tokens
      ensures tokens == Unexpired(old(tokens), now, opts.tokenTtlMs)
    {
      var kept := [];
      for k := 0 to |tokens|
        invariant tokens == old(tokens)
        invariant kept == Unexpired(tokens[..k], now, opts.tokenTtlMs)
      {
        assert tokens[..k + 1][..k] == tokens[..k];
        if now - tokens[k].cachedAt < opts.tokenTtlMs {
          kept := kept + [tokens[k]];
        }
      }
      assert tokens[..|tokens|] == tokens;
      tokens := kept;
    }

    method PruneTakes(now: nat)
      modifies `takeTimestamps
      ensures takeTimestamps == Since(old(takeTimestamps), now - TAKE_RATE_WINDOW_MS)
    {
      takeTimestamps := Later(takeTimestamps, now - TAKE_RATE_WINDOW_MS);
    }

    method Later(times: seq<nat>, cutoff: int) returns (kept: seq<nat>)
      ensures kept == Since(times, cutoff)
    {
      kept := [];
      for k := 0 to |times|
        invariant kept == Since(times[..k], cutoff)
      {
        assert times[..k + 1][..k] == times[..k];
        if times[k] > cutoff {
          kept := kept + [times[k]];
        }
      }
      assert times[..|times|] == times;
    }

    method Configure(now: nat, asked: Options)
      requires Valid()
      modifies this, certifyIds
      ensures Valid() && State(now) == Step(old(State(now)), B.Configure(asked))
    {
      opts := Resolve(asked);
      certifyIds.SetTtlMs(opts.tokenTtlMs);
      effectiveTarget := Max(opts.poolSizeMin, Min(effectiveTarget, opts.poolSizeMax));
      issues := Shortened(issues, opts.tokenTtlMs);
      TrimTokens(now);
    }

    method TrimTokens(now: nat)
      modifies `tokens
      ensures tokens == Trim(Unexpired(old(tokens), now, opts.tokenTtlMs), effectiveTarget)
    {
      PruneExpired(now);
      var floor := Max(effectiveTarget, 1);
      ghost var all := tokens;
      while |tokens| > floor
        invariant |tokens| <= |all| && tokens == all[|all| - |tokens|..]
        invariant |tokens| >= floor || tokens == all
      {
        tokens := tokens[1..];
      }
    }

    method Invalidate(now: nat)
      requires Valid()
      modifies this, certifyIds
      ensures Valid() && State(now) == Step(old(State(now)), B.Invalidate)
    {
      tokens := [];
      certifyIds.Clear();
      issues := [];
    }

    method MarkParamIssued(param: Param, now: nat)
      requires Valid()
      modifies certifyIds`seen, `issues
      ensures certifyIds.seen == MarkIssued(old(certifyIds.seen), param, now, opts.tokenTtlMs)
      ensures issues == RecordIssue(old(issues), param, now, opts.tokenTtlMs)
    {
      if param.certifyId.Some? {
        certifyIds.Add(param.certifyId.value, now);
        issues := issues + [Issue(param.certifyId.value, now, opts.tokenTtlMs)];
      }
    }

    method TakeFresh(now: nat) returns (param: Option<Param>)
      requires Valid()
      modifies this, certifyIds
      ensures Valid() && State(now) == OnPop(old(State(now))) && param == PopFresh(old(State(now))).param
    {
      PruneExpired(now);
      ghost var goal := Pop(tokens, certifyIds.seen, now, opts.tokenTtlMs);
      while |tokens| > 0
        invariant Valid() && goal == Pop(tokens, certifyIds.seen, now, opts.tokenTtlMs)
        invariant opts == old(opts) && effectiveTarget == old(effectiveTarget) && lastTakeAt == old(lastTakeAt)
        invariant takeTimestamps == old(takeTimestamps) && minted == old(minted) && issues == old(issues)
      {
        var entry := tokens[|tokens| - 1];
        tokens := tokens[..|tokens| - 1];
        if entry.param.certifyId.Some? {
          var used := certifyIds.Has(entry.param.certifyId.value, now);
          if used {
            continue;
          }
        }
        MarkParamIssued(entry.param, now);
        return Some(entry.param);
      }
      param := None;
    }

    method PoolHasCertifyId(id: string) returns (found: bool)
      ensures found <==> Banked(tokens, id)
    {
      for k := 0 to |tokens|
        invariant forall i :: 0 <= i < k ==> tokens[i].param.certifyId != Some(id)
      {
        if tokens[k].param.certifyId == Some(id) {
          return true;
        }
      }
      found := false;
    }

    /** `isDuplicateParam`. */
    method CheckDuplicate(param: Param, now: nat) returns (duplicate: bool)
      requires Valid()
      modifies certifyIds`seen
      ensures duplicate <==> IsDuplicate(old(State(now)), tokens, param)
      ensures certifyIds.seen == Asked(old(State(now)), param)
    {
      if param.certifyId.None? {
        return false;
      }
      duplicate := certifyIds.Has(param.certifyId.value, now);
      if !duplicate {
        duplicate := PoolHasCertifyId(param.certifyId.value);
      }
    }

    method Push(param: Param, now: nat)
      requires Valid()
      modifies this, certifyIds
      ensures Valid() && State(now) == PushToken(old(State(now)), param)
    {
      PruneExpired(now);
      if |tokens| >= effectiveTarget {
        return;
      }
      var duplicate := CheckDuplicate(param, now);
      if duplicate {
        return;
      }
      tokens := tokens + [Entry(param, now)];
    }

    method Floor(now: nat) returns (floor: nat)
      ensures floor == CurrentFloor(State(now))
    {
      if lastTakeAt == 0 {
        return opts.poolSizeMin;
      }
      var idleMs := now - lastTakeAt;
      if idleMs >= opts.deepIdleAfterMs {
        return 0;
      }
      if idleMs >= opts.scaleDownIdleMs {
        return Min(opts.idleFloor, opts.poolSizeMin);
      }
      floor := opts.poolSizeMin;
    }

    method ComputeActiveTarget(now: nat, governorMax: Option<nat>) returns (target: nat)
      modifies `takeTimestamps
      ensures State(now) == PruneTakeWindow(old(State(now))) && target == ActiveTarget(old(State(now)), governorMax)
    {
      PruneTakes(now);
      var takes := |takeTimestamps|;
      var raw := opts.poolSizeMin;
      if takes != 0 {
        var demand := Demand(takes, opts.tokenTtlMs);
        raw := CeilDiv(Max(demand, opts.poolSizeMin) * 5, 4) + 1;
      }
      var cap := governorMax.GetOr(opts.poolSizeMax);
      var floor := Floor(now);
      target := Max(floor, Min(opts.poolSizeMax, Min(cap, raw)));
    }

    method NoteTaken(now: nat)
      modifies this
      ensures State(now) == OnTokenTaken(old(State(now)))
    {
      lastTakeAt := now;
      takeTimestamps := takeTimestamps + [now];
      PruneTakes(now);
      if effectiveTarget < opts.poolSizeMin {
        effectiveTarget := opts.poolSizeMin;
      }
    }

    /** `takeToken` up to its first await: a banked token, or a resized target. */
    method TakeToken(now: nat, governorMax: Option<nat>, storm: bool) returns (token: Option<Param>)
      requires Valid()
      modifies this, certifyIds
      ensures Valid() && State(now) == OnTake(old(State(now)), governorMax, storm)
      ensures token == PopFresh(old(State(now))).param
    {
      hide PopFresh, OnPop, ActiveTarget, Since;
      token := TakeFresh(now);
      NoteTaken(now);
      if token.Some? || storm {
        return;
      }
      var target := ComputeActiveTarget(now, governorMax);
      effectiveTarget := Max(effectiveTarget, target);
    }

    /** The mint of an empty take: checked, then marked and served. */
    method SolveServed(now: nat, param: Param) returns (usable: bool)
      requires Valid()
      modifies this, certifyIds
      ensures Valid() && State(now) == Step(old(State(now)), MintServed(param))
      ensures usable <==> !IsDuplicate(old(State(now)), old(tokens), param)
    {
      var duplicate := CheckDuplicate(param, now);
      usable := !duplicate;
      if usable {
        MarkParamIssued(param, now);
      }
    }

    /** The mint of a refill: the duplicate check, in its own section. */
    method SolveReturned(now: nat, param: Param) returns (usable: bool)
      requires Valid()
      modifies this, certifyIds
      ensures Valid() && State(now) == Step(old(State(now)), MintReturned(param))
      ensures usable <==> minted == old(minted) + [param]
    {
      var duplicate := CheckDuplicate(param, now);
      usable := !duplicate;
      if usable {
        minted := minted + [param];
      }
    }

    /** A checked mint reaches the refill that asked for it. */
    method BankMint(now: nat, k: nat, param: Param)
      requires Valid() && k < |minted| && minted[k] == param
      modifies this, certifyIds
      ensures Valid() && State(now) == Step(old(State(now)), BankMinted(k))
    {
      minted := minted[..k] + minted[k + 1..];
      Push(param, now);
    }

    method ScaleDown(now: nat)
      modifies this
      ensures State(now) == MaybeScaleDown(old(State(now)))
    {
      hide Since, CurrentFloor, Trim, Unexpired;
      if lastTakeAt == 0 || now - lastTakeAt < opts.scaleDownIdleMs {
        return;
      }
      PruneTakes(now);
      var recent := Later(takeTimestamps, now - RECENT_TAKES_MS);
      if |recent| > 1 {
        return;
      }
      var floor := Floor(now);
      if effectiveTarget > floor {
        effectiveTarget := Max(floor, effectiveTarget - SCALE_UP_STEP);
        TrimTokens(now);
      }
    }

    /** The sizing half of `refill`, before its in-flight guard. */
    method RefillSize(now: nat, governorMax: Option<nat>)
      modifies this
      ensures State(now) == Step(old(State(now)), RefillSizing(governorMax))
    {
      hide MaybeScaleDown, ActiveTarget;
      if lastTakeAt > 0 && now - lastTakeAt >= opts.scaleDownIdleMs {
        ScaleDown(now);
      } else {
        effectiveTarget := ComputeActiveTarget(now, governorMax);
      }
    }

    method ApplyGovernorCaps(now: nat, governorMax: nat)
      modifies this
      ensures State(now) == Step(old(State(now)), GovernorCap(governorMax))
    {
      var floor := Floor(now);
      effectiveTarget := Max(floor, Min(effectiveTarget, Min(governorMax, opts.poolSizeMax)));
    }
  }
}
