/**
 * The captcha token bank (proxy/captcha-pool.ts:44-76, 138-196, 225-229, 249-309, 335-534):
 * banked tokens, the registry of certify ids already handed out, and the sizing of the bank.
 * One event is one run-to-completion section; the clock is read once in a section.
 */
module TokenBank {
  import opened Util

  const SCALE_UP_STEP: nat := 20
  const TAKE_RATE_WINDOW_MS: nat := 120000
  const RECENT_TAKES_MS: nat := 60000

  /** A minted parameter; the certify id is what `parseCertifyId` reads out of it. */
  datatype Param = Param(text: string, certifyId: Option<string>)

  datatype Entry = Entry(param: Param, cachedAt: nat)

  type Registry = map<string, nat>

  datatype Options = Options(
    poolSizeMin: nat, poolSizeMax: nat, idleFloor: nat,
    deepIdleAfterMs: nat, scaleDownIdleMs: nat, tokenTtlMs: nat)
  {
    predicate Resolved() {
      poolSizeMin <= poolSizeMax && idleFloor <= poolSizeMin && scaleDownIdleMs <= deepIdleAfterMs
    }
  }

  /** `resolvePoolOpts`: limits are made consistent whatever was asked for. */
  function Resolve(asked: Options): (r: Options)
    ensures r.Resolved() && r.poolSizeMax == asked.poolSizeMax
  {
    var least := Min(asked.poolSizeMin, asked.poolSizeMax);
    asked.(poolSizeMin := least,
           idleFloor := Min(asked.idleFloor, least),
           deepIdleAfterMs := Max(asked.deepIdleAfterMs, asked.scaleDownIdleMs))
  }

  /** A certify id handed to a request, when, and the shortest token lifetime in force since. */
  datatype Issue = Issue(id: string, at: nat, ttl: nat)

  datatype State = State(
    now: nat,
    opts: Options,
    effectiveTarget: nat,
    tokens: seq<Entry>,
    registry: Registry,
    lastTakeAt: nat,
    takeTimestamps: seq<nat>,
    /** Mints that passed the duplicate check and wait for the rest of their refill wave. */
    minted: seq<Param>,
    /** Ids issued since the last `invalidate`. */
    issues: seq<Issue>)

  datatype Event =
    | Tick(to: nat)
    | Configure(asked: Options)
    | Invalidate
    | Take(governorMax: Option<nat>, storm: bool)
    | GracePop
    | MintServed(param: Param)
    | MintReturned(param: Param)
    | BankMinted(k: nat)
    | RefillSizing(governorMax: Option<nat>)
    | GovernorCap(cap: nat)

  function Init(now: nat, asked: Options): State {
    State(now, Resolve(asked), Resolve(asked).poolSizeMin, [], map[], now, [], [], [])
  }

  // ---------------------------------------------------------------------------
  // Registry and bank
  // ---------------------------------------------------------------------------

  function PruneRegistry(r: Registry, now: nat, ttl: nat): Registry {
    map id | id in r && r[id] >= now - ttl :: r[id]
  }

  predicate Recorded(r: Registry, id: string, now: nat, ttl: nat) {
    id in r && r[id] >= now - ttl
  }

  function MarkIssued(r: Registry, param: Param, now: nat, ttl: nat): Registry {
    match param.certifyId
    case Some(id) => PruneRegistry(r, now, ttl)[id := now]
    case None => r
  }

  function RecordIssue(issues: seq<Issue>, param: Param, now: nat, ttl: nat): seq<Issue> {
    match param.certifyId
    case Some(id) => issues + [Issue(id, now, ttl)]
    case None => issues
  }

  /** Tokens younger than the lifetime, in order. */
  function Unexpired(tokens: seq<Entry>, now: nat, ttl: nat): seq<Entry> {
    if tokens == [] then []
    else
      Unexpired(tokens[..|tokens| - 1], now, ttl)
      + (if now - tokens[|tokens| - 1].cachedAt < ttl then [tokens[|tokens| - 1]] else [])
  }

  datatype Popped = Popped(param: Option<Param>, tokens: seq<Entry>, registry: Registry)

  /** Last in, first out, discarding entries whose id was handed out some other way. */
  function Pop(tokens: seq<Entry>, r: Registry, now: nat, ttl: nat): Popped {
    if tokens == [] then Popped(None, [], r)
    else
      var entry, rest := tokens[|tokens| - 1], tokens[..|tokens| - 1];
      match entry.param.certifyId
      case Some(id) =>
        if Recorded(r, id, now, ttl) then Pop(rest, PruneRegistry(r, now, ttl), now, ttl)
        else Popped(Some(entry.param), rest, MarkIssued(PruneRegistry(r, now, ttl), entry.param, now, ttl))
      case None => Popped(Some(entry.param), rest, r)
  }

  function PopFresh(s: State): Popped {
    Pop(Unexpired(s.tokens, s.now, s.opts.tokenTtlMs), s.registry, s.now, s.opts.tokenTtlMs)
  }

  predicate Banked(tokens: seq<Entry>, id: string) {
    exists k :: 0 <= k < |tokens| && tokens[k].param.certifyId == Some(id)
  }

  /** `isDuplicateParam`. */
  predicate IsDuplicate(s: State, tokens: seq<Entry>, param: Param) {
    match param.certifyId
    case Some(id) => Recorded(s.registry, id, s.now, s.opts.tokenTtlMs) || Banked(tokens, id)
    case None => false
  }

  /** The registry after `has` was asked about this parameter's id. */
  function Asked(s: State, param: Param): Registry {
    if param.certifyId.Some? then PruneRegistry(s.registry, s.now, s.opts.tokenTtlMs) else s.registry
  }

  function PushToken(s: State, param: Param): State {
    var live := Unexpired(s.tokens, s.now, s.opts.tokenTtlMs);
    if |live| >= s.effectiveTarget then s.(tokens := live)
    else if IsDuplicate(s, live, param) then s.(tokens := live, registry := Asked(s, param))
    else s.(tokens := live + [Entry(param, s.now)], registry := Asked(s, param))
  }

  // ---------------------------------------------------------------------------
  // Sizing
  // ---------------------------------------------------------------------------

  function Since(times: seq<nat>, cutoff: int): seq<nat> {
    if times == [] then []
    else Since(times[..|times| - 1], cutoff) + (if times[|times| - 1] > cutoff then [times[|times| - 1]] else [])
  }

  function CeilDiv(a: nat, b: nat): nat
    requires b > 0
  {
    (a + b - 1) / b
  }

  function CurrentFloor(s: State): (floor: nat) {
    if s.lastTakeAt == 0 then s.opts.poolSizeMin
    else if s.now - s.lastTakeAt >= s.opts.deepIdleAfterMs then 0
    else if s.now - s.lastTakeAt >= s.opts.scaleDownIdleMs then Min(s.opts.idleFloor, s.opts.poolSizeMin)
    else s.opts.poolSizeMin
  }

  /** `takes / 120 s * ttl * 1.25`, rounded up. */
  function Demand(takes: nat, ttl: nat): nat {
    CeilDiv(takes * ttl * 5, TAKE_RATE_WINDOW_MS * 4)
  }

  function ActiveTarget(s: State, governorMax: Option<nat>): nat {
    var takes := |Since(s.takeTimestamps, s.now - TAKE_RATE_WINDOW_MS)|;
    var raw := if takes == 0 then s.opts.poolSizeMin
               else CeilDiv(Max(Demand(takes, s.opts.tokenTtlMs), s.opts.poolSizeMin) * 5, 4) + 1;
    Max(CurrentFloor(s), Min(s.opts.poolSizeMax, Min(governorMax.GetOr(s.opts.poolSizeMax), raw)))
  }

  /** Oldest tokens go first; one token is always kept. */
  function Trim(tokens: seq<Entry>, target: nat): seq<Entry> {
    var floor := Max(target, 1);
    if |tokens| > floor then tokens[|tokens| - floor..] else tokens
  }

  function TrimToTarget(s: State): State {
    s.(tokens := Trim(Unexpired(s.tokens, s.now, s.opts.tokenTtlMs), s.effectiveTarget))
  }

  function PruneTakeWindow(s: State): State {
    s.(takeTimestamps := Since(s.takeTimestamps, s.now - TAKE_RATE_WINDOW_MS))
  }

  function OnTokenTaken(s: State): State {
    PruneTakeWindow(s.(
      lastTakeAt := s.now,
      takeTimestamps := s.takeTimestamps + [s.now],
      effectiveTarget := Max(s.effectiveTarget, s.opts.poolSizeMin)))
  }

  function MaybeScaleDown(s: State): State {
    if s.lastTakeAt == 0 || s.now - s.lastTakeAt < s.opts.scaleDownIdleMs then s
    else
      var p := PruneTakeWindow(s);
      if |Since(p.takeTimestamps, s.now - RECENT_TAKES_MS)| > 1 || p.effectiveTarget <= CurrentFloor(p) then p
      else TrimToTarget(p.(effectiveTarget := Max(CurrentFloor(p), p.effectiveTarget - SCALE_UP_STEP)))
  }

  predicate IdleDecay(s: State) {
    s.lastTakeAt > 0 && s.now - s.lastTakeAt >= s.opts.scaleDownIdleMs
  }

  // ---------------------------------------------------------------------------
  // Sections
  // ---------------------------------------------------------------------------

  function Shortened(issues: seq<Issue>, ttl: nat): seq<Issue> {
    seq(|issues|, k requires 0 <= k < |issues| => issues[k].(ttl := Min(issues[k].ttl, ttl)))
  }

  function OnConfigure(s: State, asked: Options): State {
    var opts := Resolve(asked);
    TrimToTarget(s.(
      opts := opts,
      effectiveTarget := Max(opts.poolSizeMin, Min(s.effectiveTarget, opts.poolSizeMax)),
      issues := Shortened(s.issues, opts.tokenTtlMs)))
  }

  function OnPop(s: State): State {
    var popped := PopFresh(s);
    s.(tokens := popped.tokens,
       registry := popped.registry,
       issues := if popped.param.Some? then RecordIssue(s.issues, popped.param.value, s.now, s.opts.tokenTtlMs) else s.issues)
  }

  /** `takeToken` up to its first await. */
  function OnTake(s: State, governorMax: Option<nat>, storm: bool): State {
    var popped := OnPop(s);
    var taken := OnTokenTaken(popped);
    if PopFresh(s).param.Some? || storm then taken
    else PruneTakeWindow(taken).(effectiveTarget := Max(taken.effectiveTarget, ActiveTarget(taken, governorMax)))
  }

  /** `markParamIssued`. */
  function Served(s: State, param: Param): State {
    s.(registry := MarkIssued(s.registry, param, s.now, s.opts.tokenTtlMs),
       issues := RecordIssue(s.issues, param, s.now, s.opts.tokenTtlMs))
  }

  /**
   * The mint an empty take waited for: checked, then marked and served. The solver has one
   * worker and one job in flight, so each result comes in a task of its own, and both the
   * check and the mark happen in the microtasks of that task.
   */
  function OnMintServed(s: State, param: Param): State {
    var asked := s.(registry := Asked(s, param));
    if IsDuplicate(s, s.tokens, param) then asked else Served(asked, param)
  }

  /** A refill's mint is checked; it is banked, and checked again, when its whole wave has settled. */
  function OnMintReturned(s: State, param: Param): State {
    s.(registry := Asked(s, param), minted := if IsDuplicate(s, s.tokens, param) then s.minted else s.minted + [param])
  }

  function OnBankMinted(s: State, k: nat): State {
    if k >= |s.minted| then s else PushToken(s.(minted := s.minted[..k] + s.minted[k + 1..]), s.minted[k])
  }

  function OnRefillSizing(s: State, governorMax: Option<nat>): State {
    if IdleDecay(s) then MaybeScaleDown(s)
    else PruneTakeWindow(s).(effectiveTarget := ActiveTarget(s, governorMax))
  }

  function OnGovernorCap(s: State, cap: nat): State {
    s.(effectiveTarget := Max(CurrentFloor(s), Min(s.effectiveTarget, Min(cap, s.opts.poolSizeMax))))
  }

  function Step(s: State, e: Event): State {
    match e
    case Tick(to) => s.(now := Max(s.now, to))
    case Configure(asked) => OnConfigure(s, asked)
    case Invalidate => s.(tokens := [], registry := map[], issues := [])
    case Take(governorMax, storm) => OnTake(s, governorMax, storm)
    case GracePop => OnPop(s)
    case MintServed(param) => OnMintServed(s, param)
    case MintReturned(param) => OnMintReturned(s, param)
    case BankMinted(k) => OnBankMinted(s, k)
    case RefillSizing(governorMax) => OnRefillSizing(s, governorMax)
    case GovernorCap(cap) => OnGovernorCap(s, cap)
  }

  function Run(s: State, events: seq<Event>): State {
    if events == [] then s else Step(Run(s, events[..|events| - 1]), events[|events| - 1])
  }

  // ---------------------------------------------------------------------------
  // Bank contents
  // ---------------------------------------------------------------------------

  ghost predicate DistinctBanked(tokens: seq<Entry>) {
    forall i, j :: 0 <= i < j < |tokens| && tokens[i].param.certifyId.Some? ==>
      tokens[i].param.certifyId != tokens[j].param.certifyId
  }

  ghost predicate CachedBy(tokens: seq<Entry>, now: nat) {
    forall i :: 0 <= i < |tokens| ==> tokens[i].cachedAt <= now
  }

  lemma {:induction false} UnexpiredFacts(tokens: seq<Entry>, now: nat, ttl: nat)
    ensures var live := Unexpired(tokens, now, ttl);
            && |live| <= |tokens|
            && (forall k :: 0 <= k < |live| ==> live[k] in tokens && now - live[k].cachedAt < ttl)
            && (CachedBy(tokens, now) ==> CachedBy(live, now))
            && (DistinctBanked(tokens) ==> DistinctBanked(live))
  {
    if tokens == [] {
    } else {
      var last := |tokens| - 1;
      UnexpiredFacts(tokens[..last], now, ttl);
      var live := Unexpired(tokens[..last], now, ttl);
      if DistinctBanked(tokens) {
        assert DistinctBanked(tokens[..last]);
        forall i | 0 <= i < |live| && live[i].param.certifyId.Some?
          ensures live[i].param.certifyId != tokens[last].param.certifyId
        {
          var k :| 0 <= k < last && tokens[..last][k] == live[i];
          assert tokens[k] == live[i];
        }
      }
    }
  }

  /** What a pop gives: the newest unexpired token whose id is not recorded; all newer ones were. */
  lemma {:induction false} PopFacts(tokens: seq<Entry>, r: Registry, now: nat, ttl: nat)
    ensures var p := Pop(tokens, r, now, ttl);
            && p.tokens <= tokens
            && (p.param.Some? ==>
                  && |p.tokens| < |tokens|
                  && p.param == Some(tokens[|p.tokens|].param)
                  && (p.param.value.certifyId.Some? ==> !Recorded(r, p.param.value.certifyId.value, now, ttl)))
            && (p.param.None? ==> p.tokens == [])
            && (forall k :: |p.tokens| + (if p.param.Some? then 1 else 0) <= k < |tokens| ==>
                  tokens[k].param.certifyId.Some? && Recorded(r, tokens[k].param.certifyId.value, now, ttl))
            && (forall id :: Recorded(p.registry, id, now, ttl) <==>
                  Recorded(r, id, now, ttl) || (p.param.Some? && p.param.value.certifyId == Some(id)))
            && (forall id :: id in p.registry ==> (id in r && p.registry[id] == r[id]) || p.registry[id] == now)
  {
    if tokens == [] {
    } else {
      var entry, rest := tokens[|tokens| - 1], tokens[..|tokens| - 1];
      if entry.param.certifyId.Some? && Recorded(r, entry.param.certifyId.value, now, ttl) {
        PopFacts(rest, PruneRegistry(r, now, ttl), now, ttl);
      }
    }
  }

  // ---------------------------------------------------------------------------
  // The invariant
  // ---------------------------------------------------------------------------

  /** Every id issued within the lifetime is recorded, at least as late as it was issued. */
  ghost predicate RegistryComplete(s: State) {
    && (forall id :: id in s.registry ==> s.registry[id] <= s.now)
    && (forall k :: 0 <= k < |s.issues| ==> s.issues[k].at <= s.now && s.issues[k].ttl <= s.opts.tokenTtlMs)
    && (forall k :: 0 <= k < |s.issues| && s.issues[k].at >= s.now - s.issues[k].ttl ==>
          s.issues[k].id in s.registry && s.registry[s.issues[k].id] >= s.issues[k].at)
  }

  ghost predicate Sized(s: State) {
    s.opts.Resolved() && s.effectiveTarget <= s.opts.poolSizeMax && |s.tokens| <= Max(s.opts.poolSizeMax, 1)
  }

  ghost predicate Inv(s: State) {
    Sized(s) && DistinctBanked(s.tokens) && CachedBy(s.tokens, s.now) && RegistryComplete(s)
  }

  /** No id was issued twice within a lifetime that was in force all the time between. */
  ghost predicate NoDoubleIssue(s: State) {
    forall i, j :: 0 <= i < j < |s.issues| && s.issues[i].id == s.issues[j].id ==>
      s.issues[j].at - s.issues[i].at > s.issues[i].ttl
  }

  lemma PopInv(s: State)
    requires Inv(s)
    ensures Inv(OnPop(s)) && (NoDoubleIssue(s) ==> NoDoubleIssue(OnPop(s)))
  {
    var live := Unexpired(s.tokens, s.now, s.opts.tokenTtlMs);
    UnexpiredFacts(s.tokens, s.now, s.opts.tokenTtlMs);
    PopFacts(live, s.registry, s.now, s.opts.tokenTtlMs);
    hide Pop, Unexpired;
    var t := OnPop(s);
    forall k | 0 <= k < |s.issues| && s.issues[k].at >= s.now - s.issues[k].ttl
      ensures Recorded(s.registry, s.issues[k].id, s.now, s.opts.tokenTtlMs)
      ensures Recorded(t.registry, s.issues[k].id, s.now, s.opts.tokenTtlMs)
    {
    }
  }

  /** The id was issued within the lifetime. */
  predicate Reissued(s: State, id: string) {
    exists k :: 0 <= k < |s.issues| && s.issues[k].id == id && s.issues[k].at >= s.now - s.issues[k].ttl
  }

  /** Serving a mint, checked or not, issues an id again exactly when it was issued within the lifetime. */
  lemma ServedAgainIff(s: State, param: Param)
    requires Inv(s)
    ensures Inv(Served(s, param))
    ensures NoDoubleIssue(s) ==>
              (NoDoubleIssue(Served(s, param)) <==> !(param.certifyId.Some? && Reissued(s, param.certifyId.value)))
  {
    var t := Served(s, param);
    if param.certifyId.Some? && Reissued(s, param.certifyId.value) {
      var k :| 0 <= k < |s.issues| && s.issues[k].id == param.certifyId.value && s.issues[k].at >= s.now - s.issues[k].ttl;
      assert t.issues[k] == s.issues[k] && t.issues[|s.issues|].id == param.certifyId.value;
    }
  }

  /** The check asks exactly what is needed: nothing issued within the lifetime passes it. */
  lemma CheckCatchesReissue(s: State, id: string)
    requires Inv(s) && Reissued(s, id)
    ensures Recorded(s.registry, id, s.now, s.opts.tokenTtlMs)
  {
  }

  lemma MintServedInv(s: State, param: Param)
    requires Inv(s)
    ensures Inv(OnMintServed(s, param)) && (NoDoubleIssue(s) ==> NoDoubleIssue(OnMintServed(s, param)))
  {
    var asked := s.(registry := Asked(s, param));
    AskedInv(s, param);
    ServedAgainIff(asked, param);
    if param.certifyId.Some? && Reissued(s, param.certifyId.value) {
      CheckCatchesReissue(s, param.certifyId.value);
    }
  }

  lemma AskedInv(s: State, param: Param)
    requires Inv(s)
    ensures Inv(s.(registry := Asked(s, param)))
  {
  }

  lemma PushInv(s: State, param: Param)
    requires Inv(s)
    ensures Inv(PushToken(s, param))
  {
    UnexpiredFacts(s.tokens, s.now, s.opts.tokenTtlMs);
    hide Unexpired;
  }

  lemma TrimInv(s: State)
    requires s.opts.Resolved() && s.effectiveTarget <= s.opts.poolSizeMax
    requires DistinctBanked(s.tokens) && CachedBy(s.tokens, s.now) && RegistryComplete(s)
    ensures Inv(TrimToTarget(s)) && TrimToTarget(s).issues == s.issues && TrimToTarget(s).opts == s.opts
  {
    UnexpiredFacts(s.tokens, s.now, s.opts.tokenTtlMs);
    hide Unexpired;
  }

  lemma SizingInv(s: State, governorMax: Option<nat>)
    requires Inv(s)
    ensures ActiveTarget(s, governorMax) <= s.opts.poolSizeMax
    ensures Inv(OnTokenTaken(s)) && Inv(OnRefillSizing(s, governorMax))
    ensures OnRefillSizing(s, governorMax).issues == s.issues && OnRefillSizing(s, governorMax).opts == s.opts
  {
    hide Since, Demand, CeilDiv;
    var p := PruneTakeWindow(s);
    if IdleDecay(s) && p.effectiveTarget > CurrentFloor(p) {
      TrimInv(p.(effectiveTarget := Max(CurrentFloor(p), p.effectiveTarget - SCALE_UP_STEP)));
    }
  }

  lemma TakeInv(s: State, governorMax: Option<nat>, storm: bool)
    requires Inv(s)
    ensures Inv(OnTake(s, governorMax, storm)) && OnTake(s, governorMax, storm).issues == OnPop(s).issues
    ensures OnTake(s, governorMax, storm).opts == s.opts
  {
    hide PopFresh, Since, ActiveTarget, Unexpired, Pop, RecordIssue, CurrentFloor, OnRefillSizing;
    PopInv(s);
    SizingInv(OnPop(s), governorMax);
    SizingInv(OnTokenTaken(OnPop(s)), governorMax);
    hide DistinctBanked, RegistryComplete;
  }

  /** Every section keeps ids distinct, sizes within limits and the registry complete. */
  lemma StepInv(s: State, e: Event)
    requires Inv(s)
    ensures Inv(Step(s, e))
  {
    match e
    case Tick(to) =>
    case Configure(asked) =>
      var opts := Resolve(asked);
      TrimInv(s.(opts := opts, effectiveTarget := Max(opts.poolSizeMin, Min(s.effectiveTarget, opts.poolSizeMax)),
                 issues := Shortened(s.issues, opts.tokenTtlMs)));
    case Invalidate =>
    case Take(governorMax, storm) => TakeInv(s, governorMax, storm);
    case GracePop => PopInv(s);
    case MintServed(param) => MintServedInv(s, param);
    case MintReturned(param) =>
    case BankMinted(k) =>
      if k < |s.minted| {
        PushInv(s.(minted := s.minted[..k] + s.minted[k + 1..]), s.minted[k]);
      }
    case RefillSizing(governorMax) => SizingInv(s, governorMax);
    case GovernorCap(cap) =>
  }

  ghost predicate Reachable(s: State) {
    exists now: nat, asked: Options, events: seq<Event> :: s == Run(Init(now, asked), events)
  }

  lemma {:induction false} RunInv(now: nat, asked: Options, events: seq<Event>)
    ensures Inv(Run(Init(now, asked), events))
  {
    hide Step;
    if events != [] {
      RunInv(now, asked, events[..|events| - 1]);
      StepInv(Run(Init(now, asked), events[..|events| - 1]), events[|events| - 1]);
    } else {
      assert Run(Init(now, asked), events) == Init(now, asked);
    }
  }

  lemma ReachableInv(s: State)
    requires Reachable(s)
    ensures Inv(s)
  {
    var now: nat, asked: Options, events: seq<Event> :| s == Run(Init(now, asked), events);
    RunInv(now, asked, events);
  }

  /** In every reachable state no two banked tokens share an id. */
  lemma BankedIdsDistinct(s: State, i: nat, j: nat)
    requires Reachable(s) && i < |s.tokens| && j < |s.tokens|
    requires s.tokens[i].param.certifyId.Some? && s.tokens[i].param.certifyId == s.tokens[j].param.certifyId
    ensures i == j
  {
    ReachableInv(s);
  }

  /**
   * Neither the target nor the bank exceeds the maximum, but for the one token that trimming
   * keeps when the maximum has become zero.
   */
  lemma BankWithinMax(s: State)
    requires Reachable(s)
    ensures s.effectiveTarget <= s.opts.poolSizeMax
    ensures |s.tokens| <= s.opts.poolSizeMax || (s.opts.poolSizeMax == 0 && |s.tokens| == 1)
  {
    ReachableInv(s);
  }

  /** That one token is really reached: banked under a maximum of one, kept over a maximum of zero. */
  lemma OneTokenOverZeroMax(now: nat, param: Param)
    ensures var one, none := Options(1, 1, 1, 0, 0, 1000), Options(0, 0, 0, 0, 0, 1000);
            var banked := Step(Step(Init(now, one), MintReturned(param)), BankMinted(0));
            var t := Step(banked, Configure(none));
            t.opts.poolSizeMax == 0 && t.effectiveTarget == 0 && t.tokens == [Entry(param, now)]
  {
    var one, none := Options(1, 1, 1, 0, 0, 1000), Options(0, 0, 0, 0, 0, 1000);
    var checked := Step(Init(now, one), MintReturned(param));
    assert checked.minted == [param];
    var banked := Step(checked, BankMinted(0));
    assert banked.tokens == [Entry(param, now)];
    assert [Entry(param, now)][..0] == [];
    assert Unexpired(banked.tokens, now, 1000) == banked.tokens;
  }

  // ---------------------------------------------------------------------------
  // No id twice within the lifetime
  // ---------------------------------------------------------------------------

  /** No section issues an id again within the lifetime. */
  lemma StepIssuesOnce(s: State, e: Event)
    requires Inv(s) && NoDoubleIssue(s)
    ensures NoDoubleIssue(Step(s, e))
  {
    match e
    case Take(governorMax, storm) =>
      PopInv(s);
      TakeInv(s, governorMax, storm);
    case GracePop => PopInv(s);
    case MintServed(param) => MintServedInv(s, param);
    case RefillSizing(governorMax) => SizingInv(s, governorMax);
    case _ =>
  }

  /**
   * Over every run no id is issued twice within the lifetime, whatever mints the solver
   * returns, whether they are served or banked, and however the lifetime is reconfigured.
   */
  lemma {:induction false} IssuedOnceWithinTtl(now: nat, asked: Options, events: seq<Event>)
    ensures NoDoubleIssue(Run(Init(now, asked), events))
  {
    hide Step;
    var s := Init(now, asked);
    if events == [] {
      assert Run(s, events) == s;
    } else {
      var before := events[..|events| - 1];
      IssuedOnceWithinTtl(now, asked, before);
      RunInv(now, asked, before);
      StepIssuesOnce(Run(s, before), events[|events| - 1]);
    }
  }

  /** A token served from the bank is younger than the lifetime. */
  lemma ServedTokensAreFresh(s: State) returns (k: nat)
    requires PopFresh(s).param.Some?
    ensures k < |s.tokens| && s.tokens[k].param == PopFresh(s).param.value
    ensures s.now - s.tokens[k].cachedAt < s.opts.tokenTtlMs
  {
    var live := Unexpired(s.tokens, s.now, s.opts.tokenTtlMs);
    UnexpiredFacts(s.tokens, s.now, s.opts.tokenTtlMs);
    PopFacts(live, s.registry, s.now, s.opts.tokenTtlMs);
    hide Pop, Unexpired;
    var entry := live[|PopFresh(s).tokens|];
    assert entry in s.tokens && s.now - entry.cachedAt < s.opts.tokenTtlMs && PopFresh(s).param == Some(entry.param);
    k :| 0 <= k < |s.tokens| && s.tokens[k] == entry;
  }

  // ---------------------------------------------------------------------------
  // Going idle
  // ---------------------------------------------------------------------------

  function Refills(s: State, n: nat): State {
    if n == 0 then s else OnRefillSizing(Refills(s, n - 1), None)
  }

  lemma {:induction false} SinceSince(times: seq<nat>, low: int, high: int)
    requires low <= high
    ensures Since(Since(times, low), high) == Since(times, high)
  {
    if times == [] {
    } else {
      var last := |times| - 1;
      SinceSince(times[..last], low, high);
      var kept := Since(times[..last], low);
      if times[last] > low {
        assert Since(times, low) == kept + [times[last]];
        assert (kept + [times[last]])[..|kept|] == kept;
      } else {
        assert Since(times, low) == kept;
      }
    }
  }

  ghost predicate DeepIdle(s: State) {
    && s.lastTakeAt > 0 && s.now - s.lastTakeAt >= s.opts.deepIdleAfterMs && s.opts.Resolved()
    && |Since(s.takeTimestamps, s.now - RECENT_TAKES_MS)| <= 1
  }

  lemma DeepIdleStep(s: State)
    requires DeepIdle(s)
    ensures var t := OnRefillSizing(s, None);
            DeepIdle(t) && t.effectiveTarget == Max(0, s.effectiveTarget - SCALE_UP_STEP)
  {
    hide Since, Unexpired, Trim, ActiveTarget;
    SinceSince(s.takeTimestamps, s.now - TAKE_RATE_WINDOW_MS, s.now - RECENT_TAKES_MS);
  }

  /** After long idleness each refill tick lowers the target by twenty, down to nothing. */
  lemma {:induction false} IdleDrainsToZero(s: State, n: nat)
    requires DeepIdle(s)
    ensures DeepIdle(Refills(s, n)) && Refills(s, n).effectiveTarget == Max(0, s.effectiveTarget - SCALE_UP_STEP * n)
  {
    hide OnRefillSizing, DeepIdle;
    if n == 0 {
    } else {
      IdleDrainsToZero(s, n - 1);
      DeepIdleStep(Refills(s, n - 1));
    }
  }
}
