/**
 * Quarantine and eligibility in the rotator (auth/account-rotator.ts:179-245, 267-314, 387-446):
 * what a sync, a mark, a clear and a replacement make of an account, who may serve a
 * request, and how long a marked account is kept from serving.
 */
module Quarantine {
  import opened Util
  import opened Accounts
  import opened Rotator
  import opened Handles

  // ---------------------------------------------------------------------------
  // Who may serve
  // ---------------------------------------------------------------------------

  /**
   * An account may serve a request exactly when it is named, valid, allowed, not paused, has
   * a login if the request needs one, fits the plan and the provider, is not expired, and
   * neither it nor an alias is in quarantine, and the request excludes neither its id nor
   * its identity.
   */
  lemma EligibleIff(s: State, r: Request, i: nat)
    requires i < |s.accounts|
    ensures var a, p := s.accounts[i], s.policy;
            Eligible(s, r, i) <==>
              && a.id != "" && !IsBlank(a.credential.apiKey)
              && (p.allowedIds.Some? ==> a.id in p.allowedIds.value)
              && a.id !in p.pausedIds && !a.paused
              && (r.operation != Inference ==> HasText(a.credential.jwt))
              && (!p.allowPaid ==> a.plan == Some("coding-plan") || a.plan == Some("start-plan"))
              && (p.provider.Some? ==> a.credential.provider == p.provider.value)
              && (p.plan.Some? && p.plan.value != "" && a.plan.Some? ==> a.plan.value == p.plan.value)
              && (p.plan == Some("start-plan") ==> HasText(a.credential.jwt))
              && (a.credential.expiresAt.Some? ==> s.now < a.credential.expiresAt.value)
              && (a.exhaustedUntil.Some? ==> a.exhaustedUntil.value <= s.now)
              && (forall j :: 0 <= j < |s.accounts| && s.accounts[j].exhaustedUntil.Some? && s.accounts[j].exhaustedUntil.value > s.now ==>
                    WireIdentity(p, s.accounts[j]) != WireIdentity(p, a))
              && a.id !in r.excludedIds
              && WireIdentity(p, a) !in r.excludedIdentities
  {
  }

  /** What the upstream sees of an account: its provider, the plan asked for, and the token that plan sends. */
  function WireIdentity(p: Policy, a: Account): Identity {
    var plan := if p.plan.Some? then p.plan else a.plan;
    var token :=
      if plan == Some("start-plan") then (if a.credential.jwt.Some? then a.credential.jwt.value else "")
      else if a.credential.secret.Some? && a.credential.secret.value != "" then a.credential.apiKey + "." + a.credential.secret.value
      else a.credential.apiKey;
    Identity(a.credential.provider, if plan.Some? then plan.value else "", token)
  }

  /** Without a sticky account on offer the first eligible account of the walk from the cursor serves. */
  lemma FirstInTheWalkServes(s: State, r: Request) returns (k: nat)
    requires PoolInv(s) && Select(s, r).1.Some?
    requires s.active.None? || forall i: nat :: i < |s.accounts| && s.accounts[i].id == s.active.value ==> !Eligible(s, r, i)
    ensures s.accounts != [] && Eligible(s, r, At(s, k)) && Select(s, r).1.value.id == s.accounts[At(s, k)].id
    ensures forall j: nat :: j < k ==> !Eligible(s, r, At(s, j))
    ensures forall j: nat :: At(s, j) == (s.cursor + j) % |s.accounts|
  {
    SelectReturnsPick(s, r);
    PickIsFirst(s, r);
    WalkIsCyclic(s);
    hide Eligible, StepOf, At, IdentityOf, Select, Pick, PoolInv, Candidates;
    k := FirstStep(s, r, |s.accounts|);
  }

  lemma WalkIsCyclic(s: State)
    ensures s.accounts != [] ==> forall j: nat :: At(s, j) == (s.cursor + j) % |s.accounts|
  {
  }

  lemma PickIsFirst(s: State, r: Request)
    requires PoolInv(s) && Offers(s, r) != []
    requires s.active.None? || forall i: nat :: i < |s.accounts| && s.accounts[i].id == s.active.value ==> !Eligible(s, r, i)
    ensures Pick(s, Offers(s, r)) == Offers(s, r)[0]
  {
    PickIsEligible(s, r);
    hide Eligible, At, StepOf, IdentityOf, PoolInv, Candidates;
  }

  /** The first offer is the first eligible account of the walk. */
  lemma {:induction false} FirstStep(s: State, r: Request, n: nat) returns (k: nat)
    requires s.accounts != [] && Candidates(s, r, n) != []
    ensures k < n && Eligible(s, r, At(s, k)) && Candidates(s, r, n)[0] == At(s, k)
    ensures forall j: nat :: j < k ==> !Eligible(s, r, At(s, j))
    decreases n
  {
    hide Eligible, At, IdentityOf;
    if Candidates(s, r, n - 1) == [] {
      k := n - 1;
      NobodyEligible(s, r, n - 1);
    } else {
      k := FirstStep(s, r, n - 1);
    }
  }

  lemma {:induction false} NobodyEligible(s: State, r: Request, n: nat)
    requires s.accounts != [] && Candidates(s, r, n) == []
    ensures forall j: nat :: j < n ==> !Eligible(s, r, At(s, j))
  {
    hide Eligible, At, IdentityOf;
    if n == 0 {
    } else {
      NobodyEligible(s, r, n - 1);
    }
  }

  /** The account as it is found at an inspection: usable, it loses a past reset marker with its reason. */
  function Found(s: State, a: Account, excludedIds: set<string>, op: Operation): Account {
    if Usable(s.policy, s.now, a, excludedIds, op) && a.exhaustedUntil.Some? then a.(exhaustedUntil := None, lastFailureReason := None) else a
  }

  /** Selection inspects every account, stamps the one it serves, and makes it the sticky one if the request infers. */
  lemma SelectionStamps(s: State, r: Request)
    requires PoolInv(s)
    ensures var t := Step(s, SelectFor(r));
            && |t.accounts| == |s.accounts| && t.policy == s.policy && t.now == s.now && t.cursor == s.cursor
            && forall i: nat :: i < |s.accounts| ==>
                 t.accounts[i] ==
                   if Select(s, r).1.Some? && s.accounts[i].id == Select(s, r).1.value.id
                   then Found(s, s.accounts[i], r.excludedIds, r.operation).(lastUsedAt := Some(s.now))
                   else Found(s, s.accounts[i], r.excludedIds, r.operation)
    ensures var t := Step(s, SelectFor(r));
            if Select(s, r).1.None? then t.active == s.active && t.lastSelected == s.lastSelected
            else
              var id := Select(s, r).1.value.id;
              t.lastSelected == Some(id) && t.active == (if r.operation == Inference then Some(id) else s.active)
  {
    forall a: Account ensures Inspect(s.policy, s.now, a, r.excludedIds, r.operation) == Found(s, a, r.excludedIds, r.operation) {
    }
    if Select(s, r).1.Some? {
      SelectReturnsPick(s, r);
      forall i: nat | i < |s.accounts| ensures Find(s.accounts, s.accounts[i].id) == i {
        FindAt(s, i);
      }
    }
    hide Offers, Pick, Usable, Inspect, Found, IdentityOf, Find;
  }

  /** A check of one account inspects that account and no other. */
  lemma CheckInspects(s: State, id: string)
    requires PoolInv(s)
    ensures var t := InspectId(s, id);
            && t == s.(accounts := t.accounts) && |t.accounts| == |s.accounts|
            && forall i: nat :: i < |s.accounts| ==>
                 t.accounts[i] == if s.accounts[i].id == id then Found(s, s.accounts[i], {}, Inference) else s.accounts[i]
  {
    forall i: nat | i < |s.accounts| ensures Find(s.accounts, s.accounts[i].id) == i {
      FindAt(s, i);
    }
    hide Usable;
  }

  /** The checks of a handle inspect its account exactly if the handle matches it. */
  lemma ChecksInspect(s: State, handle: Handle)
    ensures Step(s, IsHandleCurrent(handle)) ==
              if Has(s, handle.id) && SameHandle(Get(s, handle.id), handle) then InspectId(s, handle.id) else s
    ensures Step(s, CanResendHandle(handle)) ==
              if Has(s, handle.id) && Get(s, handle.id).credential == handle.credential
                 && Get(s, handle.id).credentialRevision == handle.credentialRevision && WireIdentity(s.policy, Get(s, handle.id)) == handle.identity
              then InspectId(s, handle.id) else s
  {
    if Has(s, handle.id) {
      IdentityIsWire(s.policy, Get(s, handle.id));
    }
    hide IdentityOf, WireIdentity, Find, InspectId, SameHandle, Mark, Clear, Replace, Sync, SetPolicy, Select;
  }

  // ---------------------------------------------------------------------------
  // What a sync makes of an account
  // ---------------------------------------------------------------------------

  /** The later of two times, of which an absent one is zero; zero is absent. */
  predicate LaterTime(a: Option<nat>, b: Option<nat>, r: Option<nat>) {
    && (r.None? <==> (a.None? || a.value == 0) && (b.None? || b.value == 0))
    && (r.Some? ==> r == a || r == b)
    && (r.Some? && a.Some? ==> r.value >= a.value) && (r.Some? && b.Some? ==> r.value >= b.value)
  }

  /** A synced account under the credential it had: settings from the store, metadata the later of both. */
  predicate KeptBySync(a: Account, p: Profile, order: nat, b: Account) {
    && b.id == p.id && b.credential == p.credential && b.plan == p.plan && b.paused == p.paused && b.order == order
    && b.unknownFailureCount == a.unknownFailureCount
    && LaterTime(a.lastUsedAt, p.lastUsedAt, b.lastUsedAt)
    && LaterTime(a.lastFailureAt, p.lastFailureAt, b.lastFailureAt)
    && LaterTime(a.exhaustedUntil, p.exhaustedUntil, b.exhaustedUntil)
    && (p.lastFailureReason.Some? && p.lastFailureReason.value != "" ==> b.lastFailureReason == p.lastFailureReason)
    && ((p.lastFailureReason.None? || p.lastFailureReason.value == "") ==>
          b.lastFailureReason == if a.lastFailureReason.Some? && a.lastFailureReason.value != "" then a.lastFailureReason else p.lastFailureReason)
    && b.credentialRevision >= a.credentialRevision && b.failureGeneration >= a.failureGeneration && b.quotaGeneration >= a.quotaGeneration
    && StoredNumbers(p, a.credentialRevision, a.failureGeneration, a.quotaGeneration, b)
  }

  /** A new login of a known account: everything from the store, and every generation moves on. */
  predicate RenewedBySync(a: Account, p: Profile, order: nat, b: Account) {
    && TakenFromStore(p, order, b)
    && b.credentialRevision > a.credentialRevision && b.failureGeneration > a.failureGeneration && b.quotaGeneration > a.quotaGeneration
    && StoredNumbers(p, a.credentialRevision + 1, a.failureGeneration + 1, a.quotaGeneration + 1, b)
  }

  predicate TakenFromStore(p: Profile, order: nat, b: Account) {
    && b.id == p.id && b.credential == p.credential && b.plan == p.plan && b.paused == p.paused && b.order == order
    && b.unknownFailureCount == 0 && b.lastUsedAt == p.lastUsedAt && b.lastFailureAt == p.lastFailureAt
    && b.exhaustedUntil == p.exhaustedUntil && b.lastFailureReason == p.lastFailureReason
  }

  /** Each generation is the stored one or the other bound, whichever is larger; an absent revision counts as one. */
  predicate StoredNumbers(p: Profile, revision: nat, failures: nat, quotas: nat, b: Account) {
    var stored := if p.credentialRevision.Some? && p.credentialRevision.value > 0 then p.credentialRevision.value else 1;
    && b.credentialRevision >= stored && (b.credentialRevision == stored || b.credentialRevision == revision)
    && b.failureGeneration >= p.failureGeneration.GetOr(0) && (b.failureGeneration == p.failureGeneration.GetOr(0) || b.failureGeneration == failures)
    && b.quotaGeneration >= p.quotaGeneration.GetOr(0) && (b.quotaGeneration == p.quotaGeneration.GetOr(0) || b.quotaGeneration == quotas)
  }

  /** A past reset marker may have been cleared as well. */
  predicate UpToPastMarker(now: nat, a: Account, b: Account) {
    a == b || (a.exhaustedUntil.Some? && a.exhaustedUntil.value <= now && b == a.(exhaustedUntil := None, lastFailureReason := None))
  }

  lemma MergeMakes(a: Account, p: Profile, order: nat)
    ensures a.credential == p.credential ==> KeptBySync(a, p, order, MergeProfile(a, p, order))
    ensures a.credential != p.credential ==> RenewedBySync(a, p, order, MergeProfile(a, p, order))
    ensures TakenFromStore(p, order, Clone(p, order)) && StoredNumbers(p, 0, 0, 0, Clone(p, order))
  {
  }

  /** A sync leaves exactly the stored accounts, in their order, each made from the store and what the pool knew of it. */
  lemma SyncMakesThePool(s: State, profiles: seq<Profile>, k: nat) returns (b: Account)
    requires PoolInv(s) && DistinctIds(profiles) && k < |profiles|
    ensures var t, p := Step(s, SyncProfiles(profiles)), profiles[k];
            && |t.accounts| == |profiles| && UpToPastMarker(s.now, b, t.accounts[k])
            && (!Has(s, p.id) ==> TakenFromStore(p, k, b) && StoredNumbers(p, 0, 0, 0, b))
            && (Has(s, p.id) && Get(s, p.id).credential == p.credential ==> KeptBySync(Get(s, p.id), p, k, b))
            && (Has(s, p.id) && Get(s, p.id).credential != p.credential ==> RenewedBySync(Get(s, p.id), p, k, b))
  {
    var synced := s.(accounts := SyncedAccounts(s, profiles));
    SyncInspects(s, profiles);
    b := SyncOne(s, profiles[k], k);
    assert synced.accounts[k] == b && |synced.accounts| == |profiles|;
    if Has(s, profiles[k].id) {
      MergeMakes(Get(s, profiles[k].id), profiles[k], k);
    } else {
      MergeMakes(b, profiles[k], k);
    }
    hide Sync, SyncedAccounts, Find, Admissible, KeptBySync, RenewedBySync, TakenFromStore, StoredNumbers, MergeProfile, Clone, PoolInv, DistinctIds;
    if s.active.Some? {
      InspectsPastOnly(synced, s.active.value, k);
    }
    hide InspectId;
  }

  lemma InspectsPastOnly(s: State, id: string, k: nat)
    requires k < |s.accounts|
    ensures var t := InspectId(s, id);
            |t.accounts| == |s.accounts| && UpToPastMarker(s.now, s.accounts[k], t.accounts[k])
  {
    hide Admissible, Find;
  }

  /** The sticky account survives a sync or a policy edit exactly when it is still there and usable. */
  lemma StickySurvivesIff(s: State, profiles: seq<Profile>, allowedIds: Option<set<string>>, pausedIds: set<string>)
    ensures var t, synced := Step(s, SyncProfiles(profiles)), s.(accounts := SyncedAccounts(s, profiles));
            && t.policy == s.policy && t.now == s.now
            && t.active == (if s.active.Some? && UsableId(synced, s.active.value) then s.active else None)
            && (t.active.Some? ==> t.cursor == s.cursor && t.lastSelected == s.lastSelected)
            && (t.active.None? ==> t.cursor <= s.cursor && (t.accounts != [] ==> t.cursor < |t.accounts|)
                                   && (s.cursor < |t.accounts| ==> t.cursor == s.cursor))
            && (t.active.None? ==> t.lastSelected == if s.active.Some? && Has(synced, s.active.value) then s.lastSelected else None)
    ensures var t := Step(s, PolicyEdit(allowedIds, pausedIds));
            var edited := s.(policy := s.policy.(allowedIds := allowedIds, pausedIds := pausedIds));
            && t.policy == edited.policy && t.cursor == s.cursor && t.now == s.now && t.lastSelected == s.lastSelected
            && t.active == (if s.active.Some? && UsableId(edited, s.active.value) then s.active else None)
            && |t.accounts| == |s.accounts| && forall k :: 0 <= k < |s.accounts| ==> UpToPastMarker(s.now, s.accounts[k], t.accounts[k])
  {
    hide Admissible, Find, SyncedAccounts;
    var edited := s.(policy := s.policy.(allowedIds := allowedIds, pausedIds := pausedIds));
    if s.active.Some? {
      forall k | 0 <= k < |s.accounts| ensures UpToPastMarker(s.now, s.accounts[k], InspectId(edited, s.active.value).accounts[k]) {
        InspectsPastOnly(edited, s.active.value, k);
      }
    }
  }

  // ---------------------------------------------------------------------------
  // Marking, clearing, replacing
  // ---------------------------------------------------------------------------

  /** Nobody but this account changes, and it keeps its place. */
  ghost predicate OnlyTouches(s: State, t: State, id: string) {
    && PoolInv(t) && |t.accounts| == |s.accounts| && Has(t, id) && t.policy == s.policy && t.now == s.now && t.lastSelected == s.lastSelected
    && forall other :: other != id && Has(s, other) ==> Has(t, other) && Get(t, other) == Get(s, other)
  }

  /**
   * A mark through a current target quarantines until the later of the old reset and the new
   * one: the one given if it is in the future, else a cooldown doubled for each unexplained
   * failure, four times at most, and never over fifteen minutes.
   */
  lemma MarkMeans(s: State, target: Target, reason: string, resetAt: Option<nat>)
    requires PoolInv(s) && Addresses(s, target)
    ensures OnlyTouches(s, Step(s, MarkExhausted(target, reason, resetAt)), TargetId(target))
    ensures var t, id := Step(s, MarkExhausted(target, reason, resetAt)), TargetId(target);
            var a, b := Get(s, id), Get(t, id);
            var given := resetAt.Some? && resetAt.value > s.now;
            var doublings := if a.unknownFailureCount < 4 then a.unknownFailureCount else 4;
            var pause := s.policy.cooldownMs * Pow2(doublings);
            var until := if given then resetAt.value else s.now + (if pause < 900_000 then pause else 900_000);
            && b.exhaustedUntil.Some? && b.exhaustedUntil.value >= until
            && (a.exhaustedUntil.Some? ==> b.exhaustedUntil.value >= a.exhaustedUntil.value)
            && (b.exhaustedUntil.value == until || b.exhaustedUntil == a.exhaustedUntil)
            && b == a.(unknownFailureCount := if given then 0 else a.unknownFailureCount + 1, exhaustedUntil := b.exhaustedUntil,
                       lastFailureAt := Some(s.now), lastFailureReason := Some(reason),
                       failureGeneration := a.failureGeneration + 1, quotaGeneration := a.quotaGeneration + 1)
            && (if s.active == Some(id) then t.active.None? && t.cursor == (Find(s.accounts, id) + 1) % |s.accounts|
                else t.active == s.active && t.cursor == s.cursor)
  {
    SetKeeps(s, MarkedAccount(s, Get(s, TargetId(target)), reason, resetAt));
    FindAt(s, Find(s.accounts, TargetId(target)));
    hide Pow2, Find;
  }

  /** Clearing a failure removes its marks and, if there were any, spends the handles issued before. */
  lemma ClearMeans(s: State, target: Target)
    requires PoolInv(s) && Addresses(s, target)
    ensures OnlyTouches(s, Step(s, ClearFailure(target)), TargetId(target))
    ensures var t, id := Step(s, ClearFailure(target)), TargetId(target);
            var a, b := Get(s, id), Get(t, id);
            var marked := a.exhaustedUntil.Some? || a.lastFailureAt.Some? || a.lastFailureReason.Some?;
            && t.active == s.active && t.cursor == s.cursor
            && b == a.(exhaustedUntil := None, lastFailureAt := None, lastFailureReason := None, unknownFailureCount := 0,
                       failureGeneration := if marked then a.failureGeneration + 1 else a.failureGeneration)
  {
    SetKeeps(s, ClearedAccount(Get(s, TargetId(target))));
    hide Find;
  }

  /** A stale handle, or an id the pool does not have, marks and clears nothing. */
  lemma StaleTargetChangesNothing(s: State, target: Target, reason: string, resetAt: Option<nat>)
    requires !Has(s, TargetId(target)) || (target.ByHandle? && !SameHandle(Get(s, TargetId(target)), target.handle))
    ensures Step(s, MarkExhausted(target, reason, resetAt)) == s && Step(s, ClearFailure(target)) == s
  {
  }

  /** A handle is current exactly while the account has the revision, both generations and the credential it was issued with. */
  lemma SameHandleIff(a: Account, h: Handle)
    ensures SameHandle(a, h) <==>
              && a.id == h.id && a.credential == h.credential && a.credentialRevision == h.credentialRevision
              && a.failureGeneration == h.failureGeneration && a.quotaGeneration == h.quotaGeneration
  {
  }

  /**
   * A credential is replaced exactly if the account is there, the new one is valid and
   * different, and the revision is the one expected; then the account starts afresh under
   * the next revision, and is no longer the sticky one.
   */
  lemma ReplaceMeans(s: State, id: string, credential: Credential, expected: Option<nat>)
    requires PoolInv(s)
    ensures var t := Step(s, ReplaceCredential(id, credential, expected));
            if Has(s, id) && id != "" && !IsBlank(credential.apiKey) && Get(s, id).credential != credential
               && (expected.Some? ==> expected.value == Get(s, id).credentialRevision)
            then
              var a := Get(s, id);
              && OnlyTouches(s, t, id) && t.cursor == s.cursor && t.active == (if s.active == Some(id) then None else s.active)
              && Get(t, id) == a.(credential := credential, credentialRevision := a.credentialRevision + 1,
                                  failureGeneration := a.failureGeneration + 1, quotaGeneration := a.quotaGeneration + 1,
                                  exhaustedUntil := None, lastFailureAt := None, lastFailureReason := None, unknownFailureCount := 0)
            else t == s
  {
    if Replaceable(s, id, credential, expected) {
      SetKeeps(s, ReplacedAccount(Get(s, id), credential));
    }
    hide Find;
  }

  /**
   * A request may be resent on the same account exactly while its credential, revision and
   * identity are those of the handle, it is usable, and no other alias is in quarantine; the
   * failure generation is not compared.
   */
  lemma ResendIff(s: State, h: Handle)
    ensures CheckResend(s, h).1 <==>
              && Has(s, h.id)
              && var a := Get(s, h.id);
                 && a.credential == h.credential && a.credentialRevision == h.credentialRevision && WireIdentity(s.policy, a) == h.identity
                 && Usable(s.policy, s.now, a, {}, Inference)
                 && forall j :: 0 <= j < |s.accounts| && s.accounts[j].id != h.id && s.accounts[j].exhaustedUntil.Some? && s.accounts[j].exhaustedUntil.value > s.now ==>
                      WireIdentity(s.policy, s.accounts[j]) != h.identity
  {
    hide Admissible;
  }

  /** A handle is admitted exactly while it is current and its account usable. */
  lemma CurrentIff(s: State, h: Handle)
    ensures CheckCurrent(s, h).1 <==> Has(s, h.id) && SameHandle(Get(s, h.id), h) && Usable(s.policy, s.now, Get(s, h.id), {}, Inference)
  {
    hide Admissible, SameHandle;
  }

  // ---------------------------------------------------------------------------
  // How long a quarantine lasts
  // ---------------------------------------------------------------------------

  /** The account is there under this credential, kept from serving until `until`. */
  ghost predicate HeldUntil(s: State, id: string, credential: Credential, until: nat) {
    Has(s, id) && Get(s, id).credential == credential && Get(s, id).exhaustedUntil.Some? && Get(s, id).exhaustedUntil.value >= until
  }

  /** The event neither clears nor replaces the account, nor drops it from the pool or gives it another login. */
  predicate Leaves(e: Event, id: string, credential: Credential) {
    match e
    case SyncProfiles(profiles) => exists k :: 0 <= k < |profiles| && profiles[k].id == id && profiles[k].credential == credential
    case ClearFailure(target) => TargetId(target) != id
    case ReplaceCredential(other, _, _) => other != id
    case _ => true
  }

  lemma HeldThroughInspection(s: State, other: string, id: string, credential: Credential, until: nat)
    requires PoolInv(s) && HeldUntil(s, id, credential, until) && s.now < until
    ensures HeldUntil(InspectId(s, other), id, credential, until)
  {
    if Has(s, other) {
      SetKeeps(s, Inspect(s.policy, s.now, Get(s, other), {}, Inference));
    }
    hide Admissible, Find;
  }

  lemma HeldThroughSync(s: State, profiles: seq<Profile>, id: string, credential: Credential, until: nat)
    requires PoolInv(s) && DistinctIds(profiles) && HeldUntil(s, id, credential, until) && s.now < until
    requires Leaves(SyncProfiles(profiles), id, credential)
    ensures HeldUntil(Sync(s, profiles), id, credential, until)
  {
    var k :| 0 <= k < |profiles| && profiles[k].id == id && profiles[k].credential == credential;
    var b := SyncMakesThePool(s, profiles, k);
    StepPool(s, SyncProfiles(profiles));
    FindAt(Sync(s, profiles), k);
    hide Sync, Find;
  }

  lemma HeldThroughSelection(s: State, r: Request, id: string, credential: Credential, until: nat)
    requires PoolInv(s) && HeldUntil(s, id, credential, until) && s.now < until
    ensures HeldUntil(Select(s, r).0, id, credential, until)
  {
    var i := Find(s.accounts, id);
    var t := Select(s, r).0;
    SelectionKeeps(s, r);
    StepPool(s, SelectFor(r));
    FindAt(t, i);
    assert KeepsStanding(s, s.accounts[i], t.accounts[i]);
    hide Offers, Pick, Admissible, Eligible, Find;
  }

  lemma HeldStep(s: State, e: Event, id: string, credential: Credential, until: nat)
    requires PoolInv(s) && Admitted(e) && HeldUntil(s, id, credential, until) && s.now < until && Leaves(e, id, credential)
    ensures HeldUntil(Step(s, e), id, credential, until) && Step(s, e).now >= s.now
  {
    match e {
      case Tick(_) =>
      case SyncProfiles(profiles) =>
        HeldThroughSync(s, profiles, id, credential, until);
        StickySurvivesIff(s, profiles, None, {});
      case PolicyEdit(allowedIds, pausedIds) =>
        if s.active.Some? {
          HeldThroughInspection(s.(policy := s.policy.(allowedIds := allowedIds, pausedIds := pausedIds)), s.active.value, id, credential, until);
        }
      case SelectFor(r) =>
        HeldThroughSelection(s, r, id, credential, until);
        SelectionKeeps(s, r);
      case MarkExhausted(target, reason, resetAt) =>
        if Addresses(s, target) {
          MarkMeans(s, target, reason, resetAt);
        }
      case ClearFailure(target) =>
        if Addresses(s, target) {
          ClearMeans(s, target);
        }
      case ReplaceCredential(other, given, expected) => ReplaceMeans(s, other, given, expected);
      case IsHandleCurrent(h) => HeldThroughInspection(s, h.id, id, credential, until);
      case CanResendHandle(h) => HeldThroughInspection(s, h.id, id, credential, until);
    }
    hide Sync, Select, Mark, Clear, Replace, Find, UsableId;
  }

  lemma {:induction false} HeldRun(s: State, events: seq<Event>, id: string, credential: Credential, until: nat)
    requires PoolInv(s) && HeldUntil(s, id, credential, until)
    requires forall i :: 0 <= i < |events| ==> Admitted(events[i]) && Leaves(events[i], id, credential)
    ensures PoolInv(Run(s, events)) && (Run(s, events).now < until ==> HeldUntil(Run(s, events), id, credential, until))
    ensures Run(s, events).now < until ==> s.now < until
  {
    hide Step, PoolInv, HeldUntil, Leaves, Admitted;
    if events == [] {
    } else {
      var before, last := events[..|events| - 1], events[|events| - 1];
      HeldRun(s, before, id, credential, until);
      StepPool(Run(s, before), last);
      ClockOnlyAdvances(Run(s, before), last);
      if Run(s, events).now < until {
        HeldStep(Run(s, before), last, id, credential, until);
      }
    }
  }

  lemma ClockOnlyAdvances(s: State, e: Event)
    ensures Step(s, e).now >= s.now
  {
    hide SyncedAccounts, Find, Admissible, Offers, Pick, Eligible;
  }

  /**
   * An account marked until a time is not selected before it, nor is any alias of it, by any
   * run of syncs, selections, policy edits, checks and marks in which it stays in the pool
   * under its credential and is neither cleared nor replaced.
   */
  lemma MarkedIsNotServed(s: State, target: Target, reason: string, until: nat, events: seq<Event>, r: Request)
    requires PoolInv(s) && Addresses(s, target) && until > s.now
    requires forall i :: 0 <= i < |events| ==> Admitted(events[i]) && Leaves(events[i], TargetId(target), Get(s, TargetId(target)).credential)
    ensures var t, id := Run(Step(s, MarkExhausted(target, reason, Some(until))), events), TargetId(target);
            t.now < until ==>
              && Has(t, id)
              && (Select(t, r).1.Some? ==> Select(t, r).1.value.id != id && Select(t, r).1.value.identity != WireIdentity(t.policy, Get(t, id)))
  {
    var id, credential := TargetId(target), Get(s, TargetId(target)).credential;
    MarkMeans(s, target, reason, Some(until));
    HeldRun(Step(s, MarkExhausted(target, reason, Some(until))), events, id, credential, until);
    hide Run, Step, Find, PoolInv, Select, Leaves, Admitted;
    var t := Run(Step(s, MarkExhausted(target, reason, Some(until))), events);
    if t.now < until && Select(t, r).1.Some? {
      HeldIsNotSelected(t, id, credential, until, r);
    }
  }

  lemma HeldIsNotSelected(s: State, id: string, credential: Credential, until: nat, r: Request)
    requires PoolInv(s) && HeldUntil(s, id, credential, until) && s.now < until && Select(s, r).1.Some?
    ensures Select(s, r).1.value.id != id && Select(s, r).1.value.identity != WireIdentity(s.policy, Get(s, id))
  {
    SelectionSound(s, r);
    IdentityIsWire(s.policy, Get(s, id));
    hide Select, Eligible, Find, IdentityOf, WireIdentity;
    var i: nat :| i < |s.accounts| && Eligible(s, r, i) && Select(s, r).1.value == HandleOf(s.policy, s.accounts[i]);
    assert Quarantined(s.accounts[Find(s.accounts, id)], s.now);
    FindAt(s, i);
  }

  lemma IdentityIsWire(p: Policy, a: Account)
    ensures IdentityOf(p, a) == WireIdentity(p, a)
  {
  }

  /** Time passes, and nothing else. */
  lemma TimePasses(s: State, ms: nat)
    ensures Step(s, Tick(ms)) == s.(now := s.now + ms)
  {
  }
}
