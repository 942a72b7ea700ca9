/**
 * The in-memory account scheduler (auth/account-rotator.ts).
 *
 * Accounts carry a credential revision and two generations; a handle is a snapshot of
 * them.  Selection walks the pool cyclically, skips quarantined accounts and all their
 * aliases, and prefers the sticky active account.
 */
module Rotator {
  import opened Util
  import opened Accounts

  datatype Account = Account(
    id: string,
    credential: Credential,
    plan: Option<string>,
    paused: bool,
    order: nat,
    credentialRevision: nat,
    failureGeneration: nat,
    quotaGeneration: nat,
    unknownFailureCount: nat,
    lastUsedAt: Option<nat>,
    lastFailureAt: Option<nat>,
    exhaustedUntil: Option<nat>,
    lastFailureReason: Option<string>)

  datatype Policy = Policy(
    plan: Option<string>,
    provider: Option<Provider>,
    cooldownMs: nat,
    allowedIds: Option<set<string>>,
    pausedIds: set<string>,
    allowPaid: bool)

  datatype State = State(
    policy: Policy,
    now: nat,
    accounts: seq<Account>,
    cursor: nat,
    active: Option<string>,
    lastSelected: Option<string>)

  datatype Handle = Handle(
    id: string,
    credential: Credential,
    credentialRevision: nat,
    failureGeneration: nat,
    quotaGeneration: nat,
    identity: Identity)

  datatype Operation = Inference | Billing | Quota | Async

  datatype Request = Request(excludedIds: set<string>, excludedIdentities: set<Identity>, operation: Operation)

  // ---------------------------------------------------------------------------
  // One account
  // ---------------------------------------------------------------------------

  predicate ValidAccount(a: Account) {
    a.id != "" && !IsBlank(a.credential.apiKey)
  }

  predicate PlanCompatible(p: Policy, a: Account) {
    if p.plan.None? || p.plan.value == "" then true
    else if a.plan.Some? && a.plan != p.plan then false
    else if p.plan.value == START_PLAN then HasText(a.credential.jwt)
    else !IsBlank(a.credential.apiKey)
  }

  predicate IsPaidPlan(a: Account) {
    a.plan != Some("coding-plan") && a.plan != Some(START_PLAN)
  }

  /** Every check of `isUsable` except the quarantine. */
  predicate Admissible(p: Policy, now: nat, a: Account, excludedIds: set<string>, op: Operation) {
    && a.id !in excludedIds
    && ValidAccount(a)
    && (p.allowedIds.Some? ==> a.id in p.allowedIds.value)
    && a.id !in p.pausedIds
    && !a.paused
    && (op != Inference ==> HasText(a.credential.jwt))
    && (p.allowPaid || !IsPaidPlan(a))
    && (p.provider.Some? ==> a.credential.provider == p.provider.value)
    && PlanCompatible(p, a)
    && !IsExpired(a.credential, now)
  }

  predicate Quarantined(a: Account, now: nat) {
    a.exhaustedUntil.Some? && a.exhaustedUntil.value > now
  }

  predicate Usable(p: Policy, now: nat, a: Account, excludedIds: set<string>, op: Operation) {
    Admissible(p, now, a, excludedIds, op) && !Quarantined(a, now)
  }

  /** A reset marker in the past is cleared when a usable account is encountered. */
  function ClearPastMarker(a: Account): Account {
    if a.exhaustedUntil.Some? then a.(exhaustedUntil := None, lastFailureReason := None) else a
  }

  function Inspect(p: Policy, now: nat, a: Account, excludedIds: set<string>, op: Operation): Account {
    if Usable(p, now, a, excludedIds, op) then ClearPastMarker(a) else a
  }

  function IdentityOf(p: Policy, a: Account): Identity {
    EffectiveIdentity(a.credential, if p.plan.Some? then p.plan else a.plan)
  }

  function HandleOf(p: Policy, a: Account): Handle {
    Handle(a.id, a.credential, a.credentialRevision, a.failureGeneration, a.quotaGeneration, IdentityOf(p, a))
  }

  predicate SameHandle(a: Account, h: Handle) {
    && a.id == h.id
    && a.credentialRevision == h.credentialRevision
    && a.failureGeneration == h.failureGeneration
    && a.quotaGeneration == h.quotaGeneration
    && a.credential == h.credential
  }

  /** Position of the first account with this id, or the length of the pool. */
  function Find(accounts: seq<Account>, id: string): (i: nat)
    ensures i <= |accounts|
    ensures i < |accounts| ==> accounts[i].id == id
    ensures forall k :: 0 <= k < i ==> accounts[k].id != id
  {
    if accounts == [] || accounts[0].id == id then 0 else 1 + Find(accounts[1..], id)
  }

  predicate Has(s: State, id: string) {
    Find(s.accounts, id) < |s.accounts|
  }

  function Get(s: State, id: string): Account
    requires Has(s, id)
  {
    s.accounts[Find(s.accounts, id)]
  }

  function Set(s: State, a: Account): State
    requires Has(s, a.id)
  {
    s.(accounts := s.accounts[Find(s.accounts, a.id) := a])
  }

  // ---------------------------------------------------------------------------
  // Selection
  // ---------------------------------------------------------------------------

  /** Identities of the accounts in quarantine: none of their aliases may be served. */
  predicate Blocked(s: State, identity: Identity) {
    exists j :: 0 <= j < |s.accounts| && Quarantined(s.accounts[j], s.now) && IdentityOf(s.policy, s.accounts[j]) == identity
  }

  /** The account at position `i` may serve the request. */
  predicate Eligible(s: State, r: Request, i: nat)
    requires i < |s.accounts|
  {
    var a := s.accounts[i];
    && Usable(s.policy, s.now, a, r.excludedIds, r.operation)
    && !Blocked(s, IdentityOf(s.policy, a))
    && IdentityOf(s.policy, a) !in r.excludedIdentities
  }

  /** The position inspected at step `k` of the cyclic walk. */
  function At(s: State, k: nat): (i: nat)
    requires s.accounts != []
    ensures i < |s.accounts|
  {
    (s.cursor + k) % |s.accounts|
  }

  predicate Positions(s: State, c: seq<nat>) {
    forall j :: 0 <= j < |c| ==> c[j] < |s.accounts|
  }

  /** Positions offered by the first `k` steps, one per effective identity. */
  function Candidates(s: State, r: Request, k: nat): (c: seq<nat>)
    requires s.accounts != []
    ensures Positions(s, c)
  {
    if k == 0 then []
    else
      var before := Candidates(s, r, k - 1);
      var i := At(s, k - 1);
      if Eligible(s, r, i) && !OffersIdentity(s, before, IdentityOf(s.policy, s.accounts[i])) then before + [i]
      else before
  }

  predicate OffersIdentity(s: State, c: seq<nat>, identity: Identity)
    requires Positions(s, c)
  {
    exists j :: 0 <= j < |c| && IdentityOf(s.policy, s.accounts[c[j]]) == identity
  }

  /** The sticky account if it is offered, else the first offer. */
  function Pick(s: State, c: seq<nat>): (i: nat)
    requires c != [] && Positions(s, c)
    ensures i in c && i < |s.accounts|
  {
    var sticky := StickyOffer(s, c);
    if s.active.Some? && sticky < |c| then c[sticky] else c[0]
  }

  /** Index in `c` of the first offer of the active account, or the number of offers. */
  function StickyOffer(s: State, c: seq<nat>): (k: nat)
    requires Positions(s, c)
    ensures k <= |c|
    ensures k < |c| ==> s.active == Some(s.accounts[c[k]].id)
    ensures forall j :: 0 <= j < k ==> s.active != Some(s.accounts[c[j]].id)
  {
    if c == [] || s.active == Some(s.accounts[c[0]].id) then 0 else 1 + StickyOffer(s, c[1..])
  }

  /** The pool after inspecting every account once. */
  function Inspected(s: State, r: Request): seq<Account> {
    seq(|s.accounts|, i requires 0 <= i < |s.accounts| =>
      Inspect(s.policy, s.now, s.accounts[i], r.excludedIds, r.operation))
  }

  function Offers(s: State, r: Request): (c: seq<nat>)
    ensures Positions(s, c)
  {
    if s.accounts == [] then [] else Candidates(s, r, |s.accounts|)
  }

  /** `getCredentialHandle`: `None` stands for NoUsableAccountError. */
  function Select(s: State, r: Request): (State, Option<Handle>) {
    var t := s.(accounts := Inspected(s, r));
    var c := Offers(s, r);
    if c == [] then (t, None)
    else
      var i := Pick(s, c);
      var a := t.accounts[i].(lastUsedAt := Some(s.now));
      var u := t.(accounts := t.accounts[i := a],
                  active := if r.operation == Inference then Some(a.id) else t.active,
                  lastSelected := Some(a.id));
      (u, Some(HandleOf(s.policy, a)))
  }

  // ---------------------------------------------------------------------------
  // Updates
  // ---------------------------------------------------------------------------

  function Clone(p: Profile, order: nat): Account {
    Account(p.id, p.credential, p.plan, p.paused, order,
            if p.credentialRevision.Some? && p.credentialRevision.value > 0 then p.credentialRevision.value else 1,
            p.failureGeneration.GetOr(0), p.quotaGeneration.GetOr(0), 0,
            p.lastUsedAt, p.lastFailureAt, p.exhaustedUntil, p.lastFailureReason)
  }

  /** `syncProfiles` for one account that is already in the pool. */
  function MergeProfile(prior: Account, p: Profile, order: nat): Account {
    var m := Clone(p, order);
    if prior.credential == m.credential then
      m.(unknownFailureCount := prior.unknownFailureCount,
         credentialRevision := Max(prior.credentialRevision, m.credentialRevision),
         failureGeneration := Max(prior.failureGeneration, m.failureGeneration),
         quotaGeneration := Max(prior.quotaGeneration, m.quotaGeneration),
         lastUsedAt := MaxTime(prior.lastUsedAt, m.lastUsedAt),
         lastFailureAt := MaxTime(prior.lastFailureAt, m.lastFailureAt),
         exhaustedUntil := MaxTime(prior.exhaustedUntil, m.exhaustedUntil),
         lastFailureReason :=
           if prior.lastFailureReason.GetOr("") != "" && m.lastFailureReason.GetOr("") == "" then prior.lastFailureReason
           else m.lastFailureReason)
    else
      m.(credentialRevision := Max(m.credentialRevision, prior.credentialRevision + 1),
         failureGeneration := Max(m.failureGeneration, prior.failureGeneration + 1),
         quotaGeneration := Max(m.quotaGeneration, prior.quotaGeneration + 1))
  }

  function SyncOne(s: State, p: Profile, order: nat): Account {
    if Has(s, p.id) then MergeProfile(Get(s, p.id), p, order) else Clone(p, order)
  }

  function SyncedAccounts(s: State, profiles: seq<Profile>): seq<Account> {
    seq(|profiles|, i requires 0 <= i < |profiles| => SyncOne(s, profiles[i], i))
  }

  function InspectId(s: State, id: string): State {
    if Has(s, id) then Set(s, Inspect(s.policy, s.now, Get(s, id), {}, Inference)) else s
  }

  predicate UsableId(s: State, id: string) {
    Has(s, id) && Usable(s.policy, s.now, Get(s, id), {}, Inference)
  }

  function Sync(s: State, profiles: seq<Profile>): State {
    var t := s.(accounts := SyncedAccounts(s, profiles));
    if s.active.Some? && UsableId(t, s.active.value) then InspectId(t, s.active.value)
    else
      t.(active := None,
         lastSelected := if s.active.Some? && Has(t, s.active.value) then t.lastSelected else None,
         cursor := if t.accounts == [] then 0 else Min(t.cursor, |t.accounts| - 1))
  }

  function SetPolicy(s: State, allowedIds: Option<set<string>>, pausedIds: set<string>): State {
    var t := s.(policy := s.policy.(allowedIds := allowedIds, pausedIds := pausedIds));
    if t.active.None? then t
    else if UsableId(t, t.active.value) then InspectId(t, t.active.value)
    else t.(active := None)
  }

  const MAX_COOLDOWN_MS: nat := 15 * 60_000

  function ResetTime(s: State, a: Account, resetAt: Option<nat>): nat {
    if resetAt.Some? && resetAt.value > s.now then resetAt.value
    else s.now + Min(s.policy.cooldownMs * Pow2(Min(a.unknownFailureCount, 4)), MAX_COOLDOWN_MS)
  }

  function MarkedAccount(s: State, a: Account, reason: string, resetAt: Option<nat>): Account {
    a.(unknownFailureCount := if resetAt.Some? && resetAt.value > s.now then 0 else a.unknownFailureCount + 1,
       exhaustedUntil := Some(Max(a.exhaustedUntil.GetOr(0), ResetTime(s, a, resetAt))),
       lastFailureAt := Some(s.now),
       failureGeneration := a.failureGeneration + 1,
       quotaGeneration := a.quotaGeneration + 1,
       lastFailureReason := Some(reason))
  }

  /** A caller names an account by a handle, or by its bare id. */
  datatype Target = ById(id: string) | ByHandle(handle: Handle)

  function TargetId(t: Target): string {
    match t
    case ById(id) => id
    case ByHandle(h) => h.id
  }

  /** The account is in the pool and, for a handle, still in the state it was issued from. */
  predicate Addresses(s: State, t: Target) {
    Has(s, TargetId(t)) && (t.ByHandle? ==> SameHandle(Get(s, TargetId(t)), t.handle))
  }

  function Mark(s: State, t: Target, reason: string, resetAt: Option<nat>): State {
    if !Addresses(s, t) then s
    else
      var a := Get(s, TargetId(t));
      var u := Set(s, MarkedAccount(s, a, reason, resetAt));
      if s.active == Some(a.id) then u.(active := None, cursor := (a.order + 1) % |s.accounts|) else u
  }

  predicate HasFailureMark(a: Account) {
    a.exhaustedUntil.Some? || a.lastFailureAt.Some? || a.lastFailureReason.Some?
  }

  function ClearedAccount(a: Account): Account {
    a.(exhaustedUntil := None, lastFailureAt := None, lastFailureReason := None, unknownFailureCount := 0,
       failureGeneration := a.failureGeneration + if HasFailureMark(a) then 1 else 0)
  }

  function Clear(s: State, t: Target): State {
    if Addresses(s, t) then Set(s, ClearedAccount(Get(s, TargetId(t)))) else s
  }

  function ReplacedAccount(a: Account, credential: Credential): Account {
    a.(credential := credential,
       credentialRevision := a.credentialRevision + 1,
       failureGeneration := a.failureGeneration + 1,
       quotaGeneration := a.quotaGeneration + 1,
       exhaustedUntil := None, lastFailureAt := None, lastFailureReason := None, unknownFailureCount := 0)
  }

  predicate Replaceable(s: State, id: string, credential: Credential, expectedRevision: Option<nat>) {
    && Has(s, id)
    && ValidAccount(Get(s, id).(credential := credential))
    && (expectedRevision.Some? ==> Get(s, id).credentialRevision == expectedRevision.value)
    && Get(s, id).credential != credential
  }

  function Replace(s: State, id: string, credential: Credential, expectedRevision: Option<nat>): State {
    if !Replaceable(s, id, credential, expectedRevision) then s
    else
      var u := Set(s, ReplacedAccount(Get(s, id), credential));
      if s.active == Some(id) then u.(active := None) else u
  }

  /** `isHandleCurrent`: the admission check before transport dispatch. */
  function CheckCurrent(s: State, h: Handle): (State, bool) {
    if Addresses(s, ByHandle(h)) then (InspectId(s, h.id), UsableId(s, h.id)) else (s, false)
  }

  /** Another account of the same identity is in quarantine. */
  predicate AliasBlocked(s: State, h: Handle) {
    exists j :: 0 <= j < |s.accounts| && s.accounts[j].id != h.id
             && Quarantined(s.accounts[j], s.now) && IdentityOf(s.policy, s.accounts[j]) == h.identity
  }

  /** `canResendHandle`: failure generations are deliberately not compared. */
  function CheckResend(s: State, h: Handle): (State, bool) {
    if !Has(s, h.id) then (s, false)
    else
      var a := Get(s, h.id);
      if a.credentialRevision != h.credentialRevision || IdentityOf(s.policy, a) != h.identity || a.credential != h.credential
      then (s, false)
      else (InspectId(s, h.id), UsableId(s, h.id) && !AliasBlocked(s, h))
  }

  datatype Event =
    | Tick(ms: nat)
    | SyncProfiles(profiles: seq<Profile>)
    | PolicyEdit(allowedIds: Option<set<string>>, pausedIds: set<string>)
    | SelectFor(request: Request)
    | MarkExhausted(target: Target, reason: string, resetAt: Option<nat>)
    | ClearFailure(target: Target)
    | ReplaceCredential(id: string, credential: Credential, expectedRevision: Option<nat>)
    | IsHandleCurrent(handle: Handle)
    | CanResendHandle(handle: Handle)

  function Step(s: State, e: Event): State {
    match e
    case Tick(ms) => s.(now := s.now + ms)
    case SyncProfiles(profiles) => Sync(s, profiles)
    case PolicyEdit(allowedIds, pausedIds) => SetPolicy(s, allowedIds, pausedIds)
    case SelectFor(request) => Select(s, request).0
    case MarkExhausted(target, reason, resetAt) => Mark(s, target, reason, resetAt)
    case ClearFailure(target) => Clear(s, target)
    case ReplaceCredential(id, credential, expectedRevision) => Replace(s, id, credential, expectedRevision)
    case IsHandleCurrent(h) => CheckCurrent(s, h).0
    case CanResendHandle(h) => CheckResend(s, h).0
  }

  function Run(s: State, events: seq<Event>): State {
    if events == [] then s
    else Step(Run(s, events[..|events| - 1]), events[|events| - 1])
  }

  function Init(policy: Policy, now: nat, profiles: seq<Profile>): State {
    State(policy, now, seq(|profiles|, i requires 0 <= i < |profiles| => Clone(profiles[i], i)), 0, None, None)
  }

  // ---------------------------------------------------------------------------
  // The pool invariant
  // ---------------------------------------------------------------------------

  ghost predicate PoolInv(s: State) {
    && s.policy.cooldownMs > 0
    && (forall i, j :: 0 <= i < j < |s.accounts| ==> s.accounts[i].id != s.accounts[j].id)
    && (forall i :: 0 <= i < |s.accounts| ==> s.accounts[i].order == i)
  }

  /** What the callers of the rotator guarantee: a sync passes a validated store. */
  ghost predicate Admitted(e: Event) {
    e.SyncProfiles? ==> DistinctIds(e.profiles)
  }

  lemma FindAt(s: State, i: nat)
    requires PoolInv(s) && i < |s.accounts|
    ensures Find(s.accounts, s.accounts[i].id) == i
  {
  }

  lemma SetKeeps(s: State, a: Account)
    requires PoolInv(s) && Has(s, a.id) && a.order == Get(s, a.id).order
    ensures PoolInv(Set(s, a))
    ensures Has(Set(s, a), a.id) && Get(Set(s, a), a.id) == a
    ensures forall id :: id != a.id && Has(s, id) ==> Has(Set(s, a), id) && Get(Set(s, a), id) == Get(s, id)
    ensures forall id :: Has(Set(s, a), id) <==> Has(s, id)
  {
    var t := Set(s, a);
    var i := Find(s.accounts, a.id);
    FindAt(t, i);
    forall id | id != a.id && Has(s, id)
      ensures Has(t, id) && Get(t, id) == Get(s, id)
    {
      var k := Find(s.accounts, id);
      FindAt(t, k);
    }
    forall id ensures Has(t, id) <==> Has(s, id) {
      if Has(t, id) {
        var k := Find(t.accounts, id);
        assert s.accounts[k].id == id;
      }
    }
  }

  lemma MarkPool(s: State, t: Target, reason: string, resetAt: Option<nat>)
    requires PoolInv(s)
    ensures PoolInv(Mark(s, t, reason, resetAt))
  {
    if Addresses(s, t) {
      SetKeeps(s, MarkedAccount(s, Get(s, TargetId(t)), reason, resetAt));
    }
  }

  lemma ClearPool(s: State, t: Target)
    requires PoolInv(s)
    ensures PoolInv(Clear(s, t))
  {
    if Addresses(s, t) {
      SetKeeps(s, ClearedAccount(Get(s, TargetId(t))));
    }
  }

  lemma ReplacePool(s: State, id: string, credential: Credential, expected: Option<nat>)
    requires PoolInv(s)
    ensures PoolInv(Replace(s, id, credential, expected))
  {
    if Replaceable(s, id, credential, expected) {
      SetKeeps(s, ReplacedAccount(Get(s, id), credential));
    }
  }

  lemma StepPool(s: State, e: Event)
    requires PoolInv(s) && Admitted(e)
    ensures PoolInv(Step(s, e))
  {
    match e
    case SyncProfiles(profiles) => SyncPool(s, profiles);
    case PolicyEdit(allowedIds, pausedIds) => SetPolicyPool(s, allowedIds, pausedIds);
    case SelectFor(r) => SelectionKeeps(s, r);
    case MarkExhausted(t, reason, resetAt) => MarkPool(s, t, reason, resetAt);
    case ClearFailure(t) => ClearPool(s, t);
    case ReplaceCredential(id, credential, expected) => ReplacePool(s, id, credential, expected);
    case IsHandleCurrent(h) => InspectIdPool(s, h.id);
    case CanResendHandle(h) => InspectIdPool(s, h.id);
    case _ =>
  }

  lemma InspectIdPool(s: State, id: string)
    requires PoolInv(s)
    ensures PoolInv(InspectId(s, id))
  {
    if Has(s, id) {
      SetKeeps(s, Inspect(s.policy, s.now, Get(s, id), {}, Inference));
    }
  }

  lemma SyncPool(s: State, profiles: seq<Profile>)
    requires PoolInv(s) && DistinctIds(profiles)
    ensures PoolInv(Sync(s, profiles))
  {
    var t := s.(accounts := SyncedAccounts(s, profiles));
    assert PoolInv(t) by {
      assert forall i :: 0 <= i < |profiles| ==> t.accounts[i].id == profiles[i].id;
    }
    if s.active.Some? && UsableId(t, s.active.value) {
      InspectIdPool(t, s.active.value);
    }
  }

  lemma SetPolicyPool(s: State, allowedIds: Option<set<string>>, pausedIds: set<string>)
    requires PoolInv(s)
    ensures PoolInv(SetPolicy(s, allowedIds, pausedIds))
  {
    if s.active.Some? {
      InspectIdPool(s.(policy := s.policy.(allowedIds := allowedIds, pausedIds := pausedIds)), s.active.value);
    }
  }

  // ---------------------------------------------------------------------------
  // The cyclic walk
  // ---------------------------------------------------------------------------

  lemma {:induction false} ModWalk(c: nat, k: nat, n: nat)
    requires n > 0 && k < n
    ensures (c + k) % n == if c % n + k < n then c % n + k else c % n + k - n
  {
    if c >= n {
      ModWalk(c - n, k, n);
      ModMinus(c, n);
      ModMinus(c + k, n);
    } else {
      ModSmall(c, n);
      if c + k < n {
        ModSmall(c + k, n);
      } else {
        ModMinus(c + k, n);
        ModSmall(c + k - n, n);
      }
    }
  }

  lemma ModSmall(x: nat, n: nat)
    requires x < n
    ensures x % n == x
  {
  }

  lemma ModMinus(x: nat, n: nat)
    requires 0 < n <= x
    ensures x % n == (x - n) % n
  {
    var q, r := (x - n) / n, (x - n) % n;
    assert x == (q + 1) * n + r;
    DivUnique(x, n, q + 1, r);
  }

  lemma DivUnique(x: nat, n: nat, q: nat, r: nat)
    requires n > 0 && x == q * n + r && r < n
    ensures x % n == r
  {
    var q', r' := x / n, x % n;
    NoMultipleBetween(q - q', n, r' - r);
  }

  lemma NoMultipleBetween(d: int, n: nat, e: int)
    requires d * n == e && e + n > 0 && e < n
    ensures e == 0
  {
    if d >= 1 {
      MulAtLeast(d, n);
    } else if d <= -1 {
      MulAtLeast(-d, n);
    }
  }

  lemma {:induction false} MulAtLeast(d: nat, n: nat)
    requires d >= 1
    ensures d * n >= n
  {
    if d > 1 {
      MulAtLeast(d - 1, n);
      assert d * n == (d - 1) * n + n;
    }
  }

  /** The step of the walk that visits position `i`. */
  function StepOf(s: State, i: nat): (k: nat)
    requires i < |s.accounts|
    ensures k < |s.accounts|
  {
    var c := s.cursor % |s.accounts|;
    assert 0 <= c < |s.accounts|;
    if i >= c then i - c else i + |s.accounts| - c
  }

  /** The walk visits every position exactly once. */
  lemma WalkIsBijective(s: State, i: nat)
    requires i < |s.accounts|
    ensures At(s, StepOf(s, i)) == i
    ensures StepOf(s, At(s, i)) == i
  {
    ModWalk(s.cursor, StepOf(s, i), |s.accounts|);
    ModWalk(s.cursor, i, |s.accounts|);
  }

  /** Step `j` of the walk is the first to offer the identity it offers. */
  ghost predicate FirstOffer(s: State, r: Request, j: nat)
    requires s.accounts != []
  {
    && Eligible(s, r, At(s, j))
    && forall i: nat :: i < j && Eligible(s, r, At(s, i)) ==>
         IdentityOf(s.policy, s.accounts[At(s, i)]) != IdentityOf(s.policy, s.accounts[At(s, j)])
  }

  /** The candidates are exactly the positions that first offer their identity. */
  ghost predicate CandidatesAre(s: State, r: Request, k: nat, c: seq<nat>)
    requires s.accounts != [] && Positions(s, c)
  {
    && (forall j: nat :: j < k ==> (At(s, j) in c <==> FirstOffer(s, r, j)))
    && (forall x :: 0 <= x < |c| ==> StepOf(s, c[x]) < k && FirstOffer(s, r, StepOf(s, c[x])))
    && (forall j: nat :: j < k && Eligible(s, r, At(s, j)) ==>
          OffersIdentity(s, c, IdentityOf(s.policy, s.accounts[At(s, j)])))
  }

  lemma {:induction false} CandidatesExactly(s: State, r: Request, k: nat)
    requires s.accounts != [] && k <= |s.accounts|
    ensures CandidatesAre(s, r, k, Candidates(s, r, k))
  {
    hide Eligible, At, StepOf, IdentityOf, OffersIdentity, FirstOffer;
    if k == 0 {
      assert Candidates(s, r, 0) == [];
    } else {
      CandidatesExactly(s, r, k - 1);
      var before := Candidates(s, r, k - 1);
      var i := At(s, k - 1);
      if Eligible(s, r, i) && !OffersIdentity(s, before, IdentityOf(s.policy, s.accounts[i])) {
        ExtendCandidates(s, r, k - 1, before);
      } else {
        KeepCandidates(s, r, k - 1, before);
      }
    }
  }

  lemma OffersMore(s: State, c: seq<nat>, i: nat)
    requires Positions(s, c) && i < |s.accounts|
    ensures Positions(s, c + [i])
    ensures forall id :: OffersIdentity(s, c, id) ==> OffersIdentity(s, c + [i], id)
    ensures OffersIdentity(s, c + [i], IdentityOf(s.policy, s.accounts[i]))
  {
    hide IdentityOf;
    var d := c + [i];
    assert d[|c|] == i;
    forall id | OffersIdentity(s, c, id) ensures OffersIdentity(s, d, id) {
      var j :| 0 <= j < |c| && IdentityOf(s.policy, s.accounts[c[j]]) == id;
      assert d[j] == c[j];
    }
  }

  /** A position whose identity is already offered is not a first offer. */
  lemma RepeatedOffer(s: State, r: Request, k: nat, before: seq<nat>, x: nat)
    requires k < |s.accounts| && Positions(s, before) && CandidatesAre(s, r, k, before)
    requires x < |before| && IdentityOf(s.policy, s.accounts[before[x]]) == IdentityOf(s.policy, s.accounts[At(s, k)])
    ensures !FirstOffer(s, r, k)
  {
    hide Eligible, At, StepOf, IdentityOf, OffersIdentity;
    var j := StepOf(s, before[x]);
    WalkIsBijective(s, before[x]);
    assert At(s, j) == before[x] && j < k && FirstOffer(s, r, j);
  }

  /** A position whose identity is not offered yet is a first offer. */
  lemma NewOffer(s: State, r: Request, k: nat, before: seq<nat>)
    requires k < |s.accounts| && Positions(s, before) && CandidatesAre(s, r, k, before)
    requires Eligible(s, r, At(s, k)) && !OffersIdentity(s, before, IdentityOf(s.policy, s.accounts[At(s, k)]))
    ensures FirstOffer(s, r, k)
  {
    hide Eligible, At, StepOf, IdentityOf, OffersIdentity;
    var id := IdentityOf(s.policy, s.accounts[At(s, k)]);
    forall i: nat | i < k && Eligible(s, r, At(s, i))
      ensures IdentityOf(s.policy, s.accounts[At(s, i)]) != id
    {
      assert OffersIdentity(s, before, IdentityOf(s.policy, s.accounts[At(s, i)]));
    }
  }

  lemma NotYetOffered(s: State, r: Request, k: nat, before: seq<nat>)
    requires k < |s.accounts| && Positions(s, before) && CandidatesAre(s, r, k, before)
    ensures At(s, k) !in before
  {
    hide Eligible, At, StepOf, IdentityOf, OffersIdentity, FirstOffer;
    WalkIsBijective(s, k);
    forall x | 0 <= x < |before| ensures before[x] != At(s, k) {
      assert StepOf(s, before[x]) < k;
    }
  }

  /** Step `k` does not extend the offers. */
  lemma KeepCandidates(s: State, r: Request, k: nat, before: seq<nat>)
    requires k < |s.accounts| && Positions(s, before) && CandidatesAre(s, r, k, before)
    requires !Eligible(s, r, At(s, k)) || OffersIdentity(s, before, IdentityOf(s.policy, s.accounts[At(s, k)]))
    ensures CandidatesAre(s, r, k + 1, before)
  {
    NotYetOffered(s, r, k, before);
    NoFirstOffer(s, r, k, before);
    hide Eligible, At, StepOf, IdentityOf, OffersIdentity, FirstOffer;
    forall j: nat | j < k + 1 ensures At(s, j) in before <==> FirstOffer(s, r, j) {
    }
    forall j: nat | j < k + 1 && Eligible(s, r, At(s, j))
      ensures OffersIdentity(s, before, IdentityOf(s.policy, s.accounts[At(s, j)]))
    {
    }
  }

  lemma NoFirstOffer(s: State, r: Request, k: nat, before: seq<nat>)
    requires k < |s.accounts| && Positions(s, before) && CandidatesAre(s, r, k, before)
    requires !Eligible(s, r, At(s, k)) || OffersIdentity(s, before, IdentityOf(s.policy, s.accounts[At(s, k)]))
    ensures !FirstOffer(s, r, k)
  {
    hide Eligible, At, StepOf, IdentityOf;
    if OffersIdentity(s, before, IdentityOf(s.policy, s.accounts[At(s, k)])) {
      var x: nat :| x < |before| && IdentityOf(s.policy, s.accounts[before[x]]) == IdentityOf(s.policy, s.accounts[At(s, k)]);
      RepeatedOffer(s, r, k, before, x);
    }
  }

  /** Step `k` adds its position to the offers. */
  lemma ExtendCandidates(s: State, r: Request, k: nat, before: seq<nat>)
    requires k < |s.accounts| && Positions(s, before) && CandidatesAre(s, r, k, before)
    requires Eligible(s, r, At(s, k)) && !OffersIdentity(s, before, IdentityOf(s.policy, s.accounts[At(s, k)]))
    ensures Positions(s, before + [At(s, k)]) && CandidatesAre(s, r, k + 1, before + [At(s, k)])
  {
    hide Eligible, At, StepOf, IdentityOf, OffersIdentity, FirstOffer;
    var i := At(s, k);
    var after := before + [i];
    NewOffer(s, r, k, before);
    OffersMore(s, before, i);
    WalkIsBijective(s, k);
    forall j: nat | j < k + 1 ensures At(s, j) in after <==> FirstOffer(s, r, j) {
      WalkIsBijective(s, j);
      if j < k {
        assert At(s, j) in before <==> FirstOffer(s, r, j);
        assert At(s, j) != i;
      }
    }
    forall x | 0 <= x < |after| ensures StepOf(s, after[x]) < k + 1 && FirstOffer(s, r, StepOf(s, after[x])) {
      if x < |before| {
        assert after[x] == before[x];
      }
    }
  }

  // ---------------------------------------------------------------------------
  // Selection: sound, complete, sticky
  // ---------------------------------------------------------------------------

  /** An account is returned iff some account is eligible. */
  lemma SelectionComplete(s: State, r: Request)
    ensures Select(s, r).1.Some? <==> exists i: nat :: i < |s.accounts| && Eligible(s, r, i)
  {
    hide Eligible, At, StepOf, IdentityOf;
    if s.accounts != [] {
      var n := |s.accounts|;
      var c := Offers(s, r);
      CandidatesExactly(s, r, n);
      if c != [] {
        assert FirstOffer(s, r, StepOf(s, c[0]));
        WalkIsBijective(s, c[0]);
        assert Eligible(s, r, c[0]);
      }
      if i: nat :| i < n && Eligible(s, r, i) {
        WalkIsBijective(s, i);
        assert Eligible(s, r, At(s, StepOf(s, i)));
        assert OffersIdentity(s, c, IdentityOf(s.policy, s.accounts[At(s, StepOf(s, i))]));
      }
    }
  }

  lemma PickIsEligible(s: State, r: Request)
    requires Offers(s, r) != []
    ensures Eligible(s, r, Pick(s, Offers(s, r)))
  {
    hide Eligible, At, StepOf, IdentityOf;
    var c := Offers(s, r);
    var i := Pick(s, c);
    CandidatesExactly(s, r, |s.accounts|);
    var x :| 0 <= x < |c| && c[x] == i;
    assert FirstOffer(s, r, StepOf(s, c[x]));
    WalkIsBijective(s, i);
  }

  /** The returned handle names an eligible account: usable, not excluded, no alias in quarantine. */
  lemma SelectionSound(s: State, r: Request)
    requires Select(s, r).1.Some?
    ensures var h := Select(s, r).1.value;
            && (exists i: nat :: i < |s.accounts| && Eligible(s, r, i) && h == HandleOf(s.policy, s.accounts[i]))
            && h.id !in r.excludedIds
            && h.identity !in r.excludedIdentities
            && (forall j :: 0 <= j < |s.accounts| && Quarantined(s.accounts[j], s.now) ==>
                  IdentityOf(s.policy, s.accounts[j]) != h.identity)
  {
    PickIsEligible(s, r);
    var i := Pick(s, Offers(s, r));
    assert Select(s, r).1.value == HandleOf(s.policy, s.accounts[i]);
  }

  /** Selection changes no credential, generation or live quarantine, and only inference moves the sticky account. */
  lemma SelectionKeeps(s: State, r: Request)
    ensures var t := Select(s, r).0;
            && |t.accounts| == |s.accounts| && t.cursor == s.cursor && t.policy == s.policy && t.now == s.now
            && (r.operation != Inference ==> t.active == s.active)
            && (forall i :: 0 <= i < |s.accounts| ==> KeepsStanding(s, s.accounts[i], t.accounts[i]))
  {
    hide Eligible, At, StepOf, IdentityOf, Admissible;
    var t := Select(s, r).0;
    forall i | 0 <= i < |s.accounts| ensures KeepsStanding(s, s.accounts[i], t.accounts[i]) {
      InspectKeeps(s, r, s.accounts[i]);
    }
  }

  /** Same credential, generations and position, and in quarantine iff it was. */
  ghost predicate KeepsStanding(s: State, a: Account, b: Account) {
    && b == a.(lastUsedAt := b.lastUsedAt, exhaustedUntil := b.exhaustedUntil, lastFailureReason := b.lastFailureReason)
    && Quarantined(b, s.now) == Quarantined(a, s.now)
  }

  lemma InspectKeeps(s: State, r: Request, a: Account)
    ensures KeepsStanding(s, a, Inspect(s.policy, s.now, a, r.excludedIds, r.operation))
  {
  }

  /** Before position `i` in the walk there is an eligible alias of the account at `i`. */
  ghost predicate EarlierAlias(s: State, r: Request, i: nat)
    requires i < |s.accounts|
  {
    exists j: nat :: j < StepOf(s, i) && Eligible(s, r, At(s, j))
      && IdentityOf(s.policy, s.accounts[At(s, j)]) == IdentityOf(s.policy, s.accounts[i])
  }

  /**
   * Stickiness, exactly: an eligible active account is selected again iff no eligible
   * alias of it comes earlier in the walk.
   */
  lemma StickyIff(s: State, r: Request, i: nat)
    requires PoolInv(s) && i < |s.accounts|
    requires s.active == Some(s.accounts[i].id) && Eligible(s, r, i)
    ensures Select(s, r).1.Some?
    ensures Select(s, r).1.value.id == s.accounts[i].id <==> !EarlierAlias(s, r, i)
  {
    hide Eligible, At, StepOf, IdentityOf;
    var n := |s.accounts|;
    var c := Offers(s, r);
    SelectionComplete(s, r);
    WalkIsBijective(s, i);
    CandidatesExactly(s, r, n);
    var k := StepOf(s, i);
    assert At(s, k) in c <==> FirstOffer(s, r, k);
    assert FirstOffer(s, r, k) <==> !EarlierAlias(s, r, i);
    PickFindsActive(s, c, i);
    assert Select(s, r).1.value.id == s.accounts[Pick(s, c)].id by {
      SelectReturnsPick(s, r);
    }
  }

  lemma SelectReturnsPick(s: State, r: Request)
    requires Offers(s, r) != []
    ensures Select(s, r).1 == Some(HandleOf(s.policy, s.accounts[Pick(s, Offers(s, r))]))
  {
  }

  lemma PickFindsActive(s: State, c: seq<nat>, i: nat)
    requires PoolInv(s) && i < |s.accounts| && s.active == Some(s.accounts[i].id)
    requires c != [] && Positions(s, c)
    ensures s.accounts[Pick(s, c)].id == s.accounts[i].id <==> i in c
  {
    var k := StickyOffer(s, c);
    FindAt(s, i);
    if k < |c| {
      FindAt(s, c[k]);
    }
    FindAt(s, Pick(s, c));
    if i in c {
      var j: nat :| j < |c| && c[j] == i;
    }
  }

  /** With pairwise distinct effective identities the active account is kept while it is eligible. */
  lemma StickyWhenDistinct(s: State, r: Request, i: nat)
    requires PoolInv(s) && i < |s.accounts|
    requires s.active == Some(s.accounts[i].id) && Eligible(s, r, i)
    requires forall j: nat, k: nat :: j < |s.accounts| && k < |s.accounts| && j != k ==>
               IdentityOf(s.policy, s.accounts[j]) != IdentityOf(s.policy, s.accounts[k])
    ensures Select(s, r).1.Some? && Select(s, r).1.value.id == s.accounts[i].id
  {
    hide Eligible, At, StepOf, IdentityOf;
    StickyIff(s, r, i);
    if EarlierAlias(s, r, i) {
      var j: nat :| j < StepOf(s, i) && Eligible(s, r, At(s, j))
        && IdentityOf(s.policy, s.accounts[At(s, j)]) == IdentityOf(s.policy, s.accounts[i]);
      WalkIsBijective(s, j);
      WalkIsBijective(s, i);
    }
  }
}
