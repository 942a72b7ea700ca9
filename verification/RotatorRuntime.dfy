/**
 * The account scheduler in the source's own form: the account array, the cursor and the
 * sticky pointer are fields, updated in place by methods and by the cyclic search loop.
 * Each method is proved to be one operation of module `Rotator`.
 */
module RotatorRuntime {
  import opened Util
  import opened Accounts
  import R = Rotator
  import opened Rotator

  class AccountRotator {
    var policy: Policy
    var now: nat
    var accounts: seq<Account>
    var cursor: nat
    var activeAccountId: Option<string>
    var lastSelectedId: Option<string>

    ghost function State(): R.State
      reads this
    {
      R.State(policy, now, accounts, cursor, activeAccountId, lastSelectedId)
    }

    constructor (policy: Policy, now: nat, profiles: seq<Profile>)
      ensures State() == Init(policy, now, profiles)
    {
      this.policy := policy;
      this.now := now;
      accounts := seq(|profiles|, i requires 0 <= i < |profiles| => Clone(profiles[i], i));
      cursor := 0;
      activeAccountId, lastSelectedId := None, None;
    }

    /** `isUsable`, with its lazy clearing of a reset marker in the past. */
    method IsUsableAt(i: nat, excludedIds: set<string>, op: Operation) returns (usable: bool)
      requires i < |accounts|
      modifies this`accounts
      ensures accounts == old(accounts)[i := Inspect(policy, now, old(accounts)[i], excludedIds, op)]
      ensures usable == Usable(policy, now, old(accounts)[i], excludedIds, op)
    {
      var a := accounts[i];
      if !Admissible(policy, now, a, excludedIds, op) {
        return false;
      }
      if a.exhaustedUntil.Some? && a.exhaustedUntil.value > now {
        return false;
      }
      if a.exhaustedUntil.Some? {
        accounts := accounts[i := a.(exhaustedUntil := None, lastFailureReason := None)];
      }
      return true;
    }

    /** Identities of all accounts in quarantine. */
    method BlockedIdentities() returns (blocked: set<Identity>)
      ensures forall id :: id in blocked <==> Blocked(State(), id)
    {
      blocked := {};
      var i := 0;
      while i < |accounts|
        invariant 0 <= i <= |accounts|
        invariant forall id :: id in blocked <==>
          exists j :: 0 <= j < i && Quarantined(accounts[j], now) && IdentityOf(policy, accounts[j]) == id
      {
        if Quarantined(accounts[i], now) {
          blocked := blocked + {IdentityOf(policy, accounts[i])};
        }
        i := i + 1;
      }
    }

    /** Account `j` after the first `k` steps of the walk. */
    ghost function AfterSteps(s: R.State, r: Request, k: nat, j: nat): Account
      requires j < |s.accounts|
    {
      if StepOf(s, j) < k then Inspect(s.policy, s.now, s.accounts[j], r.excludedIds, r.operation) else s.accounts[j]
    }

    ghost predicate Seen(s: R.State, c: seq<nat>, seen: set<Identity>)
      requires Positions(s, c)
    {
      forall id :: id in seen <==> OffersIdentity(s, c, id)
    }

    /** One step of the walk, at position `i`. */
    method Consider(i: nat, r: Request, blocked: set<Identity>, seen: set<Identity>) returns (offered: bool)
      requires i < |accounts|
      modifies this`accounts
      ensures accounts == old(accounts)[i := Inspect(policy, now, old(accounts)[i], r.excludedIds, r.operation)]
      ensures var id := IdentityOf(policy, old(accounts)[i]);
              offered <==> Usable(policy, now, old(accounts)[i], r.excludedIds, r.operation)
                           && id !in blocked && id !in r.excludedIdentities && id !in seen
    {
      var usable := IsUsableAt(i, r.excludedIds, r.operation);
      if !usable {
        return false;
      }
      var id := IdentityOf(policy, accounts[i]);
      return id !in blocked && id !in r.excludedIdentities && id !in seen;
    }

    /** One round of the cyclic search, from the state `s` in which it began. */
    method Visit(ghost s: R.State, k: nat, r: Request, blocked: set<Identity>, before: seq<nat>, seenBefore: set<Identity>)
        returns (candidates: seq<nat>, seen: set<Identity>)
      requires k < |s.accounts| == |accounts| && State() == s.(accounts := accounts)
      requires before == Candidates(s, r, k) && Seen(s, before, seenBefore)
      requires forall id :: id in blocked <==> Blocked(s, id)
      requires forall j :: 0 <= j < |accounts| ==> accounts[j] == AfterSteps(s, r, k, j)
      modifies this`accounts
      ensures |accounts| == |s.accounts|
      ensures candidates == Candidates(s, r, k + 1) && Seen(s, candidates, seen)
      ensures forall j :: 0 <= j < |accounts| ==> accounts[j] == AfterSteps(s, r, k + 1, j)
    {
      candidates, seen := before, seenBefore;
      var i := (cursor + k) % |accounts|;
      assert i == At(s, k);
      WalkIsBijective(s, k);
      StepAdvances(s, r, k);
      assert accounts[i] == s.accounts[i];
      var offered := Consider(i, r, blocked, seen);
      assert offered <==> Eligible(s, r, i) && !OffersIdentity(s, candidates, IdentityOf(s.policy, s.accounts[i]));
      if offered {
        SeenMore(s, candidates, seen, i);
        seen := seen + {IdentityOf(policy, accounts[i])};
        candidates := candidates + [i];
      }
    }

    /** The cyclic search: every account inspected once, one candidate per identity. */
    method Search(r: Request) returns (candidates: seq<nat>)
      modifies this`accounts
      ensures accounts == Inspected(old(State()), r)
      ensures candidates == Offers(old(State()), r)
    {
      hide Eligible, Inspect, IdentityOf, Blocked, At, StepOf;
      ghost var s := State();
      candidates := [];
      var blocked := BlockedIdentities();
      var seen: set<Identity> := {};
      var total := |accounts|;
      var k := 0;
      if total == 0 {
        return;
      }
      while k < total
        invariant 0 <= k <= total == |s.accounts| == |accounts|
        invariant candidates == Candidates(s, r, k)
        invariant Seen(s, candidates, seen)
        invariant forall j :: 0 <= j < total ==> accounts[j] == AfterSteps(s, r, k, j)
      {
        candidates, seen := Visit(s, k, r, blocked, candidates, seen);
        k := k + 1;
      }
    }

    lemma StepAdvances(s: R.State, r: Request, k: nat)
      requires k < |s.accounts|
      ensures forall j: nat :: j < |s.accounts| ==>
                AfterSteps(s, r, k + 1, j) ==
                  if j == At(s, k) then Inspect(s.policy, s.now, s.accounts[j], r.excludedIds, r.operation)
                  else AfterSteps(s, r, k, j)
      ensures AfterSteps(s, r, k, At(s, k)) == s.accounts[At(s, k)]
    {
      hide Inspect;
      WalkIsBijective(s, k);
      forall j: nat | j < |s.accounts|
        ensures AfterSteps(s, r, k + 1, j) ==
                  if j == At(s, k) then Inspect(s.policy, s.now, s.accounts[j], r.excludedIds, r.operation)
                  else AfterSteps(s, r, k, j)
      {
        WalkIsBijective(s, j);
      }
    }

    lemma SeenMore(s: R.State, c: seq<nat>, seen: set<Identity>, i: nat)
      requires Positions(s, c) && Seen(s, c, seen) && i < |s.accounts|
      ensures Positions(s, c + [i])
      ensures Seen(s, c + [i], seen + {IdentityOf(s.policy, s.accounts[i])})
    {
      hide IdentityOf;
      OffersMore(s, c, i);
      var d := c + [i];
      forall id | OffersIdentity(s, d, id) ensures OffersIdentity(s, c, id) || id == IdentityOf(s.policy, s.accounts[i]) {
        var j :| 0 <= j < |d| && IdentityOf(s.policy, s.accounts[d[j]]) == id;
        if j < |c| {
          assert c[j] == d[j];
        }
      }
    }

    /** `candidates.find(c => c.id === activeAccountId) ?? candidates[0]`. */
    method Prefer(candidates: seq<nat>) returns (i: nat)
      requires candidates != [] && forall j :: 0 <= j < |candidates| ==> candidates[j] < |accounts|
      ensures i == Pick(State(), candidates)
    {
      var k := 0;
      while k < |candidates| && activeAccountId != Some(accounts[candidates[k]].id)
        invariant 0 <= k <= |candidates|
        invariant Positions(State(), candidates[k..])
        invariant StickyOffer(State(), candidates) == k + StickyOffer(State(), candidates[k..])
      {
        assert candidates[k..][1..] == candidates[k + 1..];
        k := k + 1;
      }
      i := if activeAccountId.Some? && k < |candidates| then candidates[k] else candidates[0];
    }

    /** `None` is the NoUsableAccountError. */
    method GetCredentialHandle(r: Request) returns (handle: Option<Handle>)
      modifies this
      ensures (State(), handle) == Select(old(State()), r)
    {
      hide Inspected, Offers, Pick;
      ghost var s := State();
      var candidates := Search(r);
      if candidates == [] {
        return None;
      }
      assert forall j :: 0 <= j < |candidates| ==> candidates[j] < |accounts| by {
        assert Positions(s, candidates);
        InspectedLength(s, r);
      }
      var i := Prefer(candidates);
      PickIgnoresMarkers(s, r, candidates);
      var account := accounts[i].(lastUsedAt := Some(now));
      accounts := accounts[i := account];
      if r.operation == Inference {
        activeAccountId := Some(account.id);
      }
      lastSelectedId := Some(account.id);
      handle := Some(HandleOf(policy, account));
    }

    lemma InspectedLength(s: R.State, r: Request)
      ensures |Inspected(s, r)| == |s.accounts|
    {
    }

    /** Clearing past markers changes no id, so the preference is the same before and after. */
    lemma {:induction false} PickIgnoresMarkers(s: R.State, r: Request, c: seq<nat>)
      requires Positions(s, c)
      ensures Positions(s.(accounts := Inspected(s, r)), c)
      ensures StickyOffer(s.(accounts := Inspected(s, r)), c) == StickyOffer(s, c)
      ensures c != [] ==> Pick(s.(accounts := Inspected(s, r)), c) == Pick(s, c)
    {
      if c == [] {
      } else {
        PickIgnoresMarkers(s, r, c[1..]);
        assert Inspected(s, r)[c[0]].id == s.accounts[c[0]].id;
      }
    }

    /** Whether the account with this id is usable, clearing its past marker. */
    method IsUsableId(id: string) returns (usable: bool)
      modifies this`accounts
      ensures State() == InspectId(old(State()), id)
      ensures usable == UsableId(old(State()), id)
    {
      var i := Find(accounts, id);
      if i == |accounts| {
        return false;
      }
      usable := IsUsableAt(i, {}, Inference);
    }

    method MergeAll(profiles: seq<Profile>)
      modifies this`accounts
      ensures accounts == SyncedAccounts(old(State()), profiles)
    {
      hide MergeProfile;
      ghost var s := State();
      var next: seq<Account> := [];
      var order := 0;
      while order < |profiles|
        invariant 0 <= order <= |profiles|
        invariant next == SyncedAccounts(s, profiles)[..order]
        invariant State() == s
      {
        var profile := profiles[order];
        var i := Find(accounts, profile.id);
        var merged := if i < |accounts| then MergeProfile(accounts[i], profile, order) else Clone(profile, order);
        assert merged == SyncedAccounts(s, profiles)[order];
        next := next + [merged];
        order := order + 1;
      }
      accounts := next;
    }

    method SyncPool(profiles: seq<Profile>)
      modifies this
      ensures State() == Sync(old(State()), profiles)
    {
      hide SyncedAccounts, InspectId, Usable;
      MergeAll(profiles);
      var activeBefore := activeAccountId;
      var usable := false;
      if activeBefore.Some? {
        UnusableUntouched(State(), activeBefore.value);
        usable := IsUsableId(activeBefore.value);
      }
      if !usable {
        activeAccountId := None;
        if activeBefore.None? || Find(accounts, activeBefore.value) == |accounts| {
          lastSelectedId := None;
        }
        cursor := if |accounts| == 0 then 0 else Min(cursor, |accounts| - 1);
      }
    }

    lemma UnusableUntouched(s: R.State, id: string)
      ensures !UsableId(s, id) ==> InspectId(s, id) == s
    {
      if Has(s, id) {
        var i := Find(s.accounts, id);
        assert s.accounts[i := s.accounts[i]] == s.accounts;
      }
    }

    method EditPolicy(allowedIds: Option<set<string>>, pausedIds: set<string>)
      modifies this
      ensures State() == SetPolicy(old(State()), allowedIds, pausedIds)
    {
      policy := policy.(allowedIds := allowedIds, pausedIds := pausedIds);
      if activeAccountId.Some? {
        UnusableUntouched(State(), activeAccountId.value);
        var usable := IsUsableId(activeAccountId.value);
        if !usable {
          activeAccountId := None;
        }
      }
    }

    method MarkAccount(t: Target, reason: string, resetAt: Option<nat>)
      modifies this
      ensures State() == Mark(old(State()), t, reason, resetAt)
    {
      var i := Find(accounts, TargetId(t));
      if i == |accounts| {
        return;
      }
      var a := accounts[i];
      if t.ByHandle? && !SameHandle(a, t.handle) {
        return;
      }
      var explicitReset := resetAt.Some? && resetAt.value > now;
      var requested := if explicitReset then resetAt.value
                       else now + Min(policy.cooldownMs * Pow2(Min(a.unknownFailureCount, 4)), MAX_COOLDOWN_MS);
      accounts := accounts[i := a.(unknownFailureCount := if explicitReset then 0 else a.unknownFailureCount + 1,
                                   exhaustedUntil := Some(Max(a.exhaustedUntil.GetOr(0), requested)),
                                   lastFailureAt := Some(now),
                                   failureGeneration := a.failureGeneration + 1,
                                   quotaGeneration := a.quotaGeneration + 1,
                                   lastFailureReason := Some(reason))];
      if activeAccountId == Some(a.id) {
        activeAccountId := None;
        cursor := (a.order + 1) % |accounts|;
      }
    }

    method ClearAccount(t: Target) returns (changed: bool)
      modifies this
      ensures State() == Clear(old(State()), t)
      ensures changed == (Addresses(old(State()), t) && HasFailureMark(Get(old(State()), TargetId(t))))
    {
      var i := Find(accounts, TargetId(t));
      if i == |accounts| {
        return false;
      }
      var a := accounts[i];
      if t.ByHandle? && !SameHandle(a, t.handle) {
        return false;
      }
      changed := a.exhaustedUntil.Some? || a.lastFailureAt.Some? || a.lastFailureReason.Some?;
      accounts := accounts[i := a.(exhaustedUntil := None, lastFailureAt := None, lastFailureReason := None,
                                   unknownFailureCount := 0,
                                   failureGeneration := a.failureGeneration + if changed then 1 else 0)];
    }

    method ReplaceCredentialOf(id: string, credential: Credential, expectedRevision: Option<nat>) returns (replaced: bool)
      modifies this
      ensures State() == Replace(old(State()), id, credential, expectedRevision)
      ensures replaced == Replaceable(old(State()), id, credential, expectedRevision)
    {
      var i := Find(accounts, id);
      if i == |accounts| {
        return false;
      }
      var a := accounts[i];
      if !ValidAccount(a.(credential := credential))
         || (expectedRevision.Some? && a.credentialRevision != expectedRevision.value)
         || a.credential == credential {
        return false;
      }
      accounts := accounts[i := a.(credential := credential,
                                   credentialRevision := a.credentialRevision + 1,
                                   failureGeneration := a.failureGeneration + 1,
                                   quotaGeneration := a.quotaGeneration + 1,
                                   exhaustedUntil := None, lastFailureAt := None, lastFailureReason := None,
                                   unknownFailureCount := 0)];
      if activeAccountId == Some(id) {
        activeAccountId := None;
      }
      return true;
    }

    method HandleIsCurrent(h: Handle) returns (current: bool)
      modifies this`accounts
      ensures (State(), current) == CheckCurrent(old(State()), h)
    {
      var i := Find(accounts, h.id);
      if i == |accounts| || !SameHandle(accounts[i], h) {
        return false;
      }
      current := IsUsableId(h.id);
    }

    method MayResend(h: Handle) returns (allowed: bool)
      modifies this`accounts
      ensures (State(), allowed) == CheckResend(old(State()), h)
    {
      var i := Find(accounts, h.id);
      if i == |accounts| {
        return false;
      }
      var a := accounts[i];
      if a.credentialRevision != h.credentialRevision || IdentityOf(policy, a) != h.identity || a.credential != h.credential {
        return false;
      }
      var aliasBlocked := AliasInQuarantine(h);
      var usable := IsUsableId(h.id);
      return usable && !aliasBlocked;
    }

    method AliasInQuarantine(h: Handle) returns (blocked: bool)
      ensures blocked == AliasBlocked(State(), h)
    {
      var j := 0;
      while j < |accounts|
        invariant 0 <= j <= |accounts|
        invariant forall k :: 0 <= k < j ==>
          !(accounts[k].id != h.id && Quarantined(accounts[k], now) && IdentityOf(policy, accounts[k]) == h.identity)
      {
        if accounts[j].id != h.id && Quarantined(accounts[j], now) && IdentityOf(policy, accounts[j]) == h.identity {
          return true;
        }
        j := j + 1;
      }
      return false;
    }
  }
}
