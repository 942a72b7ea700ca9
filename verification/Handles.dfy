/**
 * Generations and handles over whole runs of the rotator
 * (auth/account-rotator.ts:132-138, 210-245, 387-446).
 */
module Handles {
  import opened Util
  import opened Accounts
  import opened Rotator

  /** `b` is a later state of account `a`: nothing went down, and a kept revision means a kept credential. */
  ghost predicate Later(a: Account, b: Account) {
    && a.id == b.id
    && a.credentialRevision <= b.credentialRevision
    && a.failureGeneration <= b.failureGeneration
    && a.quotaGeneration <= b.quotaGeneration
    && (a.credentialRevision == b.credentialRevision ==> a.credential == b.credential)
  }

  lemma InspectIdLater(s: State, id: string, other: string)
    requires PoolInv(s) && Has(s, other)
    ensures PoolInv(InspectId(s, id))
    ensures Has(InspectId(s, id), other) && Later(Get(s, other), Get(InspectId(s, id), other))
    ensures forall x :: Has(InspectId(s, id), x) <==> Has(s, x)
  {
    if Has(s, id) {
      SetKeeps(s, Inspect(s.policy, s.now, Get(s, id), {}, Inference));
    }
  }

  lemma SetLater(s: State, a: Account, id: string)
    requires PoolInv(s) && Has(s, id) && Has(s, a.id)
    requires a.order == Get(s, a.id).order && Later(Get(s, a.id), a)
    ensures Has(Set(s, a), id) && Later(Get(s, id), Get(Set(s, a), id))
  {
    SetKeeps(s, a);
  }

  lemma SelectLater(s: State, r: Request, id: string)
    requires PoolInv(s) && Has(s, id)
    ensures var t := Select(s, r).0;
            Has(t, id) && Later(Get(s, id), Get(t, id))
  {
    var t := Select(s, r).0;
    SelectionKeeps(s, r);
    StepPool(s, SelectFor(r));
    var i := Find(s.accounts, id);
    assert KeepsStanding(s, s.accounts[i], t.accounts[i]);
    FindAt(t, i);
  }

  lemma SyncedPool(s: State, profiles: seq<Profile>)
    requires PoolInv(s) && DistinctIds(profiles)
    ensures PoolInv(s.(accounts := SyncedAccounts(s, profiles)))
  {
    var t := s.(accounts := SyncedAccounts(s, profiles));
    assert forall i :: 0 <= i < |profiles| ==> t.accounts[i].id == profiles[i].id;
  }

  lemma MergeLater(prior: Account, p: Profile, order: nat)
    requires prior.id == p.id
    ensures Later(prior, MergeProfile(prior, p, order))
  {
  }

  lemma SyncedLater(s: State, profiles: seq<Profile>, id: string)
    requires Has(s, id) && Has(s.(accounts := SyncedAccounts(s, profiles)), id)
    ensures Later(Get(s, id), Get(s.(accounts := SyncedAccounts(s, profiles)), id))
  {
    var t := s.(accounts := SyncedAccounts(s, profiles));
    var i := Find(t.accounts, id);
    assert t.accounts[i] == SyncOne(s, profiles[i], i);
    MergeLater(Get(s, id), profiles[i], i);
  }

  lemma SyncLater(s: State, profiles: seq<Profile>, id: string)
    requires PoolInv(s) && DistinctIds(profiles) && Has(s, id) && Has(Sync(s, profiles), id)
    ensures Later(Get(s, id), Get(Sync(s, profiles), id))
  {
    hide PoolInv, SyncedAccounts, Find, Usable, InspectId;
    var t := s.(accounts := SyncedAccounts(s, profiles));
    SyncedPool(s, profiles);
    if s.active.Some? && UsableId(t, s.active.value) {
      InspectIdLater(t, s.active.value, s.active.value);
      assert Has(t, id);
      SyncedLater(s, profiles, id);
      InspectIdLater(t, s.active.value, id);
    } else {
      SyncedLater(s, profiles, id);
    }
  }

  lemma PolicyLater(s: State, allowedIds: Option<set<string>>, pausedIds: set<string>, id: string)
    requires PoolInv(s) && Has(s, id)
    ensures var t := SetPolicy(s, allowedIds, pausedIds);
            Has(t, id) && Later(Get(s, id), Get(t, id))
  {
    if s.active.Some? {
      InspectIdLater(s.(policy := s.policy.(allowedIds := allowedIds, pausedIds := pausedIds)), s.active.value, id);
    }
  }

  lemma UpdateLater(s: State, e: Event, id: string)
    requires PoolInv(s) && Has(s, id)
    requires e.MarkExhausted? || e.ClearFailure? || e.ReplaceCredential?
    ensures Has(Step(s, e), id) && Later(Get(s, id), Get(Step(s, e), id))
  {
    hide Find, PoolInv, Pow2;
    match e
    case MarkExhausted(t, reason, resetAt) =>
      if Addresses(s, t) { SetLater(s, MarkedAccount(s, Get(s, TargetId(t)), reason, resetAt), id); }
    case ClearFailure(t) =>
      if Addresses(s, t) { SetLater(s, ClearedAccount(Get(s, TargetId(t))), id); }
    case ReplaceCredential(x, credential, expected) =>
      if Replaceable(s, x, credential, expected) { SetLater(s, ReplacedAccount(Get(s, x), credential), id); }
  }

  /** One operation never lowers a generation, and never swaps a credential under its revision. */
  lemma StepLater(s: State, e: Event, id: string)
    requires PoolInv(s) && Admitted(e) && Has(s, id) && Has(Step(s, e), id)
    ensures Later(Get(s, id), Get(Step(s, e), id))
  {
    match e
    case Tick(_) =>
    case SyncProfiles(profiles) => SyncLater(s, profiles, id);
    case PolicyEdit(allowedIds, pausedIds) => PolicyLater(s, allowedIds, pausedIds, id);
    case SelectFor(r) => SelectLater(s, r, id);
    case MarkExhausted(_, _, _) => UpdateLater(s, e, id);
    case ClearFailure(_) => UpdateLater(s, e, id);
    case ReplaceCredential(_, _, _) => UpdateLater(s, e, id);
    case IsHandleCurrent(h) => InspectIdLater(s, h.id, id);
    case CanResendHandle(h) => InspectIdLater(s, h.id, id);
  }

  /** The account stays in the pool throughout the run, and every sync passes a validated store. */
  ghost predicate Stays(s: State, events: seq<Event>, id: string) {
    && (forall i :: 0 <= i < |events| ==> Admitted(events[i]))
    && (forall i :: 0 <= i <= |events| ==> Has(Run(s, events[..i]), id))
  }

  lemma StaysShorter(s: State, events: seq<Event>, id: string)
    requires Stays(s, events, id) && events != []
    ensures Stays(s, events[..|events| - 1], id)
    ensures Has(Run(s, events), id) && Has(Run(s, events[..|events| - 1]), id) && Has(s, id)
  {
    var init := events[..|events| - 1];
    assert events[..|events|] == events && events[..0] == [];
    forall i | 0 <= i <= |init| ensures Has(Run(s, init[..i]), id) {
      assert init[..i] == events[..i];
    }
  }

  /**
   * While an account stays in the pool, its credential revision and both generations never
   * decrease, and an unchanged revision means an unchanged credential.
   */
  lemma {:induction false} GenerationsNeverDecrease(s: State, events: seq<Event>, id: string)
    requires PoolInv(s) && Stays(s, events, id)
    ensures PoolInv(Run(s, events)) && Has(s, id) && Has(Run(s, events), id)
    ensures Later(Get(s, id), Get(Run(s, events), id))
  {
    hide Step, PoolInv, Find, Admitted;
    if events == [] {
      assert Has(Run(s, events[..0]), id);
    } else {
      StaysShorter(s, events, id);
      var init := events[..|events| - 1];
      GenerationsNeverDecrease(s, init, id);
      StepLater(Run(s, init), events[|events| - 1], id);
      StepPool(Run(s, init), events[|events| - 1]);
    }
  }

  // ---------------------------------------------------------------------------
  // Handles
  // ---------------------------------------------------------------------------

  /** The handle was taken from this account now or earlier. */
  ghost predicate TakenFrom(h: Handle, a: Account) {
    && h.id == a.id
    && h.credentialRevision <= a.credentialRevision
    && h.failureGeneration <= a.failureGeneration
    && h.quotaGeneration <= a.quotaGeneration
    && (h.credentialRevision == a.credentialRevision ==> h.credential == a.credential)
  }

  lemma SelectedAccount(s: State, r: Request) returns (i: nat)
    requires PoolInv(s) && Select(s, r).1.Some?
    ensures var t, h := Select(s, r).0, Select(s, r).1.value;
            && PoolInv(t) && i < |t.accounts| == |s.accounts| && Eligible(s, r, i)
            && h == HandleOf(s.policy, s.accounts[i]) && Find(t.accounts, h.id) == i
            && t.accounts[i] == Inspect(s.policy, s.now, s.accounts[i], r.excludedIds, r.operation).(lastUsedAt := Some(s.now))
            && t.policy == s.policy && t.now == s.now
  {
    var t := Select(s, r).0;
    PickIsEligible(s, r);
    SelectReturnsPick(s, r);
    StepPool(s, SelectFor(r));
    i := Pick(s, Offers(s, r));
    FindAt(t, i);
    hide Eligible, Offers, Pick;
  }

  /** A fresh handle addresses its account and passes the admission check. */
  lemma SelectedHandleIsCurrent(s: State, r: Request)
    requires PoolInv(s) && Select(s, r).1.Some?
    ensures var t := Select(s, r).0;
            var h := Select(s, r).1.value;
            && Addresses(t, ByHandle(h)) && TakenFrom(h, Get(t, h.id))
            && CheckCurrent(t, h).1
  {
    hide Select, IdentityOf;
    var i := SelectedAccount(s, r);
  }

  lemma StaleRemains(s: State, events: seq<Event>, h: Handle)
    requires PoolInv(s) && Stays(s, events, h.id)
    requires Has(s, h.id) && TakenFrom(h, Get(s, h.id)) && !SameHandle(Get(s, h.id), h)
    ensures var t := Run(s, events);
            Has(t, h.id) && TakenFrom(h, Get(t, h.id)) && !SameHandle(Get(t, h.id), h)
  {
    hide PoolInv, Stays, Find, Step;
    GenerationsNeverDecrease(s, events, h.id);
  }

  /** A stale handle stays stale as long as its account stays: it can never change quarantine state again. */
  lemma StaleStaysStale(s: State, events: seq<Event>, h: Handle, reason: string, resetAt: Option<nat>)
    requires PoolInv(s) && Stays(s, events, h.id)
    requires Has(s, h.id) && TakenFrom(h, Get(s, h.id)) && !SameHandle(Get(s, h.id), h)
    ensures var t := Run(s, events);
            && !Addresses(t, ByHandle(h))
            && Mark(t, ByHandle(h), reason, resetAt) == t
            && Clear(t, ByHandle(h)) == t
            && !CheckCurrent(t, h).1
  {
    StaleRemains(s, events, h);
  }

  /** Marking through a handle quarantines the account, never shortens a reset, and spends the handle. */
  lemma MarkSpendsHandle(s: State, h: Handle, reason: string, resetAt: Option<nat>)
    requires PoolInv(s) && Addresses(s, ByHandle(h))
    ensures var t := Mark(s, ByHandle(h), reason, resetAt);
            && Has(t, h.id)
            && Quarantined(Get(t, h.id), t.now)
            && Get(t, h.id).exhaustedUntil.value >= Get(s, h.id).exhaustedUntil.GetOr(0)
            && TakenFrom(h, Get(t, h.id)) && !SameHandle(Get(t, h.id), h)
  {
    var a := MarkedAccount(s, Get(s, h.id), reason, resetAt);
    SetKeeps(s, a);
    CooldownIsPositive(s.policy.cooldownMs, Min(Get(s, h.id).unknownFailureCount, 4));
  }

  lemma CooldownIsPositive(cooldown: nat, n: nat)
    requires cooldown > 0
    ensures cooldown * Pow2(n) > 0
  {
    Pow2Positive(n);
    assert cooldown * Pow2(n) >= 1 * Pow2(n) by {
      MulMonotone(1, cooldown, Pow2(n));
    }
  }

  lemma {:induction false} Pow2Positive(n: nat)
    ensures Pow2(n) >= 1
  {
    if n == 0 {
    } else {
      Pow2Positive(n - 1);
    }
  }

  lemma {:induction false} MulMonotone(a: nat, b: nat, c: nat)
    requires a <= b
    ensures a * c <= b * c
  {
    if c == 0 {
    } else {
      MulMonotone(a, b, c - 1);
    }
  }

  /** However often one handle reports exhaustion while its account stays, it takes effect once. */
  lemma HandleMarksOnce(s: State, h: Handle, reason: string, resetAt: Option<nat>, later: seq<Event>)
    requires PoolInv(s) && Addresses(s, ByHandle(h))
    requires Stays(Mark(s, ByHandle(h), reason, resetAt), later, h.id)
    ensures var t := Run(Mark(s, ByHandle(h), reason, resetAt), later);
            Mark(t, ByHandle(h), reason, resetAt) == t
  {
    MarkSpendsHandle(s, h, reason, resetAt);
    MarkPool(s, ByHandle(h), reason, resetAt);
    StaleStaysStale(Mark(s, ByHandle(h), reason, resetAt), later, h, reason, resetAt);
  }

  // ---------------------------------------------------------------------------
  // Accounts that leave and return
  // ---------------------------------------------------------------------------

  /** The sync brings back an account with this id, which the pool did not have. */
  predicate Returns(s: State, e: Event, id: string) {
    e.SyncProfiles? && !Has(s, id) && exists k :: 0 <= k < |e.profiles| && e.profiles[k].id == id
  }

  /** The returning profile comes back with the generations and the credential of the handle. */
  predicate Revives(s: State, e: Event, h: Handle) {
    && e.SyncProfiles? && !Has(s, h.id)
    && exists k :: 0 <= k < |e.profiles| && e.profiles[k].id == h.id && SameHandle(Clone(e.profiles[k], k), h)
  }

  /** The handle is not current: its account is away, or has moved past it. */
  ghost predicate Stale(s: State, h: Handle) {
    Has(s, h.id) ==> TakenFrom(h, Get(s, h.id)) && !SameHandle(Get(s, h.id), h)
  }

  /** Only a sync can bring an account that the pool does not have. */
  lemma OnlySyncAdds(s: State, e: Event, id: string)
    requires PoolInv(s) && Admitted(e) && !Has(s, id)
    ensures Has(Step(s, e), id) <==> Returns(s, e, id)
  {
    hide Usable, Eligible, Offers, Select, Sync, Find;
    match e
    case Tick(ms) =>
    case SyncProfiles(profiles) => SyncAdds(s, profiles, id);
    case PolicyEdit(allowedIds, pausedIds) =>
      var t := s.(policy := s.policy.(allowedIds := allowedIds, pausedIds := pausedIds));
      if t.active.Some? {
        InspectAddsNobody(t, t.active.value, id);
      }
    case SelectFor(r) => SelectAddsNobody(s, r, id);
    case MarkExhausted(target, reason, resetAt) =>
      if Addresses(s, target) {
        SetKeeps(s, MarkedAccount(s, Get(s, TargetId(target)), reason, resetAt));
      }
    case ClearFailure(target) =>
      if Addresses(s, target) {
        SetKeeps(s, ClearedAccount(Get(s, TargetId(target))));
      }
    case ReplaceCredential(other, credential, expected) =>
      if Has(s, other) {
        SetKeeps(s, ReplacedAccount(Get(s, other), credential));
      }
    case IsHandleCurrent(h) => InspectAddsNobody(s, h.id, id);
    case CanResendHandle(h) => InspectAddsNobody(s, h.id, id);
  }

  lemma InspectAddsNobody(s: State, other: string, id: string)
    requires PoolInv(s)
    ensures Has(InspectId(s, other), id) <==> Has(s, id)
  {
    if Has(s, other) {
      SetKeeps(s, Inspect(s.policy, s.now, Get(s, other), {}, Inference));
    }
  }

  lemma {:induction false} FindNone(accounts: seq<Account>, id: string)
    ensures Find(accounts, id) == |accounts| <==> forall j :: 0 <= j < |accounts| ==> accounts[j].id != id
  {
  }

  lemma SelectAddsNobody(s: State, r: Request, id: string)
    requires !Has(s, id)
    ensures !Has(Select(s, r).0, id)
  {
    hide Offers, Pick, HandleOf, Usable, Find, Has;
    var t := Select(s, r).0;
    assert |t.accounts| == |s.accounts|;
    assert forall j :: 0 <= j < |s.accounts| ==> t.accounts[j].id == s.accounts[j].id;
    HasIff(s, id);
    HasIff(t, id);
  }

  lemma HasIff(s: State, id: string)
    ensures Has(s, id) <==> exists j :: 0 <= j < |s.accounts| && s.accounts[j].id == id
  {
    FindNone(s.accounts, id);
  }

  /** What a sync makes of an id the pool did not have: a clone of the store's profile. */
  lemma SyncAdds(s: State, profiles: seq<Profile>, id: string)
    requires PoolInv(s) && DistinctIds(profiles) && !Has(s, id)
    ensures Has(Sync(s, profiles), id) <==> exists k :: 0 <= k < |profiles| && profiles[k].id == id
    ensures forall k :: 0 <= k < |profiles| && profiles[k].id == id ==> Has(Sync(s, profiles), id) && SameStanding(Get(Sync(s, profiles), id), Clone(profiles[k], k))
  {
    var synced := s.(accounts := SyncedAccounts(s, profiles));
    assert forall k :: 0 <= k < |profiles| ==> synced.accounts[k].id == profiles[k].id;
    SyncedPool(s, profiles);
    FindNone(synced.accounts, id);
    forall k | 0 <= k < |profiles| && profiles[k].id == id
      ensures Has(synced, id) && Get(synced, id) == Clone(profiles[k], k)
    {
      FindAt(synced, k);
    }
    SyncInspects(s, profiles);
    hide Sync, SyncedAccounts, Find;
    if s.active.Some? {
      InspectStanding(synced, s.active.value, id);
    }
  }

  /** Everything a handle is compared with. */
  predicate SameStanding(a: Account, b: Account) {
    && a.id == b.id && a.credential == b.credential && a.credentialRevision == b.credentialRevision
    && a.failureGeneration == b.failureGeneration && a.quotaGeneration == b.quotaGeneration
  }

  lemma SyncInspects(s: State, profiles: seq<Profile>)
    ensures var synced := s.(accounts := SyncedAccounts(s, profiles));
            || Sync(s, profiles).accounts == synced.accounts
            || (s.active.Some? && Sync(s, profiles).accounts == InspectId(synced, s.active.value).accounts)
  {
    hide SyncedAccounts, InspectId;
  }

  lemma InspectStanding(s: State, other: string, id: string)
    requires PoolInv(s)
    ensures Has(InspectId(s, other), id) <==> Has(s, id)
    ensures Has(s, id) ==> SameStanding(Get(InspectId(s, other), id), Get(s, id))
  {
    if Has(s, other) {
      SetKeeps(s, Inspect(s.policy, s.now, Get(s, other), {}, Inference));
    }
  }

  /** A stale handle comes back to life exactly when its account returns just as the handle saw it. */
  lemma RevivedIff(s: State, e: Event, h: Handle)
    requires PoolInv(s) && Admitted(e) && Stale(s, h)
    ensures Addresses(Step(s, e), ByHandle(h)) <==> Revives(s, e, h)
  {
    var t := Step(s, e);
    if Has(s, h.id) {
      if Has(t, h.id) {
        StepLater(s, e, h.id);
      }
    } else {
      OnlySyncAdds(s, e, h.id);
      if e.SyncProfiles? {
        SyncAdds(s, e.profiles, h.id);
      }
    }
  }

  /** In a run no event of which brings the account back, the handle stays stale, whether the account leaves or not. */
  ghost predicate NeverReturns(s: State, events: seq<Event>, id: string) {
    forall i :: 0 <= i < |events| ==> Admitted(events[i]) && !Returns(Run(s, events[..i]), events[i], id)
  }

  lemma {:induction false} StaleUntilReturn(s: State, events: seq<Event>, h: Handle)
    requires PoolInv(s) && Stale(s, h) && NeverReturns(s, events, h.id)
    ensures PoolInv(Run(s, events)) && Stale(Run(s, events), h) && !Addresses(Run(s, events), ByHandle(h))
  {
    hide Step, PoolInv, Find, Returns;
    if events == [] {
      assert Run(s, events) == s;
    } else {
      var last := |events| - 1;
      var before := events[..last];
      assert NeverReturns(s, before, h.id) by {
        forall i | 0 <= i < last ensures Admitted(before[i]) && !Returns(Run(s, before[..i]), before[i], h.id) {
          assert before[..i] == events[..i];
        }
      }
      StaleUntilReturn(s, before, h);
      StepPool(Run(s, before), events[last]);
      StaleStep(Run(s, before), events[last], h);
    }
  }

  lemma StaleStep(s: State, e: Event, h: Handle)
    requires PoolInv(s) && Admitted(e) && Stale(s, h) && !Returns(s, e, h.id)
    ensures Stale(Step(s, e), h)
  {
    if Has(s, h.id) {
      if Has(Step(s, e), h.id) {
        StepLater(s, e, h.id);
      }
    } else {
      OnlySyncAdds(s, e, h.id);
    }
  }

  /** It does happen: an account that is marked, leaves the pool and returns from the store revives the old handle. */
  lemma ReturningAccountRevivesHandle() returns (s: State, h: Handle, events: seq<Event>)
    ensures PoolInv(s) && Has(s, h.id) && TakenFrom(h, Get(s, h.id)) && !SameHandle(Get(s, h.id), h)
    ensures forall i :: 0 <= i < |events| ==> Admitted(events[i])
    ensures Addresses(Run(s, events), ByHandle(h))
  {
    var credential := Credential(Zai, "k", None, None, None, None);
    var p := Profile("a", credential, None, false, None, None, None, None, None, None, None);
    var s0 := Init(Policy(None, None, 60_000, None, {}, true), 0, [p]);
    assert Find(s0.accounts, "a") == 0;
    h := HandleOf(s0.policy, s0.accounts[0]);
    s := Mark(s0, ByHandle(h), "1005", None);
    assert PoolInv(s0);
    MarkSpendsHandle(s0, h, "1005", None);
    MarkPool(s0, ByHandle(h), "1005", None);
    var gone, back := SyncProfiles([]), SyncProfiles([p]);
    events := [gone, back];
    assert events[..1] == [gone] && [gone][..0] == [];
    assert s.active.None?;
    var t := Step(s, gone);
    assert Run(s, [gone]) == t;
    assert t.accounts == [];
    var u := Step(t, back);
    assert Run(s, events) == u;
    assert u.accounts == [Clone(p, 0)];
    assert Addresses(u, ByHandle(h));
  }
}
