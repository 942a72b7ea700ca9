/**
 * What each mutation leaves in the account store (auth/runtime.ts:86-119,
 * auth/account-store.ts:528-655), said of the profiles themselves.
 */
module StoreEffects {
  import opened Util
  import opened Accounts
  import opened AccountStore

  // ---------------------------------------------------------------------------
  // Removing, adding, replacing
  // ---------------------------------------------------------------------------

  /** Somebody is stored under this id. */
  ghost predicate Listed(accounts: seq<Profile>, id: string) {
    exists i :: 0 <= i < |accounts| && accounts[i].id == id
  }

  /** A removal commits exactly if the id is there; what remains is everybody else, in order. */
  lemma RemoveMeans(current: seq<Profile>, id: string, revision: nat, subject: SubjectOracle)
    requires DistinctIds(current)
    ensures var e := Apply(Remove(id), current, revision, subject);
            if !Listed(current, id) then e == NoChange
            else
              && e.Commit? && !Listed(e.accounts, id) && |e.accounts| == |current| - 1
              && (forall k, j :: 0 <= k < j < |current| && current[k].id == id ==> e.accounts[j - 1] == current[j])
              && (forall k, j :: 0 <= j < k < |current| && current[k].id == id ==> e.accounts[j] == current[j])
  {
    var i := IndexOf(current, id);
    if i < |current| {
      var rest := current[..i] + current[i + 1..];
      forall k | 0 <= k < |rest| ensures rest[k].id != id {
        assert rest[k] == current[if k < i then k else k + 1];
      }
      assert forall k :: 0 <= k < |current| && current[k].id == id ==> k == i;
    }
  }

  /** The merged account: what the new profile says, else what was stored, under the next revision or a later one. */
  predicate Replaces(prior: Profile, p: Profile, keepPause: bool, r: Profile) {
    && r.id == p.id && r.credential == p.credential
    && r.paused == (if keepPause then prior.paused else p.paused)
    && r.plan == (if p.plan.Some? then p.plan else prior.plan)
    && r.lastUsedAt == (if p.lastUsedAt.Some? then p.lastUsedAt else prior.lastUsedAt)
    && r.lastFailureAt == (if p.lastFailureAt.Some? then p.lastFailureAt else prior.lastFailureAt)
    && r.exhaustedUntil == (if p.exhaustedUntil.Some? then p.exhaustedUntil else prior.exhaustedUntil)
    && r.lastFailureReason == (if p.lastFailureReason.Some? then p.lastFailureReason else prior.lastFailureReason)
    && r.failureGeneration == (if p.failureGeneration.Some? then p.failureGeneration else prior.failureGeneration)
    && r.quotaGeneration == (if p.quotaGeneration.Some? then p.quotaGeneration else prior.quotaGeneration)
    && r.credentialRevision.Some?
    && var next := if prior.credentialRevision.Some? then prior.credentialRevision.value + 1 else 1;
       && r.credentialRevision.value >= next
       && (p.credentialRevision.Some? ==> r.credentialRevision.value >= p.credentialRevision.value)
       && (r.credentialRevision.value == next || r.credentialRevision == p.credentialRevision)
  }

  /** An account is appended under a new id, replaces the one with its id if that is asked for, and is refused otherwise. */
  lemma AddMeans(current: seq<Profile>, p: Profile, keepPause: bool, replace: bool, revision: nat, subject: SubjectOracle)
    requires DistinctIds(current)
    ensures var e := Apply(Add(p, keepPause, replace), current, revision, subject);
            if !Listed(current, p.id) then e == Commit(current + [p])
            else if !replace then e == Refused
            else
              && e.Commit? && |e.accounts| == |current|
              && forall k :: 0 <= k < |current| ==>
                   if current[k].id == p.id then Replaces(current[k], p, keepPause, e.accounts[k]) else e.accounts[k] == current[k]
  {
    assert forall k :: 0 <= k < |current| && current[k].id == p.id ==> k == IndexOf(current, p.id);
  }

  /** A whole list is written exactly over the revision that was read, if one is named, and only with distinct ids. */
  lemma ReplaceAllMeans(current: seq<Profile>, accounts: seq<Profile>, expected: Option<nat>, revision: nat, subject: SubjectOracle)
    ensures Apply(ReplaceAll(accounts, expected), current, revision, subject) ==
              if (expected.Some? ==> expected.value == revision)
                 && (forall i, j :: 0 <= i < j < |accounts| ==> accounts[i].id != accounts[j].id)
              then Commit(accounts) else Refused
  {
  }

  // ---------------------------------------------------------------------------
  // Logging in
  // ---------------------------------------------------------------------------

  predicate PlansAgree(p: Profile, plan: Option<string>) {
    p.plan.None? || p.plan.value == "" || plan.None? || plan.value == "" || p.plan == plan
  }

  /** What a login sends: the key, with its secret if there is one. */
  function Sent(c: Credential): string {
    if c.secret.Some? && |c.secret.value| > 0 then c.apiKey + "." + c.secret.value else c.apiKey
  }

  /** Two verified user ids decide alone; without them the same key or the same login token does. */
  predicate IsVerified(p: Profile, c: Credential, plan: Option<string>) {
    && p.credential.provider == c.provider && PlansAgree(p, plan)
    && (if HasText(p.credential.userId) && HasText(c.userId) then p.credential.userId == c.userId
        else Sent(p.credential) == Sent(c) || (c.jwt.Some? && |c.jwt.value| > 0 && p.credential.jwt == c.jwt))
  }

  lemma VerifiedIff(p: Profile, c: Credential, plan: Option<string>)
    ensures VerifiedMatch(p, c, plan) <==> IsVerified(p, c, plan)
  {
  }

  /** The user a credential claims: its user id, trimmed, else what its login token says. */
  lemma ClaimIs(c: Credential, subject: SubjectOracle)
    ensures LoginIdentity(c, subject) ==
              if HasText(c.userId) then Some(Trim(c.userId.value))
              else if c.jwt.Some? && c.jwt.value != "" then subject(c.jwt.value)
              else None
    ensures c.userId.Some? ==>
              var t := Trim(c.userId.value);
              && (t != "" ==> !IsWhite(t[0]) && !IsWhite(t[|t| - 1]))
              && exists i, j :: 0 <= i <= j <= |c.userId.value| && t == c.userId.value[i..j] && IsBlank(c.userId.value[..i]) && IsBlank(c.userId.value[j..])
  {
    if c.userId.Some? {
      TrimCuts(c.userId.value);
    }
  }

  lemma {:induction false} TrimLeftCuts(s: string) returns (i: nat)
    ensures i <= |s| && TrimLeft(s) == s[i..] && IsBlank(s[..i]) && (TrimLeft(s) != "" ==> !IsWhite(TrimLeft(s)[0]))
  {
    if s == "" || !IsWhite(s[0]) {
      i := 0;
    } else {
      var j := TrimLeftCuts(s[1..]);
      i := j + 1;
      assert s[1..][j..] == s[i..];
      forall k | 0 <= k < i ensures IsWhite(s[..i][k]) {
        if k > 0 {
          assert s[1..][..j][k - 1] == s[k];
        }
      }
    }
  }

  lemma {:induction false} TrimRightCuts(s: string) returns (j: nat)
    ensures j <= |s| && TrimRight(s) == s[..j] && IsBlank(s[j..]) && (TrimRight(s) != "" ==> !IsWhite(TrimRight(s)[|TrimRight(s)| - 1]))
  {
    if s == "" || !IsWhite(s[|s| - 1]) {
      j := |s|;
    } else {
      j := TrimRightCuts(s[..|s| - 1]);
      assert s[..|s| - 1][..j] == s[..j];
      forall k | 0 <= k < |s| - j ensures IsWhite(s[j..][k]) {
        if k < |s| - 1 - j {
          assert s[..|s| - 1][j..][k] == s[j + k];
        }
      }
    }
  }

  lemma TrimCuts(s: string)
    ensures var t := Trim(s);
            && (t != "" ==> !IsWhite(t[0]) && !IsWhite(t[|t| - 1]))
            && exists i, j :: 0 <= i <= j <= |s| && t == s[i..j] && IsBlank(s[..i]) && IsBlank(s[j..])
  {
    var i := TrimLeftCuts(s);
    var j := TrimRightCuts(s[i..]);
    assert s[i..][..j] == s[i..i + j] && s[i..][j..] == s[i + j..];
    assert Trim(s) != "" ==> Trim(s)[0] == s[i..][0];
    hide IsBlank, IsWhite, TrimLeft, TrimRight;
    assert 0 <= i <= i + j <= |s| && Trim(s) == s[i..i + j];
  }

  /** The stored profile claims to be the same user, but cannot be verified by user ids. */
  predicate MayBe(p: Profile, c: Credential, plan: Option<string>, subject: SubjectOracle) {
    && p.credential.provider == c.provider && PlansAgree(p, plan)
    && !(HasText(p.credential.userId) && HasText(c.userId))
    && LoginIdentity(p.credential, subject) == LoginIdentity(c, subject)
  }

  /** The profile with its login refreshed: settings and quota stay, the revision moves on. */
  function WithLogin(p: Profile, c: Credential): Profile {
    p.(credential := c.(userId := if c.userId.Some? then c.userId else p.credential.userId),
       credentialRevision := Some((if p.credentialRevision.Some? then p.credentialRevision.value else 1) + 1))
  }

  /**
   * A login refreshes the first profile it is verified against, unless it says nothing new;
   * it is refused if it merely may be somebody stored; otherwise it is a new account.
   */
  lemma RememberMeans(current: seq<Profile>, c: Credential, plan: Option<string>, revision: nat, subject: SubjectOracle) returns (i: nat)
    ensures i <= |current| && (i < |current| ==> IsVerified(current[i], c, plan)) && forall k :: 0 <= k < i ==> !IsVerified(current[k], c, plan)
    ensures var e := Apply(Remember(c, plan), current, revision, subject);
            if i < |current| then
              if WithLogin(current[i], c).credential == current[i].credential then e == NoChange
              else e == Commit(current[i := WithLogin(current[i], c)])
            else if LoginIdentity(c, subject).Some? && exists k :: 0 <= k < |current| && MayBe(current[k], c, plan, subject) then e == Refused
            else e == Commit(current + [NewLogin(current, c, plan)])
    ensures var added := NewLogin(current, c, plan);
            added == Profile(added.id, c, plan, false, Some(1), None, None, None, None, None, None)
  {
    forall p: Profile
      ensures VerifiedMatch(p, c, plan) <==> IsVerified(p, c, plan)
      ensures PossibleMatch(p, c, plan, subject) <==> MayBe(p, c, plan, subject)
    {
      VerifiedIff(p, c, plan);
      PossibleIff(p, c, plan, subject);
    }
    hide VerifiedMatch, IsVerified, PossibleMatch, MayBe, LoginIdentity, AutoId, FirstFree;
    i := FirstVerified(current, c, plan);
  }

  lemma PossibleIff(p: Profile, c: Credential, plan: Option<string>, subject: SubjectOracle)
    ensures PossibleMatch(p, c, plan, subject) <==> MayBe(p, c, plan, subject)
  {
    hide LoginIdentity;
  }

  /** Its id is the provider's name and the smallest number whose id is free, in decimal. */
  lemma NewIdIs(current: seq<Profile>, c: Credential, plan: Option<string>) returns (n: nat)
    ensures n >= 1 && NewLogin(current, c, plan).id == (if c.provider == Zai then "zai-" else "bigmodel-") + Decimal(n)
    ensures DecimalValue(Decimal(n)) == n && Listed(current, NewLogin(current, c, plan).id) == false
    ensures forall k :: 1 <= k < n ==> Listed(current, (if c.provider == Zai then "zai-" else "bigmodel-") + Decimal(k))
  {
    n := FirstFree(current, c.provider, 1);
    FirstFreeFrom(current, c.provider, 1);
    DecimalRoundTrip(n);
    NewLoginIsFresh(current, c, plan);
    forall k | 1 <= k < n ensures Listed(current, (if c.provider == Zai then "zai-" else "bigmodel-") + Decimal(k)) {
      assert current[IndexOf(current, AutoId(c.provider, k))].id == AutoId(c.provider, k);
    }
  }

  // ---------------------------------------------------------------------------
  // The persist pass
  // ---------------------------------------------------------------------------

  /** The later of two times, of which an absent one is zero; zero is absent. */
  predicate Later(a: Option<nat>, b: Option<nat>, r: Option<nat>) {
    && (r.None? <==> (a.None? || a.value == 0) && (b.None? || b.value == 0))
    && (r.Some? ==> r == a || r == b)
    && (r.Some? && a.Some? ==> r.value >= a.value) && (r.Some? && b.Some? ==> r.value >= b.value)
  }

  /** The stored profile with a snapshot's metadata: the later times, the higher generations, and the newer failure's reason. */
  predicate Merges(a: Profile, r: Profile, m: Profile) {
    && m.id == a.id && m.credential == a.credential && m.plan == a.plan && m.paused == a.paused
    && Later(a.lastUsedAt, r.lastUsedAt, m.lastUsedAt)
    && Later(a.lastFailureAt, r.lastFailureAt, m.lastFailureAt)
    && Later(a.exhaustedUntil, r.exhaustedUntil, m.exhaustedUntil)
    && m.failureGeneration == Some(if r.failureGeneration.GetOr(0) > a.failureGeneration.GetOr(0) then r.failureGeneration.GetOr(0) else a.failureGeneration.GetOr(0))
    && m.quotaGeneration == Some(if r.quotaGeneration.GetOr(0) > a.quotaGeneration.GetOr(0) then r.quotaGeneration.GetOr(0) else a.quotaGeneration.GetOr(0))
    && m.credentialRevision == (if a.credentialRevision.Some? then a.credentialRevision else r.credentialRevision)
    && m.lastFailureReason ==
         if r.lastFailureReason.Some?
            && (r.failureGeneration.GetOr(0) > a.failureGeneration.GetOr(0)
                || (r.failureGeneration.GetOr(0) == a.failureGeneration.GetOr(0) && r.lastFailureAt.GetOr(0) >= a.lastFailureAt.GetOr(0)))
         then r.lastFailureReason else a.lastFailureReason
  }

  /**
   * A persist pass always commits: a stored profile takes over what the last snapshot entry
   * under its id says, if that was taken under its credential and its revision, and is
   * untouched otherwise.
   */
  lemma PersistMeans(current: seq<Profile>, snapshot: seq<Profile>, revision: nat, subject: SubjectOracle, i: nat)
    requires i < |current|
    ensures var e := Apply(PersistRuntime(snapshot), current, revision, subject);
            && e.Commit? && |e.accounts| == |current|
            && if exists k :: 0 <= k < |snapshot| && snapshot[k].id == current[i].id then
                 exists k :: && 0 <= k < |snapshot| && snapshot[k].id == current[i].id
                   && (forall j :: k < j < |snapshot| ==> snapshot[j].id != current[i].id)
                   && if snapshot[k].credential == current[i].credential
                         && (snapshot[k].credentialRevision.None? || current[i].credentialRevision.None? || snapshot[k].credentialRevision == current[i].credentialRevision)
                      then Merges(current[i], snapshot[k], e.accounts[i])
                      else e.accounts[i] == current[i]
               else e.accounts[i] == current[i]
  {
    if exists k :: 0 <= k < |snapshot| && snapshot[k].id == current[i].id {
      var k := LastEntry(snapshot, current[i].id);
      MergeMeans(current[i], snapshot[k]);
    }
    hide MergeOne, Merges;
  }

  lemma {:induction false} LastEntry(snapshot: seq<Profile>, id: string) returns (k: nat)
    requires exists k :: 0 <= k < |snapshot| && snapshot[k].id == id
    ensures k < |snapshot| && snapshot[k].id == id && FindLast(snapshot, id) == Some(snapshot[k])
    ensures forall j :: k < j < |snapshot| ==> snapshot[j].id != id
  {
    var last := |snapshot| - 1;
    if snapshot[last].id == id {
      k := last;
    } else {
      assert forall j :: 0 <= j < last ==> snapshot[..last][j] == snapshot[j];
      k := LastEntry(snapshot[..last], id);
    }
  }

  lemma MaxTimeIsLater(a: Option<nat>, b: Option<nat>)
    ensures Later(a, b, MaxTime(a, b))
  {
  }

  lemma MergeMeans(a: Profile, r: Profile)
    ensures if r.credential == a.credential
               && (r.credentialRevision.None? || a.credentialRevision.None? || r.credentialRevision == a.credentialRevision)
            then Merges(a, r, MergeOne(a, r)) else MergeOne(a, r) == a
  {
    MaxTimeIsLater(a.lastUsedAt, r.lastUsedAt);
    MaxTimeIsLater(a.lastFailureAt, r.lastFailureAt);
    MaxTimeIsLater(a.exhaustedUntil, r.exhaustedUntil);
    hide MaxTime, Later;
  }
}
