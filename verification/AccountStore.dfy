/**
 * What a mutation of the account store does to the list of profiles
 * (auth/runtime.ts:86-119, auth/account-store.ts:528-655).
 */
module AccountStore {
  import opened Util
  import opened Accounts

  // ---------------------------------------------------------------------------
  // The runtime persist pass: a join of metadata
  // ---------------------------------------------------------------------------

  /** The snapshot was taken under the credential the store still holds. */
  predicate SameLogin(a: Profile, r: Profile) {
    && (r.credentialRevision.Some? && a.credentialRevision.Some? ==> r.credentialRevision == a.credentialRevision)
    && r.credential == a.credential
  }

  function MergeReason(a: Profile, r: Profile): Option<string> {
    var ag, rg := a.failureGeneration.GetOr(0), r.failureGeneration.GetOr(0);
    var at, rt := a.lastFailureAt.GetOr(0), r.lastFailureAt.GetOr(0);
    if (rg > ag || (rg == ag && rt >= at)) && r.lastFailureReason.Some? then r.lastFailureReason
    else a.lastFailureReason
  }

  /** The authoritative profile `a` with the runtime metadata `r` merged in. */
  function MergeOne(a: Profile, r: Profile): Profile {
    if !SameLogin(a, r) then a
    else
      a.(lastUsedAt := MaxTime(a.lastUsedAt, r.lastUsedAt),
         lastFailureAt := MaxTime(a.lastFailureAt, r.lastFailureAt),
         exhaustedUntil := MaxTime(a.exhaustedUntil, r.exhaustedUntil),
         lastFailureReason := MergeReason(a, r),
         failureGeneration := Some(Max(a.failureGeneration.GetOr(0), r.failureGeneration.GetOr(0))),
         quotaGeneration := Some(Max(a.quotaGeneration.GetOr(0), r.quotaGeneration.GetOr(0))),
         credentialRevision := if a.credentialRevision.Some? then a.credentialRevision else r.credentialRevision)
  }

  /** Position of the profile with this id, or the length of the list. */
  function IndexOf(accounts: seq<Profile>, id: string): (i: nat)
    ensures i <= |accounts|
    ensures i < |accounts| ==> accounts[i].id == id
    ensures forall k :: 0 <= k < i ==> accounts[k].id != id
  {
    if accounts == [] || accounts[0].id == id then 0 else 1 + IndexOf(accounts[1..], id)
  }

  /** The snapshot's profile with this id; a map keyed by id keeps the last one. */
  function FindLast(snapshot: seq<Profile>, id: string): (r: Option<Profile>)
    ensures r.Some? ==> r.value.id == id && r.value in snapshot
    ensures r.None? ==> forall k :: 0 <= k < |snapshot| ==> snapshot[k].id != id
  {
    if snapshot == [] then None
    else if snapshot[|snapshot| - 1].id == id then Some(snapshot[|snapshot| - 1])
    else FindLast(snapshot[..|snapshot| - 1], id)
  }

  function MergeFrom(a: Profile, snapshot: seq<Profile>): Profile {
    match FindLast(snapshot, a.id)
    case Some(r) => MergeOne(a, r)
    case None => a
  }

  function MergeAll(current: seq<Profile>, snapshot: seq<Profile>): (r: seq<Profile>)
    ensures |r| == |current|
    ensures forall i :: 0 <= i < |current| ==> r[i] == MergeFrom(current[i], snapshot)
  {
    seq(|current|, i requires 0 <= i < |current| => MergeFrom(current[i], snapshot))
  }

  /** Nothing administrative differs. */
  predicate SameAdministration(a: Profile, b: Profile) {
    a.id == b.id && a.credential == b.credential && a.plan == b.plan && a.paused == b.paused
  }

  predicate AtMost(a: Profile, b: Profile) {
    && a.lastUsedAt.GetOr(0) <= b.lastUsedAt.GetOr(0)
    && a.lastFailureAt.GetOr(0) <= b.lastFailureAt.GetOr(0)
    && a.exhaustedUntil.GetOr(0) <= b.exhaustedUntil.GetOr(0)
    && a.failureGeneration.GetOr(0) <= b.failureGeneration.GetOr(0)
    && a.quotaGeneration.GetOr(0) <= b.quotaGeneration.GetOr(0)
  }

  /**
   * A persist pass keeps ids, order, credentials, plans and pauses, never lowers a
   * generation or a time, and never changes a stored credential revision.
   */
  lemma PersistKeeps(current: seq<Profile>, snapshot: seq<Profile>)
    ensures var r := MergeAll(current, snapshot);
            && |r| == |current|
            && (DistinctIds(current) ==> DistinctIds(r))
            && forall i :: 0 <= i < |current| ==>
                 && SameAdministration(current[i], r[i])
                 && AtMost(current[i], r[i])
                 && (current[i].credentialRevision.Some? ==> r[i].credentialRevision == current[i].credentialRevision)
                 && (current[i].lastFailureReason.Some? ==> r[i].lastFailureReason.Some?)
  {
  }

  /** The merged metadata is the least upper bound of store and snapshot. */
  lemma MergeIsJoin(a: Profile, r: Profile, bound: Profile)
    requires SameLogin(a, r)
    ensures AtMost(a, MergeOne(a, r)) && AtMost(r, MergeOne(a, r))
    ensures AtMost(a, bound) && AtMost(r, bound) ==> AtMost(MergeOne(a, r), bound)
  {
  }

  /** Applying one snapshot twice equals applying it once. */
  lemma PersistIdempotent(current: seq<Profile>, snapshot: seq<Profile>)
    ensures MergeAll(MergeAll(current, snapshot), snapshot) == MergeAll(current, snapshot)
  {
    var once := MergeAll(current, snapshot);
    forall i | 0 <= i < |current| ensures MergeFrom(once[i], snapshot) == once[i] {
      var r := FindLast(snapshot, current[i].id);
      if r.Some? {
        MergeOneIdempotent(current[i], r.value);
      }
    }
  }

  lemma MergeOneIdempotent(a: Profile, r: Profile)
    ensures MergeOne(MergeOne(a, r), r) == MergeOne(a, r)
  {
  }

  /**
   * Two snapshots may be merged in either order, up to the failure label, unless the profile
   * is stored without a credential revision and they carry different ones: it adopts the
   * first, which shuts out the other.
   */
  lemma PassesCommuteIff(a: Profile, r: Profile, q: Profile)
    ensures MergeOne(MergeOne(a, r), q).(lastFailureReason := None) == MergeOne(MergeOne(a, q), r).(lastFailureReason := None)
            <==> !(a.credentialRevision.None? && r.credential == a.credential && q.credential == a.credential
                   && r.credentialRevision.Some? && q.credentialRevision.Some? && r.credentialRevision != q.credentialRevision)
  {
    hide MergeReason;
  }

  /** The store's profile after these snapshots of it were merged in, one pass each. */
  function MergeEach(a: Profile, snapshots: seq<Profile>): Profile {
    if snapshots == [] then a
    else MergeOne(MergeEach(a, snapshots[..|snapshots| - 1]), snapshots[|snapshots| - 1])
  }

  /** The stored revision, or else that of the first snapshot of this credential that has one. */
  function FirstStamp(a: Profile, snapshots: seq<Profile>): Option<nat> {
    if snapshots == [] then a.credentialRevision
    else
      var last := snapshots[|snapshots| - 1];
      var before := FirstStamp(a, snapshots[..|snapshots| - 1]);
      if before.Some? then before else if last.credential == a.credential then last.credentialRevision else None
  }

  /** The profile under the revision the passes leave it with. */
  function Stamped(a: Profile, snapshots: seq<Profile>): Profile {
    a.(credentialRevision := FirstStamp(a, snapshots))
  }

  /** The metadata of `b` is at least that of `a` and of every snapshot taken under its login. */
  ghost predicate BoundsAll(a: Profile, snapshots: seq<Profile>, b: Profile) {
    && AtMost(a, b)
    && forall k :: 0 <= k < |snapshots| && SameLogin(Stamped(a, snapshots), snapshots[k]) ==> AtMost(snapshots[k], b)
  }

  lemma {:induction false} Unstamped(a: Profile, snapshots: seq<Profile>, k: nat)
    requires FirstStamp(a, snapshots).None? && k < |snapshots| && snapshots[k].credential == a.credential
    ensures snapshots[k].credentialRevision.None?
  {
    var last := |snapshots| - 1;
    if k < last {
      Unstamped(a, snapshots[..last], k);
    }
  }

  /** The last snapshot can stamp a profile only if all earlier ones of its login carry no revision. */
  lemma StampKeepsLogins(a: Profile, snapshots: seq<Profile>, k: nat)
    requires snapshots != [] && k < |snapshots| - 1
    ensures SameLogin(Stamped(a, snapshots), snapshots[k]) <==> SameLogin(Stamped(a, snapshots[..|snapshots| - 1]), snapshots[k])
  {
    var before := snapshots[..|snapshots| - 1];
    if FirstStamp(a, before).None? && snapshots[k].credential == a.credential {
      Unstamped(a, before, k);
    }
  }

  /**
   * After any run of persist passes the stored metadata is the least that bounds the store
   * and every snapshot taken under its login; login, plan and pause are untouched.
   */
  lemma {:induction false} PassesAreSupremum(a: Profile, snapshots: seq<Profile>, bound: Profile)
    ensures var m := MergeEach(a, snapshots);
            && SameAdministration(a, m) && m.credentialRevision == FirstStamp(a, snapshots)
            && BoundsAll(a, snapshots, m)
            && (BoundsAll(a, snapshots, bound) ==> AtMost(m, bound))
  {
    if snapshots == [] {
      assert MergeEach(a, snapshots) == a;
    } else {
      var last := |snapshots| - 1;
      var before := snapshots[..last];
      PassesAreSupremum(a, before, bound);
      forall k | 0 <= k < last
        ensures SameLogin(Stamped(a, snapshots), snapshots[k]) <==> SameLogin(Stamped(a, before), before[k])
      {
        StampKeepsLogins(a, snapshots, k);
      }
      LastPass(a, snapshots, MergeEach(a, before), bound);
    }
  }

  /** One more pass, from the supremum of the passes before it. */
  lemma LastPass(a: Profile, snapshots: seq<Profile>, m: Profile, bound: Profile)
    requires snapshots != []
    requires var before := snapshots[..|snapshots| - 1];
             && SameAdministration(a, m) && m.credentialRevision == FirstStamp(a, before)
             && BoundsAll(a, before, m) && (BoundsAll(a, before, bound) ==> AtMost(m, bound))
             && forall k :: 0 <= k < |before| ==>
                  (SameLogin(Stamped(a, snapshots), snapshots[k]) <==> SameLogin(Stamped(a, before), before[k]))
    ensures var n := MergeOne(m, snapshots[|snapshots| - 1]);
            && SameAdministration(a, n) && n.credentialRevision == FirstStamp(a, snapshots)
            && BoundsAll(a, snapshots, n)
            && (BoundsAll(a, snapshots, bound) ==> AtMost(n, bound))
  {
    hide MergeReason;
    var last := |snapshots| - 1;
    var before := snapshots[..last];
    var n := MergeOne(m, snapshots[last]);
    assert SameLogin(m, snapshots[last]) <==> SameLogin(Stamped(a, snapshots), snapshots[last]);
    assert AtMost(m, n);
    forall k | 0 <= k < last && SameLogin(Stamped(a, snapshots), snapshots[k]) ensures AtMost(snapshots[k], n) {
      assert AtMost(before[k], m);
    }
    if BoundsAll(a, snapshots, bound) {
      forall k | 0 <= k < last && SameLogin(Stamped(a, before), before[k]) ensures AtMost(before[k], bound) {
        assert AtMost(snapshots[k], bound);
      }
      assert BoundsAll(a, before, bound);
    }
  }

  /** One revision and one metadata. */
  ghost predicate SameMetadata(a: Profile, b: Profile) {
    AtMost(a, b) && AtMost(b, a) && a.credentialRevision == b.credentialRevision
  }

  /**
   * Of runs of passes over one set of snapshots neither the order nor the repetitions
   * matter, exactly when they leave the profile under one revision.
   */
  lemma PassesAgreeIff(a: Profile, xs: seq<Profile>, ys: seq<Profile>)
    requires forall r :: r in xs <==> r in ys
    ensures SameMetadata(MergeEach(a, xs), MergeEach(a, ys)) <==> FirstStamp(a, xs) == FirstStamp(a, ys)
    ensures a.credentialRevision.Some? ==> SameMetadata(MergeEach(a, xs), MergeEach(a, ys))
  {
    hide MergeEach, FirstStamp;
    var m, n := MergeEach(a, xs), MergeEach(a, ys);
    PassesAreSupremum(a, xs, n);
    PassesAreSupremum(a, ys, m);
    if FirstStamp(a, xs) == FirstStamp(a, ys) {
      SetIsBounded(a, xs, ys, n);
      SetIsBounded(a, ys, xs, m);
    }
    if a.credentialRevision.Some? {
      StoredStampStays(a, xs);
      StoredStampStays(a, ys);
      SetIsBounded(a, xs, ys, n);
      SetIsBounded(a, ys, xs, m);
    }
  }

  lemma SetIsBounded(a: Profile, xs: seq<Profile>, ys: seq<Profile>, b: Profile)
    requires FirstStamp(a, xs) == FirstStamp(a, ys) && BoundsAll(a, ys, b)
    requires forall r :: r in xs ==> r in ys
    ensures BoundsAll(a, xs, b)
  {
    hide FirstStamp, AtMost;
    forall k | 0 <= k < |xs| && SameLogin(Stamped(a, xs), xs[k]) ensures AtMost(xs[k], b) {
      assert xs[k] in ys;
      var j :| 0 <= j < |ys| && ys[j] == xs[k];
    }
  }

  lemma {:induction false} StoredStampStays(a: Profile, snapshots: seq<Profile>)
    requires a.credentialRevision.Some?
    ensures FirstStamp(a, snapshots) == a.credentialRevision
  {
    if snapshots == [] {
      assert FirstStamp(a, snapshots) == a.credentialRevision;
    } else {
      StoredStampStays(a, snapshots[..|snapshots| - 1]);
    }
  }

  /**
   * A cleared quarantine is durable exactly when no snapshot merged later still carries one:
   * the maximum taken of the two brings it back otherwise.
   */
  lemma ClearSurvivesIff(a: Profile, snapshots: seq<Profile>)
    requires a.exhaustedUntil.GetOr(0) == 0
    ensures MergeEach(a, snapshots).exhaustedUntil.GetOr(0) == 0 <==>
              forall k :: 0 <= k < |snapshots| && SameLogin(Stamped(a, snapshots), snapshots[k]) ==>
                snapshots[k].exhaustedUntil.GetOr(0) == 0
  {
    hide MergeEach, FirstStamp;
    var m := MergeEach(a, snapshots);
    PassesAreSupremum(a, snapshots, m.(exhaustedUntil := None));
  }

  // ---------------------------------------------------------------------------
  // Administrative mutations
  // ---------------------------------------------------------------------------

  datatype Mutation =
    | PersistRuntime(snapshot: seq<Profile>)
    | Add(profile: Profile, keepPause: bool, replace: bool)
    | Remove(id: string)
    | ReplaceAll(accounts: seq<Profile>, expectedRevision: Option<nat>)
    | Remember(credential: Credential, plan: Option<string>)

  datatype Effect = Commit(accounts: seq<Profile>) | NoChange | Refused

  function AddEffect(current: seq<Profile>, p: Profile, keepPause: bool, replace: bool): Effect {
    var i := IndexOf(current, p.id);
    if i == |current| then Commit(current + [p])
    else if !replace then Refused
    else Commit(current[i := Replacement(current[i], p, keepPause)])
  }

  /**
   * `{...prior, ...account, credentialRevision}`: fields the new profile leaves out stay;
   * `keepPause` says that it leaves out `paused`.
   */
  function Replacement(prior: Profile, p: Profile, keepPause: bool): Profile {
    p.(paused := if keepPause then prior.paused else p.paused,
       plan := if p.plan.Some? then p.plan else prior.plan,
       failureGeneration := if p.failureGeneration.Some? then p.failureGeneration else prior.failureGeneration,
       quotaGeneration := if p.quotaGeneration.Some? then p.quotaGeneration else prior.quotaGeneration,
       lastUsedAt := if p.lastUsedAt.Some? then p.lastUsedAt else prior.lastUsedAt,
       lastFailureAt := if p.lastFailureAt.Some? then p.lastFailureAt else prior.lastFailureAt,
       exhaustedUntil := if p.exhaustedUntil.Some? then p.exhaustedUntil else prior.exhaustedUntil,
       lastFailureReason := if p.lastFailureReason.Some? then p.lastFailureReason else prior.lastFailureReason,
       credentialRevision := Some(Max(p.credentialRevision.GetOr(0), prior.credentialRevision.GetOr(0) + 1)))
  }

  function RemoveEffect(current: seq<Profile>, id: string): Effect {
    var i := IndexOf(current, id);
    if i == |current| then NoChange else Commit(current[..i] + current[i + 1..])
  }

  function TrimLeft(s: string): string {
    if s != "" && IsWhite(s[0]) then TrimLeft(s[1..]) else s
  }

  function TrimRight(s: string): string {
    if s != "" && IsWhite(s[|s| - 1]) then TrimRight(s[..|s| - 1]) else s
  }

  function Trim(s: string): string {
    TrimRight(TrimLeft(s))
  }

  /** The subject claim of a login JWT, decoded without verification; an oracle here. */
  type SubjectOracle = string -> Option<string>

  /** `accountIdentity`: the OAuth user id, else the JWT subject. */
  function LoginIdentity(c: Credential, subject: SubjectOracle): Option<string> {
    if HasText(c.userId) then Some(Trim(c.userId.value))
    else if c.jwt.GetOr("") != "" then subject(c.jwt.value)
    else None
  }

  predicate PlansClash(p: Profile, plan: Option<string>) {
    p.plan.GetOr("") != "" && plan.GetOr("") != "" && p.plan != plan
  }

  /** The stored profile is verifiably the same login: same user id, or the same token. */
  predicate VerifiedMatch(p: Profile, c: Credential, plan: Option<string>) {
    && p.credential.provider == c.provider
    && !PlansClash(p, plan)
    && if HasText(p.credential.userId) && HasText(c.userId) then p.credential.userId == c.userId
       else CredentialString(p.credential) == CredentialString(c)
            || (p.credential.jwt.GetOr("") != "" && p.credential.jwt == c.jwt)
  }

  /** The stored profile merely claims to be the same user. */
  predicate PossibleMatch(p: Profile, c: Credential, plan: Option<string>, subject: SubjectOracle) {
    && p.credential.provider == c.provider
    && !PlansClash(p, plan)
    && !(HasText(p.credential.userId) && HasText(c.userId))
    && LoginIdentity(p.credential, subject) == LoginIdentity(c, subject)
  }

  function FirstVerified(accounts: seq<Profile>, c: Credential, plan: Option<string>): (i: nat)
    ensures i <= |accounts|
    ensures i < |accounts| ==> VerifiedMatch(accounts[i], c, plan)
    ensures forall k :: 0 <= k < i ==> !VerifiedMatch(accounts[k], c, plan)
  {
    if accounts == [] || VerifiedMatch(accounts[0], c, plan) then 0 else 1 + FirstVerified(accounts[1..], c, plan)
  }

  /** The credential with the stored user id kept when the login brought none. */
  function Refreshed(prior: Credential, c: Credential): Credential {
    c.(userId := if c.userId.Some? then c.userId else prior.userId)
  }

  /** Decimal digits, as a template literal prints a small integer. */
  function Decimal(n: nat): string {
    if n < 10 then [('0' as int + n) as char] else Decimal(n / 10) + [('0' as int + n % 10) as char]
  }

  function AutoId(provider: Provider, n: nat): string {
    (if provider.Zai? then "zai-" else "bigmodel-") + Decimal(n)
  }

  /** Smallest number, from `n` up, whose automatic id nobody uses. */
  function FirstFree(current: seq<Profile>, provider: Provider, n: nat): nat
    decreases |current| + 1 - n
  {
    if n > |current| || IndexOf(current, AutoId(provider, n)) == |current| then n
    else FirstFree(current, provider, n + 1)
  }

  /** The profile a first login creates. */
  function NewLogin(current: seq<Profile>, c: Credential, plan: Option<string>): Profile {
    Profile(AutoId(c.provider, FirstFree(current, c.provider, 1)), c, plan, false, Some(1), None, None, None, None, None, None)
  }

  function Relogin(p: Profile, c: Credential): Profile {
    p.(credential := Refreshed(p.credential, c), credentialRevision := Some(p.credentialRevision.GetOr(1) + 1))
  }

  function RememberEffect(current: seq<Profile>, c: Credential, plan: Option<string>, subject: SubjectOracle): Effect {
    var i := FirstVerified(current, c, plan);
    if i < |current| then
      if Refreshed(current[i].credential, c) == current[i].credential then NoChange
      else Commit(current[i := Relogin(current[i], c)])
    else if LoginIdentity(c, subject).Some? && exists k :: 0 <= k < |current| && PossibleMatch(current[k], c, plan, subject) then Refused
    else Commit(current + [NewLogin(current, c, plan)])
  }

  function Apply(m: Mutation, current: seq<Profile>, revision: nat, subject: SubjectOracle): Effect {
    match m
    case PersistRuntime(snapshot) => Commit(MergeAll(current, snapshot))
    case Add(p, keepPause, replace) => AddEffect(current, p, keepPause, replace)
    case Remove(id) => RemoveEffect(current, id)
    case ReplaceAll(accounts, expected) =>
      if expected.Some? && expected.value != revision then Refused
      else if !DistinctIds(accounts) then Refused
      else Commit(accounts)
    case Remember(c, plan) => RememberEffect(current, c, plan, subject)
  }

  /** `cloneProfile`'s reading of a stored revision: absent and zero both count as one. */
  function EffectiveRevision(p: Profile): nat {
    if p.credentialRevision.GetOr(0) > 0 then p.credentialRevision.value else 1
  }

  /**
   * Replacing an account raises the revision the runtime sees, except for a prior profile
   * with no positive revision that is replaced by one below two.
   */
  lemma ReplaceRaisesRevisionIff(prior: Profile, p: Profile, keepPause: bool)
    ensures EffectiveRevision(Replacement(prior, p, keepPause)) > EffectiveRevision(prior)
            <==> prior.credentialRevision.GetOr(0) > 0 || p.credentialRevision.GetOr(0) >= 2
  {
  }

  /**
   * A login never overwrites a credential it cannot be verified against: every profile
   * that is not a verified match is untouched, and a merely possible match refuses the login.
   */
  lemma RememberOverwritesOnlyVerified(current: seq<Profile>, c: Credential, plan: Option<string>, subject: SubjectOracle)
    ensures var e := RememberEffect(current, c, plan, subject);
            && (e.Commit? ==>
                  && |current| <= |e.accounts| <= |current| + 1
                  && forall k :: 0 <= k < |current| ==>
                       && (e.accounts[k] == current[k] || (VerifiedMatch(current[k], c, plan) && |e.accounts| == |current|))
                       && SameAdministration(current[k].(credential := e.accounts[k].credential), e.accounts[k]))
            && (e.Refused? ==> forall k :: 0 <= k < |current| ==> !VerifiedMatch(current[k], c, plan))
            && (e.Commit? && |e.accounts| == |current| + 1 && LoginIdentity(c, subject).Some? ==>
                  forall k :: 0 <= k < |current| ==> !PossibleMatch(current[k], c, plan, subject))
  {
  }

  /** A persist pass, or a login that does not bring a blank user id. */
  predicate KeepsUsers(m: Mutation) {
    m.PersistRuntime? || (m.Remember? && (m.credential.userId.Some? ==> HasText(m.credential.userId)))
  }

  /** One account as the operator knows it, and the same user of it if it names one. */
  predicate SameUser(a: Profile, b: Profile) {
    && a.id == b.id && a.plan == b.plan && a.paused == b.paused && a.credential.provider == b.credential.provider
    && (HasText(a.credential.userId) ==> b.credential.userId == a.credential.userId)
  }

  /** Every account of `a` is in `b`, in its place and with its user. */
  ghost predicate UsersKept(a: seq<Profile>, b: seq<Profile>) {
    |a| <= |b| && forall k :: 0 <= k < |a| ==> SameUser(a[k], b[k])
  }

  /** A login rewrites a profile it is verified against, and changes its user exactly when it brings a blank user id. */
  lemma LoginKeepsUserIff(p: Profile, c: Credential, plan: Option<string>)
    requires VerifiedMatch(p, c, plan) && HasText(p.credential.userId)
    ensures SameUser(p, Relogin(p, c)) <==> (c.userId.Some? ==> HasText(c.userId))
  {
  }

  lemma MutationKeepsUsers(m: Mutation, current: seq<Profile>, revision: nat, subject: SubjectOracle)
    requires KeepsUsers(m)
    ensures var e := Apply(m, current, revision, subject); e.Commit? ==> UsersKept(current, e.accounts)
  {
    match m
    case PersistRuntime(snapshot) => PersistKeeps(current, snapshot);
    case Remember(c, plan) =>
      RememberOverwritesOnlyVerified(current, c, plan, subject);
  }

  // ---------------------------------------------------------------------------
  // Automatic ids
  // ---------------------------------------------------------------------------

  function DecimalValue(s: string): int {
    if s == "" then 0 else DecimalValue(s[..|s| - 1]) * 10 + (s[|s| - 1] as int - '0' as int)
  }

  lemma {:induction false} DecimalRoundTrip(n: nat)
    ensures DecimalValue(Decimal(n)) == n
  {
    var d := Decimal(n);
    if n < 10 {
      assert d[..|d| - 1] == "";
    } else {
      DecimalRoundTrip(n / 10);
      assert d[..|d| - 1] == Decimal(n / 10);
    }
  }

  lemma AutoIdInjective(provider: Provider, m: nat, n: nat)
    requires AutoId(provider, m) == AutoId(provider, n)
    ensures m == n
  {
    var prefix := if provider.Zai? then "zai-" else "bigmodel-";
    assert AutoId(provider, m)[|prefix|..] == Decimal(m);
    assert AutoId(provider, n)[|prefix|..] == Decimal(n);
    DecimalRoundTrip(m);
    DecimalRoundTrip(n);
  }

  ghost function Ids(current: seq<Profile>): set<string> {
    set i | 0 <= i < |current| :: current[i].id
  }

  lemma {:induction false} IdsAtMost(current: seq<Profile>)
    ensures |Ids(current)| <= |current|
  {
    if current == [] {
      assert Ids(current) == {};
    } else {
      var init := current[..|current| - 1];
      IdsAtMost(init);
      assert Ids(current) == Ids(init) + {current[|current| - 1].id};
    }
  }

  ghost function AutoIds(provider: Provider, n: nat): set<string> {
    set k | 1 <= k <= n :: AutoId(provider, k)
  }

  lemma NoAutoId(provider: Provider)
    ensures AutoIds(provider, 0) == {}
  {
  }

  lemma OneMoreAutoId(provider: Provider, n: nat)
    requires n > 0
    ensures AutoIds(provider, n) == AutoIds(provider, n - 1) + {AutoId(provider, n)}
    ensures AutoId(provider, n) !in AutoIds(provider, n - 1)
  {
    hide AutoId;
    if AutoId(provider, n) in AutoIds(provider, n - 1) {
      var k :| 1 <= k <= n - 1 && AutoId(provider, k) == AutoId(provider, n);
      AutoIdInjective(provider, k, n);
    }
  }

  lemma {:induction false} AutoIdsCount(provider: Provider, n: nat)
    ensures |AutoIds(provider, n)| == n
  {
    hide AutoId, AutoIds;
    if n == 0 {
      NoAutoId(provider);
    } else {
      AutoIdsCount(provider, n - 1);
      OneMoreAutoId(provider, n);
    }
  }

  /** Not every number up to one more than the accounts can be taken. */
  lemma NotAllTaken(current: seq<Profile>, provider: Provider)
    ensures exists k :: 1 <= k <= |current| + 1 && IndexOf(current, AutoId(provider, k)) == |current|
  {
    if forall k :: 1 <= k <= |current| + 1 ==> IndexOf(current, AutoId(provider, k)) < |current| {
      var names := AutoIds(provider, |current| + 1);
      forall name | name in names ensures name in Ids(current) {
        var k :| 1 <= k <= |current| + 1 && AutoId(provider, k) == name;
        assert current[IndexOf(current, name)].id == name;
      }
      SubsetSize(names, Ids(current));
      AutoIdsCount(provider, |current| + 1);
      IdsAtMost(current);
    }
  }

  lemma {:induction false} FirstFreeFrom(current: seq<Profile>, provider: Provider, n: nat)
    requires 1 <= n <= |current| + 1
    requires forall k :: 1 <= k < n ==> IndexOf(current, AutoId(provider, k)) < |current|
    ensures var m := FirstFree(current, provider, n);
            && n <= m
            && IndexOf(current, AutoId(provider, m)) == |current|
            && forall k :: 1 <= k < m ==> IndexOf(current, AutoId(provider, k)) < |current|
    decreases |current| + 1 - n
  {
    hide AutoId;
    if IndexOf(current, AutoId(provider, n)) < |current| {
      if n == |current| + 1 {
        NotAllTaken(current, provider);
      } else {
        FirstFreeFrom(current, provider, n + 1);
      }
    }
  }

  /** A new login gets the smallest automatic id nobody uses. */
  lemma NewLoginIsFresh(current: seq<Profile>, c: Credential, plan: Option<string>)
    ensures forall k :: 0 <= k < |current| ==> current[k].id != NewLogin(current, c, plan).id
  {
    FirstFreeFrom(current, c.provider, 1);
  }

  /** Ids stay distinct under every mutation that commits. */
  lemma MutationsKeepIdsDistinct(m: Mutation, current: seq<Profile>, revision: nat, subject: SubjectOracle)
    requires DistinctIds(current)
    ensures var e := Apply(m, current, revision, subject);
            e.Commit? ==> DistinctIds(e.accounts)
  {
    match m
    case PersistRuntime(snapshot) => PersistKeeps(current, snapshot);
    case Remember(c, plan) => NewLoginIsFresh(current, c, plan);
    case _ =>
  }
}
