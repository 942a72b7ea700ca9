/**
 * Credentials and account profiles (auth/types.ts, auth/account-store.ts:34-55).
 * Absent timestamps are `None`; a hash of authentication material is kept as the
 * material itself, so distinct inputs have distinct identities.
 */
module Accounts {
  import opened Util

  datatype Provider = Zai | Bigmodel

  datatype Credential = Credential(
    provider: Provider,
    apiKey: string,
    secret: Option<string>,
    jwt: Option<string>,
    userId: Option<string>,
    expiresAt: Option<int>)

  /** A profile as the store keeps it. */
  datatype Profile = Profile(
    id: string,
    credential: Credential,
    plan: Option<string>,
    paused: bool,
    credentialRevision: Option<nat>,
    failureGeneration: Option<nat>,
    quotaGeneration: Option<nat>,
    lastUsedAt: Option<nat>,
    lastFailureAt: Option<nat>,
    exhaustedUntil: Option<nat>,
    lastFailureReason: Option<string>)

  /** `validateAccounts`: no id twice. */
  predicate DistinctIds(accounts: seq<Profile>) {
    forall i, j :: 0 <= i < j < |accounts| ==> accounts[i].id != accounts[j].id
  }

  const START_PLAN: string := "start-plan"

  /** The code points removed by JavaScript's `trim`. */
  predicate IsWhite(c: char) {
    var p := c as int;
    || p in {9, 10, 11, 12, 13, 32, 0xa0, 0x1680, 0x2028, 0x2029, 0x202f, 0x205f, 0x3000, 0xfeff}
    || 0x2000 <= p <= 0x200a
  }

  predicate IsBlank(s: string) {
    forall i :: 0 <= i < |s| ==> IsWhite(s[i])
  }

  predicate HasText(s: Option<string>) {
    s.Some? && !IsBlank(s.value)
  }

  /** The wire form of a credential. */
  function CredentialString(c: Credential): string {
    if c.secret.Some? && c.secret.value != "" then c.apiKey + "." + c.secret.value else c.apiKey
  }

  predicate IsExpired(c: Credential, now: nat) {
    c.expiresAt.Some? && now >= c.expiresAt.value
  }

  /** One effective upstream identity: what is sent, to whom, under which plan. */
  datatype Identity = Identity(provider: Provider, plan: string, token: string)

  function EffectiveIdentity(c: Credential, plan: Option<string>): Identity {
    Identity(c.provider, plan.GetOr(""),
             if plan == Some(START_PLAN) then c.jwt.GetOr("") else CredentialString(c))
  }

  /** `Math.max(a ?? 0, b ?? 0) || undefined`. */
  function MaxTime(a: Option<nat>, b: Option<nat>): Option<nat> {
    var m := Max(a.GetOr(0), b.GetOr(0));
    if m == 0 then None else Some(m)
  }
}
