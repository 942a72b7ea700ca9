/**
 * Grouping of aliases (auth/account-store.ts:187-235): which stored accounts carry the
 * same credential, and which name the same upstream user under different credentials.
 */
module AccountGroups {
  import opened Util
  import opened Accounts
  import opened AccountStore

  /** `equivalentCredential`: everything but the expiry. */
  predicate Equivalent(a: Profile, b: Profile) {
    && a.plan == b.plan
    && a.credential.(expiresAt := None) == b.credential.(expiresAt := None)
  }

  /** The two accounts are reported together. */
  ghost predicate Together(groups: seq<seq<string>>, a: string, b: string) {
    exists g :: 0 <= g < |groups| && a in groups[g] && b in groups[g]
  }

  ghost predicate Disjoint(groups: seq<seq<string>>) {
    forall g, h, id :: 0 <= g < h < |groups| && id in groups[g] ==> id !in groups[h]
  }

  ghost predicate Known(groups: seq<seq<string>>, accounts: seq<Profile>) {
    forall g, id :: 0 <= g < |groups| && id in groups[g] ==> exists k :: 0 <= k < |accounts| && accounts[k].id == id
  }

  /** Ids of the accounts below `n`, other than number `i`, with its credential. */
  function OthersLike(accounts: seq<Profile>, i: nat, n: nat): seq<string>
    requires i < |accounts| && n <= |accounts|
  {
    if n == 0 then []
    else
      OthersLike(accounts, i, n - 1)
      + (if n - 1 != i && Equivalent(accounts[i], accounts[n - 1]) then [accounts[n - 1].id] else [])
  }

  lemma {:induction false} OthersAre(accounts: seq<Profile>, i: nat, n: nat, id: string) returns (k: nat)
    requires i < |accounts| && n <= |accounts| && id in OthersLike(accounts, i, n)
    ensures k < n && k != i && Equivalent(accounts[i], accounts[k]) && accounts[k].id == id
  {
    if n - 1 != i && Equivalent(accounts[i], accounts[n - 1]) && accounts[n - 1].id == id {
      k := n - 1;
    } else {
      k := OthersAre(accounts, i, n - 1, id);
    }
  }

  lemma {:induction false} OthersHave(accounts: seq<Profile>, i: nat, n: nat, k: nat)
    requires i < |accounts| && n <= |accounts| && k < n && k != i && Equivalent(accounts[i], accounts[k])
    ensures accounts[k].id in OthersLike(accounts, i, n)
  {
    if k < n - 1 {
      OthersHave(accounts, i, n - 1, k);
    }
  }

  /** `groups[g]` is the whole class of the account numbered `leads[g]`. */
  ghost predicate ClassesOf(groups: seq<seq<string>>, leads: seq<nat>, accounts: seq<Profile>) {
    && |leads| == |groups|
    && (forall g :: 0 <= g < |groups| ==> leads[g] < |accounts|)
    && (forall g :: 0 <= g < |groups| ==> groups[g] == [accounts[leads[g]].id] + OthersLike(accounts, leads[g], |accounts|))
    && (forall g, h :: 0 <= g < h < |groups| ==> !Equivalent(accounts[leads[g]], accounts[leads[h]]))
  }

  lemma InClassIff(groups: seq<seq<string>>, leads: seq<nat>, accounts: seq<Profile>, g: nat, k: nat)
    requires DistinctIds(accounts) && ClassesOf(groups, leads, accounts) && g < |groups| && k < |accounts|
    ensures accounts[k].id in groups[g] <==> Equivalent(accounts[leads[g]], accounts[k])
  {
    var lead := leads[g];
    if k != lead {
      assert accounts[k].id != accounts[lead].id;
      if accounts[k].id in OthersLike(accounts, lead, |accounts|) {
        var other := OthersAre(accounts, lead, |accounts|, accounts[k].id);
        assert other == k;
      }
      if Equivalent(accounts[lead], accounts[k]) {
        OthersHave(accounts, lead, |accounts|, k);
      }
    }
  }

  /**
   * `duplicateCredentialGroups`: two different accounts are reported together exactly when
   * their credentials are equivalent; the groups are disjoint and have two members or more.
   */
  method DuplicateCredentialGroups(accounts: seq<Profile>) returns (groups: seq<seq<string>>)
    requires DistinctIds(accounts)
    ensures forall i, j :: 0 <= i < j < |accounts| ==>
              (Equivalent(accounts[i], accounts[j]) <==> Together(groups, accounts[i].id, accounts[j].id))
    ensures Disjoint(groups) && Known(groups, accounts)
    ensures forall g :: 0 <= g < |groups| ==> |groups[g]| >= 2
  {
    hide Equivalent, OthersLike;
    groups := [];
    var seen: set<string> := {};
    ghost var leads: seq<nat> := [];
    for i := 0 to |accounts|
      invariant ClassesOf(groups, leads, accounts)
      invariant forall g :: 0 <= g < |groups| ==> |groups[g]| >= 2
      invariant forall id :: id in seen <==> exists g :: 0 <= g < |groups| && id in groups[g]
      invariant forall k, j :: 0 <= k < i && 0 <= j < |accounts| && k != j && Equivalent(accounts[k], accounts[j]) ==> accounts[k].id in seen
    {
      if accounts[i].id !in seen {
        var group := OthersLike(accounts, i, |accounts|);
        forall j | 0 <= j < |accounts| && j != i && Equivalent(accounts[i], accounts[j]) ensures |group| > 0 {
          OthersHave(accounts, i, |accounts|, j);
        }
        if |group| > 0 {
          forall g | 0 <= g < |groups| ensures !Equivalent(accounts[leads[g]], accounts[i]) {
            InClassIff(groups, leads, accounts, g, i);
          }
          group := [accounts[i].id] + group;
          ghost var before, was := groups, seen;
          groups := groups + [group];
          leads := leads + [i];
          seen := AddAll(seen, group);
          SeenGrows(before, group, was, seen);
        }
      }
    }
    GroupsAreClasses(groups, leads, accounts, seen);
  }

  method AddAll(was: set<string>, group: seq<string>) returns (seen: set<string>)
    ensures forall id :: id in seen <==> id in was || id in group
  {
    seen := was;
    for j := 0 to |group|
      invariant forall id :: id in seen <==> id in was || id in group[..j]
    {
      seen := seen + {group[j]};
    }
    assert group[..|group|] == group;
  }

  lemma SeenGrows(groups: seq<seq<string>>, group: seq<string>, was: set<string>, seen: set<string>)
    requires forall id :: id in was <==> exists g :: 0 <= g < |groups| && id in groups[g]
    requires forall id :: id in seen <==> id in was || id in group
    ensures forall id :: id in seen <==> exists g :: 0 <= g < |groups + [group]| && id in (groups + [group])[g]
  {
    var all := groups + [group];
    forall id ensures id in seen <==> exists g :: 0 <= g < |all| && id in all[g] {
      if id in was {
        var g :| 0 <= g < |groups| && id in groups[g];
        assert id in all[g];
      } else if id in group {
        assert id in all[|groups|];
      }
    }
  }

  lemma GroupsAreClasses(groups: seq<seq<string>>, leads: seq<nat>, accounts: seq<Profile>, seen: set<string>)
    requires DistinctIds(accounts) && ClassesOf(groups, leads, accounts)
    requires forall id :: id in seen <==> exists g :: 0 <= g < |groups| && id in groups[g]
    requires forall k, j :: 0 <= k < |accounts| && 0 <= j < |accounts| && k != j && Equivalent(accounts[k], accounts[j]) ==> accounts[k].id in seen
    ensures forall i, j :: 0 <= i < j < |accounts| ==>
              (Equivalent(accounts[i], accounts[j]) <==> Together(groups, accounts[i].id, accounts[j].id))
    ensures Disjoint(groups) && Known(groups, accounts)
  {
    forall i, j | 0 <= i < j < |accounts|
      ensures Equivalent(accounts[i], accounts[j]) <==> Together(groups, accounts[i].id, accounts[j].id)
    {
      if Equivalent(accounts[i], accounts[j]) {
        var g :| 0 <= g < |groups| && accounts[i].id in groups[g];
        InClassIff(groups, leads, accounts, g, i);
        InClassIff(groups, leads, accounts, g, j);
      }
      if Together(groups, accounts[i].id, accounts[j].id) {
        var g :| 0 <= g < |groups| && accounts[i].id in groups[g] && accounts[j].id in groups[g];
        InClassIff(groups, leads, accounts, g, i);
        InClassIff(groups, leads, accounts, g, j);
      }
    }
    forall g, id | 0 <= g < |groups| && id in groups[g]
      ensures exists k :: 0 <= k < |accounts| && accounts[k].id == id
    {
      if id != accounts[leads[g]].id {
        var k := OthersAre(accounts, leads[g], |accounts|, id);
      }
    }
    forall g, h, id | 0 <= g < h < |groups| && id in groups[g] ensures id !in groups[h] {
      assert Known(groups, accounts);
      var k :| 0 <= k < |accounts| && accounts[k].id == id;
      InClassIff(groups, leads, accounts, g, k);
      InClassIff(groups, leads, accounts, h, k);
    }
  }

  // ---------------------------------------------------------------------------
  // Same upstream user, different credentials
  // ---------------------------------------------------------------------------

  /** `JSON.stringify([provider, plan, identity])`, an injective rendering of its parts. */
  datatype UserKey = UserKey(provider: Provider, plan: string, identity: string)

  function KeyOf(p: Profile, subject: SubjectOracle): Option<UserKey> {
    match LoginIdentity(p.credential, subject)
    case Some(identity) => Some(UserKey(p.credential.provider, p.plan.GetOr(""), identity))
    case None => None
  }

  /** The members of one user among the first `n` accounts. */
  function MembersOf(accounts: seq<Profile>, n: nat, key: UserKey, subject: SubjectOracle): seq<Profile>
    requires n <= |accounts|
  {
    if n == 0 then []
    else
      MembersOf(accounts, n - 1, key, subject)
      + (if KeyOf(accounts[n - 1], subject) == Some(key) then [accounts[n - 1]] else [])
  }

  lemma {:induction false} MemberIs(accounts: seq<Profile>, n: nat, key: UserKey, subject: SubjectOracle, m: nat) returns (k: nat)
    requires n <= |accounts| && m < |MembersOf(accounts, n, key, subject)|
    ensures k < n && KeyOf(accounts[k], subject) == Some(key) && accounts[k] == MembersOf(accounts, n, key, subject)[m]
  {
    hide KeyOf;
    if m < |MembersOf(accounts, n - 1, key, subject)| {
      k := MemberIs(accounts, n - 1, key, subject, m);
    } else {
      k := n - 1;
    }
  }

  lemma {:induction false} MemberHas(accounts: seq<Profile>, n: nat, key: UserKey, subject: SubjectOracle, k: nat) returns (m: nat)
    requires n <= |accounts| && k < n && KeyOf(accounts[k], subject) == Some(key)
    ensures m < |MembersOf(accounts, n, key, subject)| && MembersOf(accounts, n, key, subject)[m] == accounts[k]
  {
    hide KeyOf;
    if k < n - 1 {
      m := MemberHas(accounts, n - 1, key, subject, k);
    } else {
      m := |MembersOf(accounts, n - 1, key, subject)|;
    }
  }

  /** Reported: several members, not all under one credential. */
  predicate Mixed(members: seq<Profile>) {
    |members| > 1 && exists m :: 0 <= m < |members| && !Equivalent(members[0], members[m])
  }

  function IdsOf(members: seq<Profile>): (ids: seq<string>)
    ensures |ids| == |members|
    ensures forall m :: 0 <= m < |members| ==> ids[m] == members[m].id
  {
    seq(|members|, m requires 0 <= m < |members| => members[m].id)
  }

  /** Some two accounts of this user have different credentials. */
  ghost predicate Divergent(accounts: seq<Profile>, key: UserKey, subject: SubjectOracle) {
    exists i, j :: 0 <= i < |accounts| && 0 <= j < |accounts|
      && KeyOf(accounts[i], subject) == Some(key) && KeyOf(accounts[j], subject) == Some(key)
      && !Equivalent(accounts[i], accounts[j])
  }

  lemma MixedIffDivergent(accounts: seq<Profile>, key: UserKey, subject: SubjectOracle)
    ensures Mixed(MembersOf(accounts, |accounts|, key, subject)) <==> Divergent(accounts, key, subject)
  {
    hide KeyOf, MembersOf;
    var members := MembersOf(accounts, |accounts|, key, subject);
    if Mixed(members) {
      var n :| 0 <= n < |members| && !Equivalent(members[0], members[n]);
      var i := MemberIs(accounts, |accounts|, key, subject, 0);
      var j := MemberIs(accounts, |accounts|, key, subject, n);
      assert !Equivalent(accounts[i], accounts[j]);
    }
    if Divergent(accounts, key, subject) {
      var i, j :| 0 <= i < |accounts| && 0 <= j < |accounts|
                  && KeyOf(accounts[i], subject) == Some(key) && KeyOf(accounts[j], subject) == Some(key)
                  && !Equivalent(accounts[i], accounts[j]);
      var m := MemberHas(accounts, |accounts|, key, subject, i);
      var n := MemberHas(accounts, |accounts|, key, subject, j);
      assert !Equivalent(members[0], members[m]) || !Equivalent(members[0], members[n]);
    }
  }

  /** The insertion-ordered map the loop fills: one entry for each key met so far. */
  ghost predicate Filled(keys: seq<UserKey>, byIdentity: map<UserKey, seq<Profile>>, accounts: seq<Profile>, n: nat, subject: SubjectOracle)
    requires n <= |accounts|
  {
    && (forall i, j :: 0 <= i < j < |keys| ==> keys[i] != keys[j])
    && (forall key :: key in keys <==> key in byIdentity)
    && (forall key :: key in byIdentity ==> byIdentity[key] == MembersOf(accounts, n, key, subject))
    && (forall k :: 0 <= k < n && KeyOf(accounts[k], subject).Some? ==> KeyOf(accounts[k], subject).value in byIdentity)
  }

  method ByIdentity(accounts: seq<Profile>, subject: SubjectOracle)
      returns (keys: seq<UserKey>, byIdentity: map<UserKey, seq<Profile>>)
    ensures Filled(keys, byIdentity, accounts, |accounts|, subject)
  {
    hide KeyOf;
    keys, byIdentity := [], map[];
    for n := 0 to |accounts|
      invariant Filled(keys, byIdentity, accounts, n, subject)
    {
      var key := KeyOf(accounts[n], subject);
      if key.Some? {
        if key.value in byIdentity {
          byIdentity := byIdentity[key.value := byIdentity[key.value] + [accounts[n]]];
        } else {
          NobodyYet(accounts, n, key.value, subject);
          keys := keys + [key.value];
          byIdentity := byIdentity[key.value := [accounts[n]]];
        }
      }
    }
  }

  /**
   * `sameIdentityGroups`: two different accounts are reported together exactly when they
   * name one user of one provider and plan, and that user has differing credentials.
   */
  method SameIdentityGroups(accounts: seq<Profile>, subject: SubjectOracle) returns (groups: seq<seq<string>>)
    requires DistinctIds(accounts)
    ensures forall i, j :: 0 <= i < j < |accounts| ==>
              (Together(groups, accounts[i].id, accounts[j].id) <==> SharedUser(accounts, i, j, subject))
    ensures Disjoint(groups) && Known(groups, accounts)
  {
    var keys, byIdentity := ByIdentity(accounts, subject);
    hide KeyOf, MembersOf, Mixed, SharedUser, Together, Disjoint, Known;
    groups := [];
    ghost var from: seq<UserKey> := [];
    for n := 0 to |keys|
      invariant |from| == |groups|
      invariant forall g :: 0 <= g < |groups| ==>
                  from[g] in keys[..n] && Mixed(byIdentity[from[g]]) && groups[g] == IdsOf(byIdentity[from[g]])
      invariant forall g, h :: 0 <= g < h < |groups| ==> from[g] != from[h]
      invariant forall k :: 0 <= k < n && Mixed(byIdentity[keys[k]]) ==> keys[k] in from
    {
      var members := byIdentity[keys[n]];
      if Mixed(members) {
        groups := groups + [IdsOf(members)];
        from := from + [keys[n]];
      }
    }
    assert UserGroups(groups, from, accounts, subject);
    UserGroupsAreSound(groups, from, accounts, subject);
    forall i, j | 0 <= i < j < |accounts|
      ensures Together(groups, accounts[i].id, accounts[j].id) <==> SharedUser(accounts, i, j, subject)
    {
      TogetherIffShared(groups, from, accounts, subject, i, j);
    }
  }

  lemma {:induction false} NobodyYet(accounts: seq<Profile>, n: nat, key: UserKey, subject: SubjectOracle)
    requires n <= |accounts|
    requires forall k :: 0 <= k < n ==> KeyOf(accounts[k], subject) != Some(key)
    ensures MembersOf(accounts, n, key, subject) == []
  {
    if n == 0 {
    } else {
      NobodyYet(accounts, n - 1, key, subject);
    }
  }

  /** `groups[g]` lists the accounts of user `from[g]`. */
  ghost predicate UserGroups(groups: seq<seq<string>>, from: seq<UserKey>, accounts: seq<Profile>, subject: SubjectOracle) {
    && |from| == |groups|
    && (forall g :: 0 <= g < |groups| ==> groups[g] == IdsOf(MembersOf(accounts, |accounts|, from[g], subject)))
    && (forall g :: 0 <= g < |groups| ==> Mixed(MembersOf(accounts, |accounts|, from[g], subject)))
    && (forall g, h :: 0 <= g < h < |groups| ==> from[g] != from[h])
    && (forall k :: 0 <= k < |accounts| && KeyOf(accounts[k], subject).Some? ==>
          var key := KeyOf(accounts[k], subject).value;
          Mixed(MembersOf(accounts, |accounts|, key, subject)) ==> key in from)
  }

  lemma InUserGroupIff(groups: seq<seq<string>>, from: seq<UserKey>, accounts: seq<Profile>, subject: SubjectOracle, g: nat, k: nat)
    requires DistinctIds(accounts) && UserGroups(groups, from, accounts, subject) && g < |groups| && k < |accounts|
    ensures accounts[k].id in groups[g] <==> KeyOf(accounts[k], subject) == Some(from[g])
  {
    hide KeyOf, MembersOf, Mixed;
    var members := MembersOf(accounts, |accounts|, from[g], subject);
    if accounts[k].id in groups[g] {
      var m :| 0 <= m < |groups[g]| && groups[g][m] == accounts[k].id;
      var j := MemberIs(accounts, |accounts|, from[g], subject, m);
      assert j == k;
    }
    if KeyOf(accounts[k], subject) == Some(from[g]) {
      var m := MemberHas(accounts, |accounts|, from[g], subject, k);
      assert groups[g][m] == accounts[k].id;
    }
  }

  /** When accounts `i` and `j` have one user between them who is reported. */
  ghost predicate SharedUser(accounts: seq<Profile>, i: nat, j: nat, subject: SubjectOracle)
    requires i < |accounts| && j < |accounts|
  {
    var key := KeyOf(accounts[i], subject);
    key.Some? && KeyOf(accounts[j], subject) == key && Divergent(accounts, key.value, subject)
  }

  lemma TogetherIffShared(groups: seq<seq<string>>, from: seq<UserKey>, accounts: seq<Profile>, subject: SubjectOracle, i: nat, j: nat)
    requires DistinctIds(accounts) && UserGroups(groups, from, accounts, subject) && i < |accounts| && j < |accounts|
    ensures Together(groups, accounts[i].id, accounts[j].id) <==> SharedUser(accounts, i, j, subject)
  {
    hide KeyOf, MembersOf, Mixed, Divergent;
    if Together(groups, accounts[i].id, accounts[j].id) {
      var g :| 0 <= g < |groups| && accounts[i].id in groups[g] && accounts[j].id in groups[g];
      InUserGroupIff(groups, from, accounts, subject, g, i);
      InUserGroupIff(groups, from, accounts, subject, g, j);
      MixedIffDivergent(accounts, from[g], subject);
    }
    if SharedUser(accounts, i, j, subject) {
      var key := KeyOf(accounts[i], subject).value;
      MixedIffDivergent(accounts, key, subject);
      var g :| 0 <= g < |groups| && from[g] == key;
      InUserGroupIff(groups, from, accounts, subject, g, i);
      InUserGroupIff(groups, from, accounts, subject, g, j);
    }
  }

  lemma UserGroupsAreSound(groups: seq<seq<string>>, from: seq<UserKey>, accounts: seq<Profile>, subject: SubjectOracle)
    requires DistinctIds(accounts) && UserGroups(groups, from, accounts, subject)
    ensures Disjoint(groups) && Known(groups, accounts)
  {
    hide KeyOf, MembersOf, Mixed;
    forall g, id | 0 <= g < |groups| && id in groups[g]
      ensures exists k :: 0 <= k < |accounts| && accounts[k].id == id
    {
      var m :| 0 <= m < |groups[g]| && groups[g][m] == id;
      var k := MemberIs(accounts, |accounts|, from[g], subject, m);
    }
    forall g, h, id | 0 <= g < h < |groups| && id in groups[g] ensures id !in groups[h] {
      assert Known(groups, accounts);
      var k :| 0 <= k < |accounts| && accounts[k].id == id;
      InUserGroupIff(groups, from, accounts, subject, g, k);
      InUserGroupIff(groups, from, accounts, subject, h, k);
    }
  }

  // ---------------------------------------------------------------------------
  // The two comparisons, spelled out
  // ---------------------------------------------------------------------------

  /** Credentials are equivalent if nothing but their expiry differs, and they are used under one plan. */
  lemma EquivalentIff(a: Profile, b: Profile)
    ensures Equivalent(a, b) <==>
              var c, d := a.credential, b.credential;
              a.plan == b.plan && c.provider == d.provider && c.apiKey == d.apiKey && c.secret == d.secret && c.jwt == d.jwt && c.userId == d.userId
  {
  }

  /** Two accounts name one user if both claim one, the same, of one provider and plan, no plan being the empty one. */
  lemma SameUserIff(a: Profile, b: Profile, subject: SubjectOracle)
    ensures KeyOf(a, subject).Some? && KeyOf(a, subject) == KeyOf(b, subject) <==>
              && a.credential.provider == b.credential.provider
              && (if a.plan.Some? then a.plan.value else "") == (if b.plan.Some? then b.plan.value else "")
              && LoginIdentity(a.credential, subject).Some? && LoginIdentity(a.credential, subject) == LoginIdentity(b.credential, subject)
  {
    hide LoginIdentity;
  }
}
