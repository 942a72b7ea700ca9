/**
 * The store mutations as the source writes them: loops over the loaded list, changed in
 * place and written back with the next revision. Each is proved to be one `Apply` of
 * module `AccountStore`; the lock around it is module `StoreLock`.
 */
module AccountStoreRuntime {
  import opened Util
  import opened Accounts
  import opened AccountStore

  method FindIndex(accounts: seq<Profile>, id: string) returns (index: nat)
    ensures index == IndexOf(accounts, id)
  {
    index := 0;
    while index < |accounts| && accounts[index].id != id
      invariant index <= |accounts|
      invariant forall k :: 0 <= k < index ==> accounts[k].id != id
    {
      index := index + 1;
    }
  }

  /** `accounts.filter(account => account.id !== id)`. */
  method Without(accounts: seq<Profile>, id: string) returns (next: seq<Profile>)
    requires DistinctIds(accounts)
    ensures var i := IndexOf(accounts, id);
            next == if i == |accounts| then accounts else accounts[..i] + accounts[i + 1..]
  {
    next := [];
    ghost var i := IndexOf(accounts, id);
    for k := 0 to |accounts|
      invariant next == if k <= i then accounts[..k] else accounts[..i] + accounts[i + 1..k]
    {
      if accounts[k].id != id {
        next := next + [accounts[k]];
      }
    }
    assert accounts[..|accounts|] == accounts;
  }

  /** The merge callback: look the runtime profile up by id, merge it in. */
  method MergeSnapshot(current: seq<Profile>, snapshot: seq<Profile>) returns (next: seq<Profile>)
    ensures next == MergeAll(current, snapshot)
  {
    var byId: map<string, Profile> := map[];
    for k := 0 to |snapshot|
      invariant forall id :: id in byId <==> FindLast(snapshot[..k], id).Some?
      invariant forall id :: id in byId ==> Some(byId[id]) == FindLast(snapshot[..k], id)
    {
      assert snapshot[..k + 1][..k] == snapshot[..k];
      byId := byId[snapshot[k].id := snapshot[k]];
    }
    assert snapshot[..|snapshot|] == snapshot;
    next := [];
    for k := 0 to |current|
      invariant |next| == k
      invariant forall i :: 0 <= i < k ==> next[i] == MergeFrom(current[i], snapshot)
    {
      var authoritative := current[k];
      if authoritative.id !in byId {
        next := next + [authoritative];
      } else {
        next := next + [MergeOne(authoritative, byId[authoritative.id])];
      }
    }
  }

  /** `validateAccounts`, as far as ids go: no id twice. */
  method ValidateAccounts(accounts: seq<Profile>) returns (valid: bool)
    ensures valid <==> DistinctIds(accounts)
  {
    var ids: set<string> := {};
    for k := 0 to |accounts|
      invariant forall id :: id in ids <==> exists i :: 0 <= i < k && accounts[i].id == id
      invariant forall i, j :: 0 <= i < j < k ==> accounts[i].id != accounts[j].id
    {
      if accounts[k].id in ids {
        return false;
      }
      ids := ids + {accounts[k].id};
    }
    valid := true;
  }

  method FindVerified(accounts: seq<Profile>, c: Credential, plan: Option<string>) returns (index: nat)
    ensures index == FirstVerified(accounts, c, plan)
  {
    index := 0;
    while index < |accounts| && !VerifiedMatch(accounts[index], c, plan)
      invariant index <= |accounts|
      invariant forall k :: 0 <= k < index ==> !VerifiedMatch(accounts[k], c, plan)
    {
      index := index + 1;
    }
  }

  method FilterCandidates(accounts: seq<Profile>, c: Credential, plan: Option<string>, subject: SubjectOracle)
      returns (candidates: seq<Profile>)
    ensures candidates != [] <==> exists k :: 0 <= k < |accounts| && PossibleMatch(accounts[k], c, plan, subject)
  {
    candidates := [];
    for k := 0 to |accounts|
      invariant candidates != [] <==> exists i :: 0 <= i < k && PossibleMatch(accounts[i], c, plan, subject)
    {
      if PossibleMatch(accounts[k], c, plan, subject) {
        candidates := candidates + [accounts[k]];
      }
    }
  }

  /** Counts up until the id is free; ends because there are more numbers than accounts. */
  method FreeNumber(accounts: seq<Profile>, provider: Provider) returns (number: nat)
    ensures number == FirstFree(accounts, provider, 1)
  {
    hide AutoId;
    number := 1;
    var index := FindIndex(accounts, AutoId(provider, number));
    while index < |accounts|
      invariant 1 <= number <= |accounts| + 1
      invariant index == IndexOf(accounts, AutoId(provider, number))
      invariant forall k :: 1 <= k < number ==> IndexOf(accounts, AutoId(provider, k)) < |accounts|
      invariant FirstFree(accounts, provider, 1) == FirstFree(accounts, provider, number)
      decreases |accounts| + 1 - number
    {
      if number == |accounts| + 1 {
        NotAllTaken(accounts, provider);
        assert false;
      }
      number := number + 1;
      index := FindIndex(accounts, AutoId(provider, number));
    }
  }

  class StoreFile {
    var accounts: seq<Profile>
    var revision: nat

    ghost predicate Valid()
      reads this
    {
      DistinctIds(accounts)
    }

    /** What the file holds after a mutation with this effect, and nothing else. */
    ghost predicate After(effect: Effect, was: seq<Profile>, wasRevision: nat)
      reads this
    {
      if effect.Commit? then accounts == effect.accounts && revision == wasRevision + 1
      else accounts == was && revision == wasRevision
    }

    constructor ()
      ensures Valid() && accounts == [] && revision == 0
    {
      accounts, revision := [], 0;
    }

    method Write(next: seq<Profile>)
      modifies this
      ensures accounts == next && revision == old(revision) + 1
    {
      accounts := next;
      revision := revision + 1;
    }

    method PersistRuntime(snapshot: seq<Profile>, subject: SubjectOracle)
      requires Valid()
      modifies this
      ensures Valid() && After(Apply(Mutation.PersistRuntime(snapshot), old(accounts), old(revision), subject), old(accounts), old(revision))
    {
      var next := MergeSnapshot(accounts, snapshot);
      Write(next);
    }

    method SaveAccounts(next: seq<Profile>, expectedRevision: Option<nat>, subject: SubjectOracle) returns (conflict: bool, invalid: bool)
      requires Valid()
      modifies this
      ensures Valid() && After(Apply(ReplaceAll(next, expectedRevision), old(accounts), old(revision), subject), old(accounts), old(revision))
      ensures conflict <==> expectedRevision.Some? && expectedRevision.value != old(revision)
      ensures invalid <==> !conflict && exists i, j :: 0 <= i < j < |next| && next[i].id == next[j].id
    {
      conflict, invalid := false, false;
      if expectedRevision.Some? && expectedRevision.value != revision {
        conflict := true;
        return;
      }
      var valid := ValidateAccounts(next);
      if !valid {
        invalid := true;
        return;
      }
      Write(next);
    }

    method AddAccount(account: Profile, keepPause: bool, replace: bool, subject: SubjectOracle) returns (conflict: bool)
      requires Valid()
      modifies this
      ensures Valid() && After(Apply(Add(account, keepPause, replace), old(accounts), old(revision), subject), old(accounts), old(revision))
      ensures conflict <==> !replace && exists k :: 0 <= k < |old(accounts)| && old(accounts)[k].id == account.id
    {
      var index := FindIndex(accounts, account.id);
      if index < |accounts| && !replace {
        return true;
      }
      conflict := false;
      if index < |accounts| {
        Write(accounts[index := Replacement(accounts[index], account, keepPause)]);
      } else {
        Write(accounts + [account]);
      }
    }

    method RemoveAccount(id: string, subject: SubjectOracle) returns (removed: bool)
      requires Valid()
      modifies this
      ensures Valid() && After(Apply(Remove(id), old(accounts), old(revision), subject), old(accounts), old(revision))
      ensures removed <==> exists k :: 0 <= k < |old(accounts)| && old(accounts)[k].id == id
    {
      var next := Without(accounts, id);
      if |next| == |accounts| {
        return false;
      }
      Write(next);
      removed := true;
    }

    method RememberAccount(credential: Credential, plan: Option<string>, subject: SubjectOracle) returns (conflict: bool)
      requires Valid()
      modifies this
      ensures Valid() && After(Apply(Remember(credential, plan), old(accounts), old(revision), subject), old(accounts), old(revision))
      ensures conflict <==> Apply(Remember(credential, plan), old(accounts), old(revision), subject).Refused?
    {
      hide VerifiedMatch, PossibleMatch, AutoId, FirstFree, LoginIdentity;
      var prior := FindVerified(accounts, credential, plan);
      if prior == |accounts| && LoginIdentity(credential, subject).Some? {
        var candidates := FilterCandidates(accounts, credential, plan, subject);
        if candidates != [] {
          return true;
        }
      }
      conflict := false;
      if prior < |accounts| {
        var latest := Refreshed(accounts[prior].credential, credential);
        if latest == accounts[prior].credential {
          return;
        }
        Write(accounts[prior := Relogin(accounts[prior], credential)]);
      } else {
        var number := FreeNumber(accounts, credential.provider);
        NewLoginIsFresh(accounts, credential, plan);
        Write(accounts + [Profile(AutoId(credential.provider, number), credential, plan, false, Some(1),
                                  None, None, None, None, None, None)]);
      }
    }
  }
}
