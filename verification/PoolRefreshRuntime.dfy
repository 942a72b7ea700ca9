/**
 * The closure state of `createStoredAuthManagerWithAccounts` in the source's own form:
 * `observedRevision`, the refresh in flight and the pool given to the rotator. The store,
 * shared with other processes, is an argument of the sections that look at it.
 */
module PoolRefreshRuntime {
  import opened Util
  import opened Accounts
  import opened P = PoolRefresh

  class PoolFollower {
    var observedRevision: nat
    var synced: seq<Profile>
    var refreshInFlight: Option<Refresh>
    var persisted: Option<nat>

    ghost function State(versions: seq<seq<Profile>>): P.State
      reads this
    {
      P.State(versions, observedRevision, synced, refreshInFlight, persisted)
    }

    constructor (accounts: seq<Profile>)
      ensures State([accounts]) == Init(accounts)
    {
      observedRevision := 0;
      synced := accounts;
      refreshInFlight := None;
      persisted := None;
    }

    method RefreshAccountPool(versions: seq<seq<Profile>>)
      requires versions != []
      modifies this
      ensures State(versions) == Step(old(State(versions)), RefreshCalled)
    {
      if refreshInFlight.Some? {
        return;
      }
      refreshInFlight := Some(Reading(|versions| - 1));
    }

    method SnapshotLoaded(versions: seq<seq<Profile>>)
      requires versions != [] && refreshInFlight.Some? && refreshInFlight.value.Reading?
      modifies this
      ensures State(versions) == Step(old(State(versions)), StoreRead)
    {
      refreshInFlight := Some(Read(refreshInFlight.value.startedAt, |versions| - 1));
    }

    method SnapshotFailed(versions: seq<seq<Profile>>)
      requires refreshInFlight.Some? && refreshInFlight.value.Reading?
      modifies this
      ensures State(versions) == Step(old(State(versions)), ReadFailed)
    {
      refreshInFlight := None;
    }

    method ApplySnapshot(versions: seq<seq<Profile>>)
      requires refreshInFlight.Some? && refreshInFlight.value.Read? && refreshInFlight.value.revision < |versions|
      modifies this
      ensures State(versions) == Step(old(State(versions)), RefreshDone)
    {
      var revision := refreshInFlight.value.revision;
      if revision != observedRevision {
        synced := versions[revision];
        observedRevision := revision;
      }
      refreshInFlight := None;
    }

    method PersistReturned(versions: seq<seq<Profile>>)
      requires persisted.Some? && persisted.value < |versions|
      modifies this
      ensures State(versions) == Step(old(State(versions)), PersistDone)
    {
      synced := versions[persisted.value];
      observedRevision := persisted.value;
      persisted := None;
    }
  }
}
