/**
 * Failover in the source's own form: the manager owns the rotator object and the map of
 * open recoveries.  Each section is proved to be one step of module `Failover`.
 */
module FailoverRuntime {
  import opened Util
  import opened Accounts
  import opened R = Rotator
  import opened F = Failover
  import opened RotatorRuntime

  class AuthManager {
    const rotator: AccountRotator
    var poolRecoveries: map<Key, Recovery>

    ghost function State(): Manager
      reads this, rotator
    {
      Manager(rotator.State(), poolRecoveries)
    }

    constructor (rotator: AccountRotator)
      ensures State() == Manager(rotator.State(), map[]) && this.rotator == rotator
    {
      this.rotator := rotator;
      poolRecoveries := map[];
    }

    /** Is this account listed as exhausted, ready or active? */
    method Listed(id: string) returns (open: bool)
      ensures open <==> Has(rotator.State(), id) && ListState(rotator.State(), Get(rotator.State(), id)) in {ExhaustedState, ReadyState}
    {
      var i := Find(rotator.accounts, id);
      if i == |rotator.accounts| {
        return false;
      }
      var a := rotator.accounts[i];
      LateReportsFailClosed(rotator.State(), a);
      open := Admissible(rotator.policy, rotator.now, a, {}, Inference);
    }

    method SelectOther(failed: Handle, attempted: set<Identity>) returns (r: Response)
      modifies rotator
      ensures (State(), r) == Answered(old(State()), failed, attempted)
    {
      var handle := rotator.GetCredentialHandle(Excluding(failed, attempted));
      r := Answer(handle);
    }

    method RecoverFromAccountPool(failed: Handle, reason: string, resetAt: Option<nat>, attempted: set<Identity>)
      returns (r: Response)
      modifies this, rotator
      ensures (State(), r) == OnReport(old(State()), failed, reason, resetAt, attempted)
    {
      hide ListState, Mark, Select;
      if reason !in {"1005", "1113", "3001"} {
        return Answer(None);
      }
      var i := Find(rotator.accounts, failed.id);
      if i == |rotator.accounts| {
        return Answer(None);
      }
      var current := HandleOf(rotator.policy, rotator.accounts[i]);
      if current.credentialRevision != failed.credentialRevision
         || current.failureGeneration != failed.failureGeneration
         || current.quotaGeneration != failed.quotaGeneration
         || current.identity != failed.identity {
        var open := Listed(failed.id);
        if !open {
          return Answer(None);
        }
        r := SelectOther(failed, attempted);
        return;
      }
      var key := KeyOf(failed);
      if key in poolRecoveries {
        return JoinedRecovery(key);
      }
      rotator.MarkAccount(ByHandle(failed), reason, resetAt);
      poolRecoveries := poolRecoveries[key := Recovery(failed, attempted)];
      return Opened(key);
    }

    /** The metadata write of an open recovery ended: answer it and close it. */
    method PersistFinished(key: Key) returns (r: Response)
      requires key in poolRecoveries
      modifies this, rotator
      ensures (State(), r) == OnPersistDone(old(State()), key)
    {
      var recovery := poolRecoveries[key];
      poolRecoveries := poolRecoveries - {key};
      r := SelectOther(recovery.failed, recovery.attempted);
    }
  }
}
