/**
 * What a report and a finished write lead to in pool failover (auth/manager.ts:461-530), each
 * with its exact condition.
 */
module FailoverDecisions {
  import opened Util
  import opened Accounts
  import R = Rotator
  import opened Rotator
  import opened F = Failover

  /** The account still has the revision, the generations and the identity the handle was issued with. */
  predicate IsCurrent(s: R.State, h: Handle) {
    exists i :: 0 <= i < |s.accounts| && s.accounts[i].id == h.id
      && (forall k :: 0 <= k < i ==> s.accounts[k].id != h.id)
      && s.accounts[i].credentialRevision == h.credentialRevision
      && s.accounts[i].failureGeneration == h.failureGeneration
      && s.accounts[i].quotaGeneration == h.quotaGeneration
      && IdentityOf(s.policy, s.accounts[i]) == h.identity
  }

  /** The account is configured and could serve but for a quarantine: valid, allowed, not paused, paid for, fitting and not expired. */
  predicate IsInService(s: R.State, id: string) {
    exists i :: 0 <= i < |s.accounts| && s.accounts[i].id == id && (forall k :: 0 <= k < i ==> s.accounts[k].id != id)
      && var a, p := s.accounts[i], s.policy;
         && id != "" && !IsBlank(a.credential.apiKey) && !a.paused && id !in p.pausedIds
         && (p.allowedIds.Some? ==> id in p.allowedIds.value)
         && (!p.allowPaid ==> a.plan == Some("coding-plan") || a.plan == Some("start-plan"))
         && (p.provider.Some? ==> a.credential.provider == p.provider.value)
         && (p.plan.Some? && p.plan.value != "" && a.plan.Some? ==> a.plan.value == p.plan.value)
         && (p.plan == Some("start-plan") ==> HasText(a.credential.jwt))
         && (a.credential.expiresAt.Some? ==> s.now < a.credential.expiresAt.value)
  }

  lemma CurrentIff(s: R.State, h: Handle)
    ensures UpToDate(s, h) <==> IsCurrent(s, h)
  {
    hide IdentityOf;
    var i := Find(s.accounts, h.id);
    assert forall j :: 0 <= j < |s.accounts| && s.accounts[j].id == h.id && (forall k :: 0 <= k < j ==> s.accounts[k].id != h.id) ==> j == i;
  }

  lemma InServiceIff(s: R.State, id: string)
    ensures IsInService(s, id) <==> Has(s, id) && ListState(s, Get(s, id)) in {ExhaustedState, ReadyState}
  {
    var i := Find(s.accounts, id);
    assert forall j :: 0 <= j < |s.accounts| && s.accounts[j].id == id && (forall k :: 0 <= k < j ==> s.accounts[k].id != id) ==> j == i;
  }

  /** An account in service is listed as exhausted exactly while it is in quarantine, and as ready otherwise. */
  lemma ListedAs(s: R.State, id: string)
    requires IsInService(s, id)
    ensures Has(s, id)
    ensures var a := Get(s, id);
            ListState(s, a) == if a.exhaustedUntil.Some? && a.exhaustedUntil.value > s.now then ExhaustedState else ReadyState
  {
    InServiceIff(s, id);
    hide IsInService;
  }

  /** The request for another account: neither the failed one nor its identity, nor any identity already tried. */
  function Another(failed: Handle, attempted: set<Identity>): Request {
    Request({failed.id}, {failed.identity} + attempted, Inference)
  }

  /**
   * A report counts only with one of the three quota codes. While its handle is current it
   * joins the recovery that is open for it, or marks the account and opens one; once its
   * handle is stale it is answered from the other accounts if its own is still in service,
   * and refused otherwise.
   */
  lemma ReportDecides(m: Manager, failed: Handle, reason: string, resetAt: Option<nat>, attempted: set<Identity>)
    ensures var key := Key(failed.id, failed.credentialRevision, failed.quotaGeneration);
            F.Step(m, Report(failed, reason, resetAt, attempted)) ==
              if reason != "1005" && reason != "1113" && reason != "3001" then (m, Answer(None))
              else if IsCurrent(m.rot, failed) then
                if key in m.recoveries then (m, JoinedRecovery(key))
                else (Manager(R.Step(m.rot, MarkExhausted(ByHandle(failed), reason, resetAt)), m.recoveries[key := Recovery(failed, attempted)]), Opened(key))
              else if IsInService(m.rot, failed.id) then
                (Manager(Select(m.rot, Another(failed, attempted)).0, m.recoveries), Answer(Select(m.rot, Another(failed, attempted)).1))
              else (m, Answer(None))
  {
    CurrentIff(m.rot, failed);
    InServiceIff(m.rot, failed.id);
    hide UpToDate, IsCurrent, IsInService, ListState, Select, Mark, Find;
  }

  /** A finished write closes its recovery and answers it from the other accounts. */
  lemma WriteDecides(m: Manager, key: Key)
    ensures F.Step(m, PersistDone(key)) ==
              if key !in m.recoveries then (m, Silent)
              else
                var q := m.recoveries[key];
                (Manager(Select(m.rot, Another(q.failed, q.attempted)).0, m.recoveries - {key}), Answer(Select(m.rot, Another(q.failed, q.attempted)).1))
  {
    hide Select;
  }

  /** Anything else the rotator does passes through. */
  lemma OtherEventsPassThrough(m: Manager, e: R.Event)
    ensures F.Step(m, RotatorDoes(e)) == (Manager(R.Step(m.rot, e), m.recoveries), Silent)
  {
    hide R.Step;
  }
}
