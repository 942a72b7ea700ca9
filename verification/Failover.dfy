/**
 * Pool failover (auth/manager.ts:461-530): a request whose upstream call was rejected for
 * quota reports its handle and asks for another account.
 *
 * A report either marks the account and opens a recovery that answers after the metadata
 * write, or finds its handle stale and is answered at once from the other accounts.
 * Everything else that touches the rotator in between is an ordinary rotator event.
 */
module Failover {
  import opened Util
  import opened Accounts
  import opened R = Rotator
  import opened Handles

  /** The map key of an open recovery: id, credential revision, quota generation. */
  datatype Key = Key(id: string, credentialRevision: nat, quotaGeneration: nat)

  datatype Recovery = Recovery(failed: Handle, attempted: set<Identity>)

  datatype Manager = Manager(rot: R.State, recoveries: map<Key, Recovery>)

  datatype Event =
    | RotatorDoes(e: R.Event)
    | Report(failed: Handle, reason: string, resetAt: Option<nat>, attempted: set<Identity>)
    | PersistDone(key: Key)

  datatype Response =
    | Silent
    | Answer(handle: Option<Handle>)
    | Opened(key: Key)
    | JoinedRecovery(key: Key)

  predicate QuotaCode(reason: string) {
    reason in {"1005", "1113", "3001"}
  }

  function KeyOf(h: Handle): Key {
    Key(h.id, h.credentialRevision, h.quotaGeneration)
  }

  /** The account's generations and identity are those of the handle. */
  predicate UpToDate(s: R.State, h: Handle) {
    && Has(s, h.id)
    && var c := HandleOf(s.policy, Get(s, h.id));
       && c.credentialRevision == h.credentialRevision
       && c.failureGeneration == h.failureGeneration
       && c.quotaGeneration == h.quotaGeneration
       && c.identity == h.identity
  }

  datatype AccountState = InvalidState | PausedState | ExpiredState | ExhaustedState | ReadyState

  /** The state column of `list()`; `active` is a flavour of ready. */
  function ListState(s: R.State, a: Account): AccountState {
    var p := s.policy;
    if !ValidAccount(a) then InvalidState
    else if a.paused || a.id in p.pausedIds || (p.allowedIds.Some? && a.id !in p.allowedIds.value) then PausedState
    else if !p.allowPaid && IsPaidPlan(a) then InvalidState
    else if p.provider.Some? && a.credential.provider != p.provider.value then InvalidState
    else if !PlanCompatible(p, a) then InvalidState
    else if IsExpired(a.credential, s.now) then ExpiredState
    else if Quarantined(a, s.now) then ExhaustedState
    else ReadyState
  }

  /** Neither the failed account, nor its identity, nor any identity already tried. */
  function Excluding(failed: Handle, attempted: set<Identity>): Request {
    Request({failed.id}, {failed.identity} + attempted, Inference)
  }

  function Answered(m: Manager, failed: Handle, attempted: set<Identity>): (Manager, Response) {
    var (t, h) := Select(m.rot, Excluding(failed, attempted));
    (m.(rot := t), Answer(h))
  }

  function OnReport(m: Manager, failed: Handle, reason: string, resetAt: Option<nat>, attempted: set<Identity>): (Manager, Response) {
    if !QuotaCode(reason) then (m, Answer(None))
    else if !UpToDate(m.rot, failed) then
      if Has(m.rot, failed.id) && ListState(m.rot, Get(m.rot, failed.id)) in {ExhaustedState, ReadyState} then
        Answered(m, failed, attempted)
      else (m, Answer(None))
    else if KeyOf(failed) in m.recoveries then (m, JoinedRecovery(KeyOf(failed)))
    else
      (Manager(Mark(m.rot, ByHandle(failed), reason, resetAt),
               m.recoveries[KeyOf(failed) := Recovery(failed, attempted)]), Opened(KeyOf(failed)))
  }

  function OnPersistDone(m: Manager, key: Key): (Manager, Response) {
    if key !in m.recoveries then (m, Silent)
    else
      var r := m.recoveries[key];
      Answered(m.(recoveries := m.recoveries - {key}), r.failed, r.attempted)
  }

  function Step(m: Manager, e: Event): (Manager, Response) {
    match e
    case RotatorDoes(re) => (m.(rot := R.Step(m.rot, re)), Silent)
    case Report(failed, reason, resetAt, attempted) => OnReport(m, failed, reason, resetAt, attempted)
    case PersistDone(key) => OnPersistDone(m, key)
  }

  function Run(m: Manager, events: seq<Event>): Manager {
    if events == [] then m
    else Step(Run(m, events[..|events| - 1]), events[|events| - 1]).0
  }

  // ---------------------------------------------------------------------------
  // Reports open at most one recovery per handle
  // ---------------------------------------------------------------------------

  /** What a manager step does to the rotator, as a rotator event. */
  function AsRotatorEvent(m: Manager, e: Event): R.Event {
    match e
    case RotatorDoes(re) => re
    case Report(failed, reason, resetAt, attempted) =>
      if !QuotaCode(reason) then R.Tick(0)
      else if UpToDate(m.rot, failed) then
        if KeyOf(failed) in m.recoveries then R.Tick(0) else MarkExhausted(ByHandle(failed), reason, resetAt)
      else if Has(m.rot, failed.id) && ListState(m.rot, Get(m.rot, failed.id)) in {ExhaustedState, ReadyState} then
        SelectFor(Excluding(failed, attempted))
      else R.Tick(0)
    case PersistDone(key) =>
      if key in m.recoveries then SelectFor(Excluding(m.recoveries[key].failed, m.recoveries[key].attempted)) else R.Tick(0)
  }

  function AsRotatorEvents(m: Manager, events: seq<Event>): (r: seq<R.Event>)
    ensures |r| == |events|
  {
    if events == [] then []
    else
      AsRotatorEvents(m, events[..|events| - 1]) + [AsRotatorEvent(Run(m, events[..|events| - 1]), events[|events| - 1])]
  }

  /** The rotator under the manager makes an ordinary rotator run. */
  lemma {:induction false} ManagerRunsRotator(m: Manager, events: seq<Event>)
    ensures Run(m, events).rot == R.Run(m.rot, AsRotatorEvents(m, events))
  {
    if events == [] {
    } else {
      var init := events[..|events| - 1];
      ManagerRunsRotator(m, init);
      ManagerStepIsRotatorStep(Run(m, init), events[|events| - 1]);
      hide Step, AsRotatorEvent, R.Step;
      var rs := AsRotatorEvents(m, events);
      assert rs[..|rs| - 1] == AsRotatorEvents(m, init);
    }
  }

  lemma AsRotatorEventsPrefix(m: Manager, events: seq<Event>, i: nat)
    requires i <= |events|
    ensures AsRotatorEvents(m, events)[..i] == AsRotatorEvents(m, events[..i])
  {
    if i == |events| {
      assert events[..i] == events;
      assert AsRotatorEvents(m, events)[..i] == AsRotatorEvents(m, events);
    } else {
      var init := events[..|events| - 1];
      AsRotatorEventsPrefix(m, init, i);
      assert init[..i] == events[..i];
      assert AsRotatorEvents(m, events)[..i] == AsRotatorEvents(m, init)[..i];
    }
  }

  /** The account stays in the pool throughout the manager's run. */
  ghost predicate StaysManaged(m: Manager, events: seq<Event>, id: string) {
    && (forall i :: 0 <= i < |events| && events[i].RotatorDoes? ==> Admitted(events[i].e))
    && (forall i :: 0 <= i <= |events| ==> Has(Run(m, events[..i]).rot, id))
  }

  lemma {:induction false} ManagedEventsAdmitted(m: Manager, events: seq<Event>)
    requires forall i :: 0 <= i < |events| && events[i].RotatorDoes? ==> Admitted(events[i].e)
    ensures forall i :: 0 <= i < |events| ==> Admitted(AsRotatorEvents(m, events)[i])
  {
    if events == [] {
    } else {
      ManagedEventsAdmitted(m, events[..|events| - 1]);
      assert events[|events| - 1].RotatorDoes? ==> Admitted(events[|events| - 1].e);
    }
  }

  lemma StaysInRotator(m: Manager, events: seq<Event>, id: string)
    requires StaysManaged(m, events, id)
    ensures Stays(m.rot, AsRotatorEvents(m, events), id)
  {
    ManagedEventsAdmitted(m, events);
    var rs := AsRotatorEvents(m, events);
    forall i | 0 <= i <= |rs| ensures Has(R.Run(m.rot, rs[..i]), id) {
      AsRotatorEventsPrefix(m, events, i);
      ManagerRunsRotator(m, events[..i]);
    }
  }

  /** The report that opens a recovery really marks: the handle addresses the account. */
  lemma OpeningMarks(m: Manager, e: Event)
    requires PoolInv(m.rot) && e.Report? && Step(m, e).1.Opened?
    requires Has(m.rot, e.failed.id) && TakenFrom(e.failed, Get(m.rot, e.failed.id))
    ensures Addresses(m.rot, ByHandle(e.failed))
    ensures var t := Step(m, e).0;
            && PoolInv(t.rot) && Has(t.rot, e.failed.id)
            && Quarantined(Get(t.rot, e.failed.id), t.rot.now)
            && TakenFrom(e.failed, Get(t.rot, e.failed.id)) && !SameHandle(Get(t.rot, e.failed.id), e.failed)
  {
    MarkSpendsHandle(m.rot, e.failed, e.reason, e.resetAt);
    MarkPool(m.rot, ByHandle(e.failed), e.reason, e.resetAt);
  }

  /** A stale handle is not up to date: its reports are answered from the other accounts, or refused. */
  lemma StaleIsOutdated(s: R.State, h: Handle)
    requires Has(s, h.id) && TakenFrom(h, Get(s, h.id)) && !SameHandle(Get(s, h.id), h)
    ensures !UpToDate(s, h)
  {
  }

  /**
   * However many requests report the same handle, its generation is marked at most once:
   * after the report that opens a recovery, no later report of that handle marks, opens or
   * joins one, as long as the account stays in the pool.
   */
  lemma HandleOpensOnce(m: Manager, e: Event, later: seq<Event>, again: Event)
    requires PoolInv(m.rot) && e.Report? && Step(m, e).1.Opened?
    requires Has(m.rot, e.failed.id) && TakenFrom(e.failed, Get(m.rot, e.failed.id))
    requires StaysManaged(Step(m, e).0, later, e.failed.id)
    requires again.Report? && again.failed == e.failed
    ensures var t := Run(Step(m, e).0, later);
            && Step(t, again).1.Answer?
            && Step(t, again).0.recoveries == t.recoveries
            && (Step(t, again).0.rot == t.rot
                || Step(t, again).0.rot == Select(t.rot, Excluding(again.failed, again.attempted)).0)
  {
    hide PoolInv, Step, SameHandle, Stays, StaysManaged, TakenFrom, Find;
    var m1 := Step(m, e).0;
    OpeningMarks(m, e);
    StaysInRotator(m1, later, e.failed.id);
    ManagerRunsRotator(m1, later);
    StaleRemains(m1.rot, AsRotatorEvents(m1, later), e.failed);
    StaleIsOutdated(Run(m1, later).rot, e.failed);
    OutdatedReport(Run(m1, later), again);
  }

  lemma OutdatedReport(m: Manager, e: Event)
    requires e.Report? && !UpToDate(m.rot, e.failed)
    ensures Step(m, e).1.Answer?
    ensures Step(m, e).0.recoveries == m.recoveries
    ensures Step(m, e).0.rot == m.rot || Step(m, e).0.rot == Select(m.rot, Excluding(e.failed, e.attempted)).0
  {
  }

  // ---------------------------------------------------------------------------
  // The shared-recovery branch
  // ---------------------------------------------------------------------------

  /** Every open recovery belongs to a state its account has left behind. */
  ghost predicate RecoveriesOutdated(m: Manager) {
    forall key :: key in m.recoveries && Has(m.rot, key.id) ==>
      var a := Get(m.rot, key.id);
      a.quotaGeneration > key.quotaGeneration || a.credentialRevision > key.credentialRevision
  }

  /** No account with an open recovery enters the pool in this step. */
  ghost predicate NoReturn(m: Manager, e: Event) {
    forall key :: key in m.recoveries && !Has(m.rot, key.id) ==> !Has(Step(m, e).0.rot, key.id)
  }

  lemma RecoveriesStep(m: Manager, e: Event)
    requires PoolInv(m.rot) && RecoveriesOutdated(m) && NoReturn(m, e)
    requires e.RotatorDoes? ==> Admitted(e.e)
    requires e.Report? && Has(m.rot, e.failed.id) ==> TakenFrom(e.failed, Get(m.rot, e.failed.id))
    ensures PoolInv(Step(m, e).0.rot) && RecoveriesOutdated(Step(m, e).0)
  {
    var t := Step(m, e).0;
    var re := AsRotatorEvent(m, e);
    ManagerStepIsRotatorStep(m, e);
    StepPool(m.rot, re);
    forall key | key in t.recoveries && Has(t.rot, key.id)
      ensures Get(t.rot, key.id).quotaGeneration > key.quotaGeneration
              || Get(t.rot, key.id).credentialRevision > key.credentialRevision
    {
      if key in m.recoveries {
        assert Has(m.rot, key.id);
        StepLater(m.rot, re, key.id);
      } else {
        OpenedIsOutdated(m, e);
      }
    }
  }

  lemma ManagerStepIsRotatorStep(m: Manager, e: Event)
    ensures Step(m, e).0.rot == R.Step(m.rot, AsRotatorEvent(m, e))
    ensures e.RotatorDoes? ==> AsRotatorEvent(m, e) == e.e
    ensures !e.RotatorDoes? ==> Admitted(AsRotatorEvent(m, e))
  {
  }

  lemma OpenedIsOutdated(m: Manager, e: Event)
    requires PoolInv(m.rot) && e.Report? && Step(m, e).1.Opened?
    requires Has(m.rot, e.failed.id) && TakenFrom(e.failed, Get(m.rot, e.failed.id))
    ensures Has(Step(m, e).0.rot, e.failed.id)
    ensures Get(Step(m, e).0.rot, e.failed.id).quotaGeneration > e.failed.quotaGeneration
  {
    SetKeeps(m.rot, MarkedAccount(m.rot, Get(m.rot, e.failed.id), e.reason, e.resetAt));
  }

  /** While every open recovery is outdated nobody joins one. */
  lemma JoinIsDead(m: Manager, e: Event)
    requires RecoveriesOutdated(m)
    ensures !Step(m, e).1.JoinedRecovery?
  {
  }

  /** No account returns under an open recovery, and a reported handle was once taken from its account. */
  ghost predicate OrdinaryStep(m: Manager, e: Event) {
    && NoReturn(m, e)
    && (e.RotatorDoes? ==> Admitted(e.e))
    && (e.Report? && Has(m.rot, e.failed.id) ==> TakenFrom(e.failed, Get(m.rot, e.failed.id)))
  }

  ghost predicate OrdinaryRun(m: Manager, events: seq<Event>) {
    forall i :: 0 <= i < |events| ==> OrdinaryStep(Run(m, events[..i]), events[i])
  }

  lemma {:induction false} OrdinaryRunOutdates(m: Manager, events: seq<Event>)
    requires PoolInv(m.rot) && m.recoveries == map[] && OrdinaryRun(m, events)
    ensures PoolInv(Run(m, events).rot) && RecoveriesOutdated(Run(m, events))
  {
    hide Step, PoolInv, OrdinaryStep;
    if events == [] {
      assert Run(m, events) == m;
    } else {
      var last := |events| - 1;
      var before := events[..last];
      assert OrdinaryRun(m, before) by {
        forall i | 0 <= i < last ensures OrdinaryStep(Run(m, before[..i]), before[i]) {
          assert before[..i] == events[..i];
        }
      }
      OrdinaryRunOutdates(m, before);
      OrdinaryKeeps(Run(m, before), events[last]);
    }
  }

  lemma OrdinaryKeeps(m: Manager, e: Event)
    requires PoolInv(m.rot) && RecoveriesOutdated(m) && OrdinaryStep(m, e)
    ensures PoolInv(Step(m, e).0.rot) && RecoveriesOutdated(Step(m, e).0)
  {
    RecoveriesStep(m, e);
  }

  /**
   * The branch that joins an open recovery is never taken in a run where no account returns
   * under one: a peer's report is already stale when it arrives, so no caller is handed an
   * answer computed for another caller's exclusions.
   */
  lemma JoinNeverTaken(m: Manager, events: seq<Event>, e: Event)
    requires PoolInv(m.rot) && m.recoveries == map[] && OrdinaryRun(m, events)
    ensures !Step(Run(m, events), e).1.JoinedRecovery?
  {
    OrdinaryRunOutdates(m, events);
    JoinIsDead(Run(m, events), e);
  }

  /** A return is enough to take it: report, leave, come back from the store, report again. */
  lemma ReturnedAccountJoins() returns (m: Manager, e: Event, profiles: seq<Profile>)
    ensures PoolInv(m.rot) && m.recoveries == map[] && DistinctIds(profiles)
    ensures Step(Run(m, [e, RotatorDoes(SyncProfiles([])), RotatorDoes(SyncProfiles(profiles))]), e).1.JoinedRecovery?
  {
    var p := Profile("a", Credential(Zai, "k", None, None, None, None), None, false, None, None, None, None, None, None, None);
    var rot := Init(Policy(None, None, 60_000, None, {}, true), 0, [p]);
    assert Find(rot.accounts, "a") == 0;
    m := Manager(rot, map[]);
    var h := HandleOf(rot.policy, rot.accounts[0]);
    e := Report(h, "1005", None, {});
    profiles := [p];
    var gone, back := SyncProfiles([]), SyncProfiles(profiles);
    var events := [e, RotatorDoes(gone), RotatorDoes(back)];
    assert events[..2][..1] == [e] && events[..2] == [e, RotatorDoes(gone)] && [e][..0] == [];
    var opened1 := Step(m, e).0;
    assert Run(m, [e]) == opened1;
    assert opened1.recoveries == map[KeyOf(h) := Recovery(h, {})] && opened1.rot.active.None?;
    var left := Step(opened1, RotatorDoes(gone)).0;
    assert Run(m, events[..2]) == left && left.rot.accounts == [];
    var t := Step(left, RotatorDoes(back)).0;
    assert Run(m, events) == t;
    assert t.rot.accounts == [Clone(p, 0)] && Find(t.rot.accounts, "a") == 0 && t.rot.policy == rot.policy;
    assert KeyOf(h) in t.recoveries;
    assert UpToDate(t.rot, h);
  }

  // ---------------------------------------------------------------------------
  // Answers
  // ---------------------------------------------------------------------------

  /** The request an answer is for. */
  function AnswersFor(m: Manager, e: Event): Option<Recovery> {
    match e
    case RotatorDoes(_) => None
    case Report(failed, _, _, attempted) => Some(Recovery(failed, attempted))
    case PersistDone(key) => if key in m.recoveries then Some(m.recoveries[key]) else None
  }

  /**
   * Whatever the path, a returned handle avoids the failed account, its identity, every
   * attempted identity and every identity in quarantine.
   */
  lemma AnswersAvoidFailures(m: Manager, e: Event)
    requires Step(m, e).1.Answer? && Step(m, e).1.handle.Some?
    ensures var h := Step(m, e).1.handle.value;
            && AnswersFor(m, e).Some?
            && var q := AnswersFor(m, e).value;
               && h.id != q.failed.id
               && h.identity != q.failed.identity && h.identity !in q.attempted
               && (forall j :: 0 <= j < |m.rot.accounts| && Quarantined(m.rot.accounts[j], m.rot.now) ==>
                     IdentityOf(m.rot.policy, m.rot.accounts[j]) != h.identity)
               && (exists i: nat :: i < |m.rot.accounts| && h == HandleOf(m.rot.policy, m.rot.accounts[i]))
  {
    var q := AnswersFor(m, e).value;
    SelectionSound(m.rot, Excluding(q.failed, q.attempted));
  }

  /**
   * Over a run: nobody waits for an answer meant for another caller, and every handle given
   * out avoids what its own caller reported and had tried.
   */
  lemma AnswersSuitTheirCaller(m: Manager, events: seq<Event>, e: Event)
    requires PoolInv(m.rot) && m.recoveries == map[] && OrdinaryRun(m, events)
    ensures var t := Run(m, events);
            && !Step(t, e).1.JoinedRecovery?
            && (Step(t, e).1.Answer? && Step(t, e).1.handle.Some? ==>
                  && AnswersFor(t, e).Some?
                  && var h, q := Step(t, e).1.handle.value, AnswersFor(t, e).value;
                     h.id != q.failed.id && h.identity != q.failed.identity && h.identity !in q.attempted)
  {
    JoinNeverTaken(m, events, e);
    if Step(Run(m, events), e).1.Answer? && Step(Run(m, events), e).1.handle.Some? {
      AnswersAvoidFailures(Run(m, events), e);
    }
  }

  /** An answer after the write is empty exactly when no other account is eligible. */
  lemma AnswersAreComplete(m: Manager, key: Key)
    requires key in m.recoveries
    ensures var q := m.recoveries[key];
            Step(m, PersistDone(key)).1 == Answer(None) <==>
              forall i: nat :: i < |m.rot.accounts| ==> !Eligible(m.rot, Excluding(q.failed, q.attempted), i)
  {
    var q := m.recoveries[key];
    SelectionComplete(m.rot, Excluding(q.failed, q.attempted));
  }

  /** Only accounts that are neither administratively nor permanently out get a late failover. */
  lemma LateReportsFailClosed(s: R.State, a: Account)
    ensures ListState(s, a) in {ExhaustedState, ReadyState} <==> Admissible(s.policy, s.now, a, {}, Inference)
  {
  }

  // ---------------------------------------------------------------------------
  // Recovery chains end
  // ---------------------------------------------------------------------------

  function Identities(hs: seq<Handle>): set<Identity> {
    set i | 0 <= i < |hs| :: hs[i].identity
  }

  /**
   * One request's recovery chain: each handle was the answer to a report of its
   * predecessor, with all identities tried before it as the attempted set.
   */
  ghost predicate Chain(hs: seq<Handle>, states: seq<Manager>, events: seq<Event>) {
    && |states| == |events| == |hs|
    && forall k :: 0 < k < |hs| ==>
         && Step(states[k], events[k]).1 == Answer(Some(hs[k]))
         && AnswersFor(states[k], events[k]) == Some(Recovery(hs[k - 1], Identities(hs[..k - 1])))
  }

  lemma ChainIsFresh(hs: seq<Handle>, states: seq<Manager>, events: seq<Event>, j: nat, k: nat)
    requires Chain(hs, states, events) && j < k < |hs|
    ensures hs[j].identity != hs[k].identity
  {
    hide Step, AnswersFor;
    AnswersAvoidFailures(states[k], events[k]);
    if j < k - 1 {
      assert hs[..k - 1][j] == hs[j];
      assert hs[j].identity in Identities(hs[..k - 1]);
    }
  }

  lemma {:induction false} DistinctFit(ids: seq<Identity>, universe: set<Identity>)
    requires forall k :: 0 <= k < |ids| ==> ids[k] in universe
    requires forall j, k :: 0 <= j < k < |ids| ==> ids[j] != ids[k]
    ensures |ids| <= |universe|
  {
    if ids == [] {
    } else {
      var n := |ids| - 1;
      DistinctFit(ids[..n], universe - {ids[n]});
    }
  }

  /** A chain that accumulates identities is no longer than the number of identities there are. */
  lemma ChainEnds(hs: seq<Handle>, states: seq<Manager>, events: seq<Event>, universe: set<Identity>)
    requires Chain(hs, states, events)
    requires forall k :: 0 <= k < |hs| ==> hs[k].identity in universe
    ensures |hs| <= |universe|
  {
    var ids := seq(|hs|, k requires 0 <= k < |hs| => hs[k].identity);
    forall j, k | 0 <= j < k < |ids| ensures ids[j] != ids[k] {
      ChainIsFresh(hs, states, events, j, k);
    }
    DistinctFit(ids, universe);
  }
}
