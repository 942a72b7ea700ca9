/**
 * Several processes mutating one account store under its lock file
 * (auth/account-store.ts:323-391, 404-426, 528-655). One event is one filesystem step of
 * one process; the store is replaced by an atomic rename, so a write is one step too.
 */
module StoreLock {
  import opened Util
  import opened Accounts
  import opened AccountStore

  type Pid = nat

  datatype Stage =
    | Idle
    | Locked(nonce: nat, mutation: Mutation)
    | Loaded(nonce: nat, mutation: Mutation, seen: seq<Profile>, seenRevision: nat)
    | Finished(nonce: nat)
    | Unlinking(nonce: nat)
    | Checked(nonce: nat)
    | Dead
  {
    /** May still read or write the store, or remove the lock file: relies on the lock being its own. */
    predicate Holds() {
      Locked? || Loaded? || Unlinking?
    }
  }

  datatype State = State(
    accounts: seq<Profile>,
    revision: nat,
    /** Nonce in the lock file, if there is one. */
    lock: Option<nat>,
    /** Process that wrote each nonce. */
    owner: map<nat, Pid>,
    stages: map<Pid, Stage>,
    nonces: nat,
    /** Mutations committed, in order. */
    log: seq<Mutation>)

  datatype Event =
    | TryLock(pid: Pid, mutation: Mutation)
    | Load(pid: Pid)
    | Write(pid: Pid, ok: bool)
    | GiveUp(pid: Pid)
    | ReleaseCheck(pid: Pid)
    | ReleaseUnlink(pid: Pid, ok: bool)
    | Inspect(pid: Pid)
    | Quarantine(pid: Pid)
    | Force
    | Crash(pid: Pid)

  function StageOf(s: State, p: Pid): Stage {
    if p in s.stages then s.stages[p] else Idle
  }

  function Move(s: State, p: Pid, stage: Stage): State {
    s.(stages := s.stages[p := stage])
  }

  function Init(accounts: seq<Profile>, revision: nat): State {
    State(accounts, revision, None, map[], map[], 0, [])
  }

  /** Exclusive creation of the lock file (`wx`). */
  function OnTryLock(s: State, p: Pid, m: Mutation): State {
    if StageOf(s, p) != Idle || s.lock.Some? then s
    else Move(s, p, Locked(s.nonces, m)).(lock := Some(s.nonces), owner := s.owner[s.nonces := p], nonces := s.nonces + 1)
  }

  function OnLoad(s: State, p: Pid): State {
    match StageOf(s, p)
    case Locked(n, m) => Move(s, p, Loaded(n, m, s.accounts, s.revision))
    case _ => s
  }

  /** The mutation is computed from what was loaded, then written with the next revision. */
  function OnWrite(s: State, p: Pid, ok: bool, subject: SubjectOracle): State {
    match StageOf(s, p)
    case Loaded(n, m, seen, seenRevision) =>
      var e := Apply(m, seen, seenRevision, subject);
      if ok && e.Commit? then
        Move(s, p, Finished(n)).(accounts := e.accounts, revision := seenRevision + 1, log := s.log + [m])
      else Move(s, p, Finished(n))
    case _ => s
  }

  /** A failed read, or a validation error: the `finally` block still releases. */
  function OnGiveUp(s: State, p: Pid): State {
    match StageOf(s, p)
    case Locked(n, _) => Move(s, p, Finished(n))
    case Loaded(n, _, _, _) => Move(s, p, Finished(n))
    case _ => s
  }

  function OnReleaseCheck(s: State, p: Pid): State {
    match StageOf(s, p)
    case Finished(n) => Move(s, p, if s.lock == Some(n) then Unlinking(n) else Idle)
    case _ => s
  }

  function OnReleaseUnlink(s: State, p: Pid, ok: bool): State {
    match StageOf(s, p)
    case Unlinking(n) => Move(s, p, Idle).(lock := if ok then None else s.lock)
    case _ => s
  }

  predicate OwnerDead(s: State, n: nat) {
    n in s.owner && StageOf(s, s.owner[n]) == Dead
  }

  /** One reading of the lock file during recovery; the second must find the first one's nonce. */
  function OnInspect(s: State, p: Pid): State {
    match StageOf(s, p)
    case Idle => if s.lock.Some? && OwnerDead(s, s.lock.value) then Move(s, p, Checked(s.lock.value)) else s
    case Checked(n) => if s.lock == Some(n) && OwnerDead(s, n) then s else Move(s, p, Idle)
    case _ => s
  }

  /** The rename removes whatever lock file is there. */
  function OnQuarantine(s: State, p: Pid): State {
    if StageOf(s, p).Checked? then Move(s, p, Idle).(lock := None) else s
  }

  function Step(s: State, e: Event, subject: SubjectOracle): State {
    match e
    case TryLock(p, m) => OnTryLock(s, p, m)
    case Load(p) => OnLoad(s, p)
    case Write(p, ok) => OnWrite(s, p, ok, subject)
    case GiveUp(p) => OnGiveUp(s, p)
    case ReleaseCheck(p) => OnReleaseCheck(s, p)
    case ReleaseUnlink(p, ok) => OnReleaseUnlink(s, p, ok)
    case Inspect(p) => OnInspect(s, p)
    case Quarantine(p) => OnQuarantine(s, p)
    case Force => s.(lock := None)
    case Crash(p) => Move(s, p, Dead)
  }

  function Run(s: State, events: seq<Event>, subject: SubjectOracle): State {
    if events == [] then s else Step(Run(s, events[..|events| - 1], subject), events[|events| - 1], subject)
  }

  // ---------------------------------------------------------------------------
  // Safety, and exactly where it ends
  // ---------------------------------------------------------------------------

  /** The commits so far, applied one after another with nobody in between. */
  function Replay(accounts: seq<Profile>, revision: nat, log: seq<Mutation>, subject: SubjectOracle): (seq<Profile>, nat) {
    if log == [] then (accounts, revision)
    else
      var before := Replay(accounts, revision, log[..|log| - 1], subject);
      match Apply(log[|log| - 1], before.0, before.1, subject)
      case Commit(next) => (next, before.1 + 1)
      case _ => before
  }

  /** What a process at this stage may rely on. */
  ghost predicate StageInv(s: State, p: Pid, stage: Stage) {
    && (stage.Holds() ==> s.lock == Some(stage.nonce) && stage.nonce in s.owner && s.owner[stage.nonce] == p)
    && (stage.Finished? ==> stage.nonce in s.owner && s.owner[stage.nonce] == p)
    && (stage.Checked? ==> OwnerDead(s, stage.nonce))
    && (stage.Loaded? ==> stage.seen == s.accounts && stage.seenRevision == s.revision)
  }

  ghost predicate Inv(s: State) {
    && (forall n :: n in s.owner ==> n < s.nonces)
    && (s.lock.Some? ==> s.lock.value in s.owner)
    && (forall p :: p in s.stages ==> StageInv(s, p, s.stages[p]))
  }

  /** The store is the sequential outcome of the log, one revision for each commit. */
  ghost predicate Serial(s: State, accounts: seq<Profile>, revision: nat, subject: SubjectOracle) {
    && (s.accounts, s.revision) == Replay(accounts, revision, s.log, subject)
    && s.revision == revision + |s.log|
  }

  /** Removing the lock file while a live process relies on it. */
  ghost predicate Theft(s: State, e: Event) {
    && (e.Force? || (e.Quarantine? && StageOf(s, e.pid).Checked?))
    && exists p :: p in s.stages && s.stages[p].Holds()
  }

  ghost predicate NoTheft(s: State, events: seq<Event>, subject: SubjectOracle) {
    events == []
    || (NoTheft(s, events[..|events| - 1], subject)
        && !Theft(Run(s, events[..|events| - 1], subject), events[|events| - 1]))
  }

  /** A step keeps the locking discipline exactly when it steals no lock. */
  lemma StepKeepsIff(s: State, e: Event, subject: SubjectOracle)
    requires Inv(s)
    ensures Inv(Step(s, e, subject)) <==> !Theft(s, e)
  {
    hide Apply;
    var t := Step(s, e, subject);
    if Theft(s, e) {
      var p :| p in s.stages && s.stages[p].Holds();
      assert t.stages[p] == s.stages[p];
    } else {
      StepInv(s, e, subject);
    }
  }

  lemma StepInv(s: State, e: Event, subject: SubjectOracle)
    requires Inv(s) && !Theft(s, e)
    ensures Inv(Step(s, e, subject))
  {
    hide Apply;
    match e
    case TryLock(p, m) =>
    case Load(p) =>
    case Write(p, ok) =>
      if StageOf(s, p).Loaded? {
        forall q | StageOf(s, q).Loaded? ensures q == p {
          MutualExclusion(s, p, q);
        }
      }
    case GiveUp(p) =>
    case ReleaseCheck(p) =>
    case ReleaseUnlink(p, ok) =>
      if StageOf(s, p).Unlinking? {
        forall q | StageOf(s, q).Holds() ensures q == p {
          MutualExclusion(s, p, q);
        }
      }
    case Inspect(p) =>
    case Quarantine(p) =>
    case Force =>
    case Crash(p) =>
  }

  lemma StepSerial(s: State, e: Event, accounts: seq<Profile>, revision: nat, subject: SubjectOracle)
    requires Inv(s) && Serial(s, accounts, revision, subject)
    ensures Serial(Step(s, e, subject), accounts, revision, subject)
    ensures s.log <= Step(s, e, subject).log
  {
    hide Apply;
    var t := Step(s, e, subject);
    if t.log != s.log {
      assert t.log[..|t.log| - 1] == s.log;
    }
  }

  /**
   * No lost update: in a run without theft the store is what the committed mutations give
   * one after another, and every commit raised the revision by exactly one.
   */
  lemma {:induction false} CommitsAreSerial(accounts: seq<Profile>, revision: nat, events: seq<Event>, subject: SubjectOracle)
    requires NoTheft(Init(accounts, revision), events, subject)
    ensures var s := Run(Init(accounts, revision), events, subject);
            Inv(s) && Serial(s, accounts, revision, subject)
  {
    hide Step, Theft;
    if events == [] {
    } else {
      var before := events[..|events| - 1];
      CommitsAreSerial(accounts, revision, before, subject);
      StepKeepsIff(Run(Init(accounts, revision), before, subject), events[|events| - 1], subject);
      StepSerial(Run(Init(accounts, revision), before, subject), events[|events| - 1], accounts, revision, subject);
    }
  }

  /** In such a run whatever the logins and persist passes committed left every account with its user. */
  lemma LoginsKeepUsersUnderTheLock(accounts: seq<Profile>, revision: nat, events: seq<Event>, subject: SubjectOracle)
    requires NoTheft(Init(accounts, revision), events, subject)
    requires forall m :: m in Run(Init(accounts, revision), events, subject).log ==> KeepsUsers(m)
    ensures UsersKept(accounts, Run(Init(accounts, revision), events, subject).accounts)
  {
    CommitsAreSerial(accounts, revision, events, subject);
    hide Run, NoTheft, KeepsUsers, UsersKept;
    ReplayKeepsUsers(accounts, revision, Run(Init(accounts, revision), events, subject).log, subject);
  }

  lemma {:induction false} ReplayKeepsUsers(accounts: seq<Profile>, revision: nat, log: seq<Mutation>, subject: SubjectOracle)
    requires forall m :: m in log ==> KeepsUsers(m)
    ensures UsersKept(accounts, Replay(accounts, revision, log, subject).0)
  {
    if log == [] {
    } else {
      var before := Replay(accounts, revision, log[..|log| - 1], subject);
      ReplayKeepsUsers(accounts, revision, log[..|log| - 1], subject);
      MutationKeepsUsers(log[|log| - 1], before.0, before.1, subject);
      hide KeepsUsers, Apply;
    }
  }

  /** At most one process is inside the lock. */
  lemma MutualExclusion(s: State, p: Pid, q: Pid)
    requires Inv(s) && StageOf(s, p).Holds() && StageOf(s, q).Holds()
    ensures p == q
  {
    assert StageInv(s, p, s.stages[p]) && StageInv(s, q, s.stages[q]);
  }

  // ---------------------------------------------------------------------------
  // Runs without theft
  // ---------------------------------------------------------------------------

  /** A recovery removes only the very lock it inspected, or none. */
  lemma UnchangedLockIsSafe(s: State, p: Pid)
    requires Inv(s) && StageOf(s, p).Checked?
    requires s.lock == Some(StageOf(s, p).nonce) || s.lock == None
    ensures !Theft(s, Quarantine(p))
  {
  }

  /** Every rename directly follows its own inspection, and nobody forces the lock. */
  predicate AtomicRecovery(events: seq<Event>) {
    && (forall i :: 0 <= i < |events| ==> events[i] != Force)
    && (forall i :: 0 <= i < |events| && events[i].Quarantine? ==> Inspected(events, i))
  }

  predicate Inspected(events: seq<Event>, i: nat)
    requires i < |events| && events[i].Quarantine?
  {
    i > 0 && events[i - 1] == Inspect(events[i].pid)
  }

  lemma {:induction false} AtomicRecoveryStealsNothing(s: State, events: seq<Event>, subject: SubjectOracle)
    requires Inv(s) && AtomicRecovery(events)
    ensures NoTheft(s, events, subject) && Inv(Run(s, events, subject))
  {
    hide Step;
    if events == [] {
    } else {
      var last := |events| - 1;
      var before := events[..last];
      assert AtomicRecovery(before) by {
        forall i | 0 <= i < last && before[i].Quarantine? ensures Inspected(before, i) {
          assert Inspected(events, i);
        }
      }
      AtomicRecoveryStealsNothing(s, before, subject);
      var t := Run(s, before, subject);
      if events[last].Quarantine? {
        assert Inspected(events, last);
        assert before[last - 1] == Inspect(events[last].pid);
        var earlier := before[..last - 1];
        assert t == Step(Run(s, earlier, subject), before[last - 1], subject);
        assert AtomicRecovery(earlier) by {
          forall i | 0 <= i < last - 1 && earlier[i].Quarantine? ensures Inspected(earlier, i) {
            assert Inspected(events, i);
          }
        }
        AtomicRecoveryStealsNothing(s, earlier, subject);
        InspectedLockIsUnchanged(Run(s, earlier, subject), events[last].pid, subject);
      }
      StepKeepsIff(t, events[last], subject);
    }
  }

  lemma InspectedLockIsUnchanged(s: State, p: Pid, subject: SubjectOracle)
    requires Inv(s) && Inv(Step(s, Inspect(p), subject))
    ensures !Theft(Step(s, Inspect(p), subject), Quarantine(p))
  {
    var t := Step(s, Inspect(p), subject);
    if StageOf(t, p).Checked? {
      UnchangedLockIsSafe(t, p);
    }
  }

  /** While every recorded owner is alive nothing is recovered, however steps interleave. */
  lemma {:induction false} LivingOwnersStealNothing(s: State, events: seq<Event>, subject: SubjectOracle)
    requires Inv(s) && forall p :: StageOf(s, p) != Dead && !StageOf(s, p).Checked?
    requires forall i :: 0 <= i < |events| ==> !events[i].Crash? && !events[i].Force?
    ensures NoTheft(s, events, subject) && Inv(Run(s, events, subject))
    ensures forall p :: StageOf(Run(s, events, subject), p) != Dead && !StageOf(Run(s, events, subject), p).Checked?
  {
    if events == [] {
    } else {
      var last := |events| - 1;
      LivingOwnersStealNothing(s, events[..last], subject);
      var t := Run(s, events[..last], subject);
      StepKeepsIff(t, events[last], subject);
      LivingStep(t, events[last], subject);
    }
  }

  lemma LivingStep(s: State, e: Event, subject: SubjectOracle)
    requires Inv(s) && !e.Crash? && !e.Force?
    requires forall p :: StageOf(s, p) != Dead && !StageOf(s, p).Checked?
    ensures forall p :: StageOf(Step(s, e, subject), p) != Dead && !StageOf(Step(s, e, subject), p).Checked?
  {
    hide Apply;
    forall q ensures StageOf(Step(s, e, subject), q) != Dead && !StageOf(Step(s, e, subject), q).Checked? {
      assert StageOf(s, q) != Dead && !StageOf(s, q).Checked?;
      assert s.lock.Some? && s.lock.value in s.owner ==> StageOf(s, s.owner[s.lock.value]) != Dead;
    }
  }

  /** The lock a crashed process left behind does not block the store for good. */
  lemma DeadLockIsRecovered(s: State, p: Pid, m: Mutation, subject: SubjectOracle)
    requires Inv(s) && StageOf(s, p) == Idle && s.lock.Some? && OwnerDead(s, s.lock.value)
    ensures var t := Run(s, [Inspect(p), Inspect(p), Quarantine(p), TryLock(p, m)], subject);
            NoTheft(s, [Inspect(p), Inspect(p), Quarantine(p), TryLock(p, m)], subject) && StageOf(t, p).Locked? && Inv(t)
  {
    hide Apply, OnWrite, OnLoad;
    var events := [Inspect(p), Inspect(p), Quarantine(p), TryLock(p, m)];
    AtomicRecoveryStealsNothing(s, events, subject);
    assert events[..3][..2][..1] == [Inspect(p)] && events[..3][..2] == [Inspect(p), Inspect(p)]
        && events[..3] == [Inspect(p), Inspect(p), Quarantine(p)];
    assert [Inspect(p)][..0] == [];
    assert Run(s, [Inspect(p)], subject) == OnInspect(s, p);
    assert Run(s, [Inspect(p), Inspect(p)], subject) == OnInspect(s, p);
    assert Run(s, events[..3], subject).lock == None;
  }

  // ---------------------------------------------------------------------------
  // Revisions identify contents
  // ---------------------------------------------------------------------------

  lemma {:induction false} NoTheftPrefix(s: State, a: seq<Event>, b: seq<Event>, subject: SubjectOracle)
    requires NoTheft(s, a + b, subject)
    ensures NoTheft(s, a, subject)
  {
    if b == [] {
      assert a + b == a;
    } else {
      assert (a + b)[..|a + b| - 1] == a + b[..|b| - 1];
      NoTheftPrefix(s, a, b[..|b| - 1], subject);
    }
  }

  lemma {:induction false} LogGrows(accounts: seq<Profile>, revision: nat, a: seq<Event>, b: seq<Event>, subject: SubjectOracle)
    requires NoTheft(Init(accounts, revision), a + b, subject)
    ensures Run(Init(accounts, revision), a, subject).log <= Run(Init(accounts, revision), a + b, subject).log
  {
    hide Step, Theft;
    if b == [] {
      assert a + b == a;
    } else {
      var before := a + b[..|b| - 1];
      assert (a + b)[..|a + b| - 1] == before;
      LogGrows(accounts, revision, a, b[..|b| - 1], subject);
      CommitsAreSerial(accounts, revision, before, subject);
      StepSerial(Run(Init(accounts, revision), before, subject), b[|b| - 1], accounts, revision, subject);
    }
  }

  /**
   * A revision read again later means that nothing was committed in between and the contents
   * are the same: what a compare-and-swap write and the runtime's refresh test rely on.
   */
  lemma SameRevisionSameStore(accounts: seq<Profile>, revision: nat, a: seq<Event>, b: seq<Event>, subject: SubjectOracle)
    requires NoTheft(Init(accounts, revision), a + b, subject)
    ensures var s, t := Run(Init(accounts, revision), a, subject), Run(Init(accounts, revision), a + b, subject);
            s.revision <= t.revision && (s.revision == t.revision ==> s.accounts == t.accounts && s.log == t.log)
  {
    hide Step, Theft;
    NoTheftPrefix(Init(accounts, revision), a, b, subject);
    CommitsAreSerial(accounts, revision, a, subject);
    CommitsAreSerial(accounts, revision, a + b, subject);
    LogGrows(accounts, revision, a, b, subject);
    var s, t := Run(Init(accounts, revision), a, subject), Run(Init(accounts, revision), a + b, subject);
    assert s.log == t.log[..|s.log|];
    assert s.revision == t.revision ==> s.log == t.log;
  }

  /** A compare-and-swap write goes through exactly over the revision its caller read, and never with an id twice. */
  lemma CasNeverOverwrites(s: State, p: Pid, ok: bool, subject: SubjectOracle)
    requires Inv(s) && StageOf(s, p).Loaded?
    requires StageOf(s, p).mutation.ReplaceAll? && StageOf(s, p).mutation.expectedRevision.Some?
    ensures var t := Step(s, Write(p, ok), subject);
            t.log != s.log <==>
              ok && StageOf(s, p).mutation.expectedRevision.value == s.revision && DistinctIds(StageOf(s, p).mutation.accounts)
  {
  }

  // ---------------------------------------------------------------------------
  // The two-step recovery can lose an update
  // ---------------------------------------------------------------------------

  /**
   * Process 0 dies holding the lock; 1 and 2 both inspect it. 2 renames it away, locks and
   * loads; then 1's rename removes 2's lock, and 1 locks and loads as well.
   */
  function TheftRun(first: Mutation, second: Mutation): seq<Event> {
    [TryLock(0, first), Crash(0), Inspect(1), Inspect(2),
     Quarantine(2), TryLock(2, first), Load(2),
     Quarantine(1), TryLock(1, second), Load(1),
     Write(2, true), Write(1, true)]
  }

  function After(s: State, events: seq<Event>, n: nat, subject: SubjectOracle): State
    requires n <= |events|
  {
    if n == 0 then s else Step(After(s, events, n - 1, subject), events[n - 1], subject)
  }

  lemma {:induction false} AfterIsRun(s: State, events: seq<Event>, n: nat, subject: SubjectOracle)
    requires n <= |events|
    ensures After(s, events, n, subject) == Run(s, events[..n], subject)
  {
    if n == 0 {
    } else {
      AfterIsRun(s, events, n - 1, subject);
      assert events[..n][..n - 1] == events[..n - 1];
    }
  }

  lemma TheftHead(accounts: seq<Profile>, revision: nat, first: Mutation, second: Mutation, subject: SubjectOracle)
    ensures var s := After(Init(accounts, revision), TheftRun(first, second), 4, subject);
            && s.lock == Some(0) && StageOf(s, 1) == Checked(0) && StageOf(s, 2) == Checked(0)
            && s.accounts == accounts && s.revision == revision && s.log == []
  {
    hide Apply, OnLoad, OnWrite, OnGiveUp, OnReleaseCheck, OnReleaseUnlink, OnQuarantine;
    var events := TheftRun(first, second);
    var s := Init(accounts, revision);
    var s1 := OnTryLock(s, 0, first);
    assert After(s, events, 0, subject) == s && events[0] == TryLock(0, first);
    assert After(s, events, 1, subject) == s1;
    var s2 := Move(s1, 0, Dead);
    assert After(s, events, 2, subject) == s2;
    var s3 := OnInspect(s2, 1);
    assert After(s, events, 3, subject) == s3;
    var s4 := OnInspect(s3, 2);
    assert After(s, events, 4, subject) == s4;
    assert s2.lock == Some(0) && s2.owner[0] == 0 && StageOf(s2, 0) == Dead;
    assert StageOf(s3, 1) == Checked(0) && StageOf(s3, 0) == Dead && StageOf(s3, 2) == Idle;
  }

  /** Whatever the store held and whatever the two committed: the first commit is gone. */
  lemma TheftLosesAnUpdate(accounts: seq<Profile>, revision: nat, first: Mutation, second: Mutation, subject: SubjectOracle)
    requires Apply(first, accounts, revision, subject).Commit? && Apply(second, accounts, revision, subject).Commit?
    ensures var s := Run(Init(accounts, revision), TheftRun(first, second), subject);
            && s.log == [first, second]
            && s.accounts == Apply(second, accounts, revision, subject).accounts
            && s.revision == revision + 1
            && !Serial(s, accounts, revision, subject)
  {
    hide Apply;
    var events := TheftRun(first, second);
    var s := Init(accounts, revision);
    var s4 := After(s, events, 4, subject);
    TheftHead(accounts, revision, first, second, subject);
    TheftTail(s4, first, second, subject);
    AfterFrom(s, events, 4, 12, subject);
    AfterIsRun(s, events, 12, subject);
    assert events[..12] == events;
  }

  lemma {:induction false} AfterFrom(s: State, events: seq<Event>, k: nat, n: nat, subject: SubjectOracle)
    requires k <= n <= |events|
    ensures After(s, events, n, subject) == After(After(s, events, k, subject), events[k..], n - k, subject)
  {
    if n > k {
      AfterFrom(s, events, k, n - 1, subject);
      assert events[k..][n - 1 - k] == events[n - 1];
    }
  }

  lemma TheftTail(s: State, first: Mutation, second: Mutation, subject: SubjectOracle)
    requires s.lock == Some(0) && StageOf(s, 1) == Checked(0) && StageOf(s, 2) == Checked(0) && s.log == []
    requires Apply(first, s.accounts, s.revision, subject).Commit? && Apply(second, s.accounts, s.revision, subject).Commit?
    ensures var t := After(s, TheftRun(first, second)[4..], 8, subject);
            && t.log == [first, second]
            && t.accounts == Apply(second, s.accounts, s.revision, subject).accounts
            && t.revision == s.revision + 1
  {
    hide Apply;
    var events := TheftRun(first, second)[4..];
    var s3 := After(s, events, 3, subject);
    assert After(s, events, 1, subject) == OnQuarantine(s, 2);
    assert After(s, events, 2, subject) == OnTryLock(OnQuarantine(s, 2), 2, first);
    assert s3 == OnLoad(OnTryLock(OnQuarantine(s, 2), 2, first), 2);
    assert StageOf(s3, 1) == Checked(0) && StageOf(s3, 2) == Loaded(s.nonces, first, s.accounts, s.revision);
    var s6 := After(s, events, 6, subject);
    assert After(s, events, 4, subject) == OnQuarantine(s3, 1);
    assert After(s, events, 5, subject) == OnTryLock(OnQuarantine(s3, 1), 1, second);
    assert s6 == OnLoad(OnTryLock(OnQuarantine(s3, 1), 1, second), 1);
    assert StageOf(s6, 2) == StageOf(s3, 2) && StageOf(s6, 1) == Loaded(s3.nonces, second, s.accounts, s.revision);
    assert After(s, events, 7, subject) == OnWrite(s6, 2, true, subject);
    assert After(s, events, 8, subject) == OnWrite(OnWrite(s6, 2, true, subject), 1, true, subject);
  }

  // ---------------------------------------------------------------------------
  // Every theft that matters can lose an update
  // ---------------------------------------------------------------------------

  /** The process the lock is stolen from will still commit, or remove somebody else's lock. */
  predicate StillActs(s: State, p: Pid, subject: SubjectOracle) {
    match StageOf(s, p)
    case Locked(_, m) => Apply(m, s.accounts, s.revision, subject).Commit?
    case Loaded(_, m, _, _) => Apply(m, s.accounts, s.revision, subject).Commit?
    case Unlinking(_) => true
    case _ => false
  }

  lemma Snoc(s: State, events: seq<Event>, e: Event, subject: SubjectOracle) returns (all: seq<Event>)
    ensures all == events + [e] && Run(s, all, subject) == Step(Run(s, events, subject), e, subject)
  {
    all := events + [e];
    assert all[..|all| - 1] == events;
  }

  lemma {:induction false} FreshPid(pids: set<Pid>) returns (q: Pid)
    ensures forall p :: p in pids ==> p < q
  {
    if pids == {} {
      q := 0;
    } else {
      var p :| p in pids;
      var r := FreshPid(pids - {p});
      q := if r > p then r else p + 1;
      assert forall x :: x in pids ==> x == p || x in pids - {p};
    }
  }

  /** One process has loaded the store, no lock is there, and another goes through a whole mutation. */
  lemma BothCommit(s: State, p: Pid, q: Pid, other: Mutation, subject: SubjectOracle) returns (events: seq<Event>)
    requires p != q && s.lock.None? && StageOf(s, q) == Idle && Apply(other, s.accounts, s.revision, subject).Commit?
    requires StageOf(s, p).Loaded? && StageOf(s, p).seen == s.accounts && StageOf(s, p).seenRevision == s.revision
    requires Apply(StageOf(s, p).mutation, s.accounts, s.revision, subject).Commit?
    ensures var t := Run(s, events, subject);
            t.revision == s.revision + 1 && t.log == s.log + [other, StageOf(s, p).mutation]
  {
    var loaded := StageOf(s, p);
    assert Run(s, [], subject) == s;
    hide Run, Apply;
    events := Snoc(s, [], TryLock(q, other), subject);
    var s1 := Step(s, TryLock(q, other), subject);
    assert StageOf(s1, q) == Locked(s.nonces, other) && StageOf(s1, p) == loaded;
    events := Snoc(s, events, Load(q), subject);
    var s2 := Step(s1, Load(q), subject);
    assert StageOf(s2, q) == Loaded(s.nonces, other, s.accounts, s.revision) && StageOf(s2, p) == loaded;
    events := Snoc(s, events, Write(q, true), subject);
    var s3 := Step(s2, Write(q, true), subject);
    assert StageOf(s3, p) == loaded && s3.log == s.log + [other];
    events := Snoc(s, events, Write(p, true), subject);
    assert Step(s3, Write(p, true), subject).log == s.log + [other, loaded.mutation];
  }

  /** The same for one that has not loaded yet, and for one about to remove the lock file. */
  lemma ActorsClash(s: State, p: Pid, q: Pid, other: Mutation, subject: SubjectOracle) returns (events: seq<Event>)
    requires p != q && s.lock.None? && StageOf(s, q) == Idle && Apply(other, s.accounts, s.revision, subject).Commit?
    requires StillActs(s, p, subject)
    requires StageOf(s, p).Loaded? ==> StageOf(s, p).seen == s.accounts && StageOf(s, p).seenRevision == s.revision
    ensures var t := Run(s, events, subject);
            t.revision == s.revision + 1 && |t.log| == |s.log| + 2
  {
    assert Run(s, [], subject) == s;
    hide Run, Apply;
    match StageOf(s, p) {
      case Loaded(_, _, _, _) =>
        events := BothCommit(s, p, q, other, subject);
      case Locked(_, _) =>
        var first := Snoc(s, [], Load(p), subject);
        var t := Step(s, Load(p), subject);
        assert StageOf(t, q) == Idle;
        var more := BothCommit(t, p, q, other, subject);
        RunAppend(s, first, more, subject);
        events := first + more;
      case Unlinking(_) =>
        var first := Snoc(s, [], TryLock(q, other), subject);
        var s1 := Step(s, TryLock(q, other), subject);
        assert StageOf(s1, q) == Locked(s.nonces, other) && StageOf(s1, p) == StageOf(s, p);
        first := Snoc(s, first, Load(q), subject);
        var s2 := Step(s1, Load(q), subject);
        assert StageOf(s2, q) == Loaded(s.nonces, other, s.accounts, s.revision) && StageOf(s2, p) == StageOf(s, p);
        first := Snoc(s, first, ReleaseUnlink(p, true), subject);
        var t := Step(s2, ReleaseUnlink(p, true), subject);
        assert StageOf(t, p) == Idle && StageOf(t, q) == StageOf(s2, q);
        var more := BothCommit(t, q, p, other, subject);
        RunAppend(s, first, more, subject);
        events := first + more;
    }
  }

  lemma {:induction false} RunAppend(s: State, a: seq<Event>, b: seq<Event>, subject: SubjectOracle)
    ensures Run(s, a + b, subject) == Run(Run(s, a, subject), b, subject)
  {
    if b == [] {
      assert a + b == a;
    } else {
      assert (a + b)[..|a + b| - 1] == a + b[..|b| - 1];
      RunAppend(s, a, b[..|b| - 1], subject);
    }
  }

  /**
   * From any state of a serial run: if the lock is stolen from a process that will still
   * commit or unlink, then whatever mutation another one makes, some continuation loses one
   * of two commits.
   */
  lemma TheftCanLoseAnUpdate(s: State, e: Event, p: Pid, other: Mutation, accounts: seq<Profile>, revision: nat, subject: SubjectOracle)
    returns (events: seq<Event>)
    requires Inv(s) && Serial(s, accounts, revision, subject) && Theft(s, e) && StillActs(s, p, subject)
    requires Apply(other, s.accounts, s.revision, subject).Commit?
    ensures !Serial(Run(Step(s, e, subject), events, subject), accounts, revision, subject)
  {
    hide Apply;
    var q := FreshPid(s.stages.Keys);
    var t := Step(s, e, subject);
    assert StageInv(s, p, s.stages[p]);
    assert t.lock.None? && StageOf(t, p) == StageOf(s, p) && StageOf(t, q) == Idle;
    assert t.accounts == s.accounts && t.revision == s.revision && t.log == s.log;
    hide Step, Run;
    events := ActorsClash(t, p, q, other, subject);
    var u := Run(t, events, subject);
    assert u.revision != revision + |u.log|;
  }
}
