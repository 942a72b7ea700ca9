/**
 * The metadata writer in the source's own form.  Each section of the original is a method
 * proved to be one step of module `Persistence`.
 */
module PersistenceRuntime {
  import opened Util
  import opened P = Persistence

  class MetadataWriter {
    const delays: seq<nat>
    var now: nat
    var poolPersistence: Writer
    var poolPersistenceDirty: bool
    var persistenceRetryTimer: bool
    var persistenceRetryIndex: nat
    var health: Health
    var unsaved: bool
    var attempts: nat
    var nextRetryAt: Option<nat>
    /** Number of changes the rotator has announced; a snapshot is named by it. */
    var announced: nat
    ghost var written: Option<nat>
    ghost var retriesSinceChange: nat

    ghost function State(): P.State
      reads this
    {
      P.State(delays, now, poolPersistence, poolPersistenceDirty, persistenceRetryTimer, persistenceRetryIndex,
              health, unsaved, attempts, nextRetryAt, announced, written, retriesSinceChange)
    }

    /** Some run of module `Persistence` gives this state. */
    ghost predicate Valid()
      reads this
    {
      Reachable(State())
    }

    constructor (delays: seq<nat>, now: nat)
      ensures Valid() && State() == Init(delays, now)
    {
      this.delays := delays;
      this.now := now;
      poolPersistence := Idle;
      poolPersistenceDirty, persistenceRetryTimer, persistenceRetryIndex := false, false, 0;
      health, unsaved, attempts, nextRetryAt := Clean, false, 0, None;
      announced := 0;
      written := Some(0);
      retriesSinceChange := 0;
      new;
      InitReachable(delays, now);
    }

    method PersistAccounts()
      modifies this
      ensures State() == Persist(old(State()))
    {
      poolPersistenceDirty := true;
      health := Dirty;
      unsaved := true;
      nextRetryAt := None;
      persistenceRetryTimer := false;
      persistenceRetryIndex := 0;
      if poolPersistence != Idle {
        return;
      }
      poolPersistence := Queued;
    }

    method AnnounceChange()
      requires Valid()
      modifies this
      ensures Valid() && State() == Step(old(State()), Announce)
    {
      hide Reachable, Run;
      ReachableStep(State(), Announce);
      announced := announced + 1;
      retriesSinceChange := 0;
      PersistAccounts();
    }

    method FlushPersistence()
      requires Valid()
      modifies this
      ensures Valid() && State() == Step(old(State()), Flush)
    {
      hide Reachable, Run;
      ReachableStep(State(), Flush);
      if !unsaved {
        return;
      }
      retriesSinceChange := 0;
      PersistAccounts();
    }

    /** The start of one pass: clear the flag, then take the snapshot. */
    method StartPass(passes: nat)
      modifies this
      ensures State() == BeginPass(old(State()), passes)
    {
      poolPersistenceDirty := false;
      poolPersistence := Writing(announced, passes);
    }

    method RunPersistencePasses()
      requires Valid() && poolPersistence == Queued
      modifies this
      ensures Valid() && State() == Step(old(State()), PassStart)
    {
      hide Reachable, Run;
      ReachableStep(State(), PassStart);
      StartPass(1);
    }

    method SchedulePersistenceRetry()
      modifies this
      ensures State() == ScheduleRetry(old(State()))
    {
      if persistenceRetryIndex >= |delays| {
        return;
      }
      var delay := delays[persistenceRetryIndex];
      persistenceRetryIndex := persistenceRetryIndex + 1;
      nextRetryAt := Some(now + delay);
      persistenceRetryTimer := true;
    }

    /** The write of the current pass succeeded: next pass, background retry, or done. */
    method WriteSucceeded()
      requires Valid() && poolPersistence.Writing?
      modifies this
      ensures Valid() && State() == Step(old(State()), WriteOk)
    {
      hide Reachable, Run;
      ReachableStep(State(), WriteOk);
      var passes := poolPersistence.passes;
      written := Some(poolPersistence.snapshot);
      persistenceRetryIndex := 0;
      health, attempts, unsaved, nextRetryAt := Clean, 0, poolPersistenceDirty, None;
      if poolPersistenceDirty && passes < MAX_PASSES {
        StartPass(passes + 1);
        return;
      }
      if poolPersistenceDirty {
        health, unsaved := Dirty, true;
        SchedulePersistenceRetry();
      }
      poolPersistence := Idle;
    }

    method WriteThrew(retryable: bool)
      requires Valid() && poolPersistence.Writing?
      modifies this
      ensures Valid() && State() == Step(old(State()), WriteFailed(retryable))
    {
      hide Reachable, Run;
      ReachableStep(State(), WriteFailed(retryable));
      health, attempts, unsaved, nextRetryAt := Failed, attempts + 1, true, None;
      if retryable {
        SchedulePersistenceRetry();
      }
      poolPersistence := Idle;
    }

    method RetryTimerFired()
      requires Valid() && persistenceRetryTimer && nextRetryAt.Some? && now >= nextRetryAt.value
      modifies this
      ensures Valid() && State() == Step(old(State()), TimerFired)
    {
      hide Reachable, Run;
      ReachableStep(State(), TimerFired);
      persistenceRetryTimer := false;
      poolPersistenceDirty := true;
      nextRetryAt := None;
      retriesSinceChange := retriesSinceChange + 1;
      if poolPersistence == Idle {
        poolPersistence := Queued;
      }
    }
  }
}
