/**
 * What every event leads to in the background writer of account metadata
 * (auth/manager.ts:196-202, 331-407), each with its exact condition.
 */
module PersistenceDecisions {
  import opened Util
  import opened Persistence

  /** A change waits for the writer: the running one picks it up, else a pass is queued; the schedule starts afresh. */
  predicate TakesUp(s: State, t: State) {
    t == s.(dirty := true, unsaved := true, health := Dirty, timer := false, nextRetryAt := None, retryIndex := 0,
            writer := if s.writer == Idle then Queued else s.writer,
            announced := t.announced, retriesSinceChange := 0)
  }

  /** An announcement is taken up at once, and a flush exactly if something is unsaved. */
  lemma ChangeIsTakenUp(s: State)
    ensures TakesUp(s, Step(s, Announce)) && Step(s, Announce).announced == s.announced + 1
    ensures var t := Step(s, Flush); if s.unsaved then TakesUp(s, t) && t.announced == s.announced else t == s
  {
  }

  /** A queued pass writes a snapshot of everything announced so far. */
  lemma PassWritesEverything(s: State)
    ensures Step(s, PassStart) == if s.writer == Queued then s.(writer := Writing(s.announced, 1), dirty := false) else s
  {
  }

  /** The retry timer is armed with the next delay of the schedule, if one is left. */
  predicate Rearms(s: State, t: State) {
    if s.retryIndex < |s.delays|
    then t.timer && t.nextRetryAt == Some(s.now + s.delays[s.retryIndex]) && t.retryIndex == s.retryIndex + 1
    else t.timer == s.timer && t.nextRetryAt == None && t.retryIndex == s.retryIndex
  }

  /**
   * A write that succeeds saves its snapshot and forgets the failures. If a change overtook
   * it, the next pass begins at once, up to three in a row; then the timer takes over.
   */
  lemma WriteOkDecides(s: State)
    requires s.writer.Writing?
    ensures var t := Step(s, WriteOk);
            && t.written == Some(s.writer.snapshot) && t.attempts == 0 && t.announced == s.announced && t.now == s.now
            && if !s.dirty then t.writer == Idle && !t.unsaved && !t.dirty && t.health == Clean && t.nextRetryAt == None && t.timer == s.timer && t.retryIndex == 0
               else if s.writer.passes < 3 then
                 t.writer == Writing(s.announced, s.writer.passes + 1) && t.unsaved && !t.dirty && t.health == Clean && t.timer == s.timer && t.nextRetryAt == None && t.retryIndex == 0
               else t.writer == Idle && t.unsaved && t.dirty && t.health == Dirty && Rearms(s.(retryIndex := 0), t)
  {
  }

  /** A write that fails saves nothing, counts the failure, and is retried by the timer if it may be. */
  lemma WriteFailureDecides(s: State, retryable: bool)
    requires s.writer.Writing?
    ensures var t := Step(s, WriteFailed(retryable));
            && t.written == s.written && t.unsaved && t.health == Failed && t.attempts == s.attempts + 1 && t.writer == Idle && t.dirty == s.dirty
            && if retryable then Rearms(s, t) else t.timer == s.timer && t.nextRetryAt == None && t.retryIndex == s.retryIndex
  {
  }

  /** The timer queues a pass exactly when it is armed and its time has come; it goes on with the schedule. */
  lemma TimerDecides(s: State)
    ensures var t := Step(s, TimerFired);
            if s.timer && s.nextRetryAt.Some? && s.now >= s.nextRetryAt.value
            then t == s.(timer := false, dirty := true, nextRetryAt := None, retriesSinceChange := s.retriesSinceChange + 1,
                         writer := if s.writer == Idle then Queued else s.writer)
            else t == s
  {
  }

  /** Answers and wake-ups nobody waits for change nothing. */
  lemma StrayAnswersAreIgnored(s: State, retryable: bool)
    requires !s.writer.Writing?
    ensures Step(s, WriteOk) == s && Step(s, WriteFailed(retryable)) == s
  {
  }

  /** The failures since the last write that succeeded. */
  function FailedWrites(delays: seq<nat>, now: nat, events: seq<Event>): nat {
    if events == [] then 0
    else
      var before, e := events[..|events| - 1], events[|events| - 1];
      var s := Run(Init(delays, now), before);
      if !s.writer.Writing? then FailedWrites(delays, now, before)
      else if e == WriteOk then 0
      else if e.WriteFailed? then FailedWrites(delays, now, before) + 1
      else FailedWrites(delays, now, before)
  }

  lemma AttemptsStep(s: State, e: Event)
    ensures Step(s, e).attempts ==
              if s.writer.Writing? && e == WriteOk then 0 else if s.writer.Writing? && e.WriteFailed? then s.attempts + 1 else s.attempts
  {
  }

  /** In every run the reported number of attempts is that number. */
  lemma {:induction false} AttemptsCountFailures(delays: seq<nat>, now: nat, events: seq<Event>)
    ensures Run(Init(delays, now), events).attempts == FailedWrites(delays, now, events)
  {
    if events == [] {
    } else {
      AttemptsCountFailures(delays, now, events[..|events| - 1]);
      AttemptsStep(Run(Init(delays, now), events[..|events| - 1]), events[|events| - 1]);
      hide Step;
    }
  }

  /** Time passes, and nothing else; the writer starts clean, with nothing to save. */
  lemma TimePasses(s: State, ms: nat, delays: seq<nat>, now: nat)
    ensures Step(s, Tick(ms)) == s.(now := s.now + ms)
    ensures var t := Init(delays, now);
            && t.delays == delays && t.now == now && t.writer == Idle && !t.dirty && !t.timer && t.retryIndex == 0 && t.health == Clean
            && !t.unsaved && t.attempts == 0 && t.nextRetryAt == None && t.announced == 0 && t.written == Some(0) && t.retriesSinceChange == 0
  {
  }
}
