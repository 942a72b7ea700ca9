/**
 * The background writer of account metadata (auth/manager.ts:196-202, 331-407).
 *
 * `announced` counts the changes announced so far; a snapshot of the rotator is named by
 * the number of changes it contains.  The environment decides how each write ends and
 * when the retry timer fires.
 */
module Persistence {
  import opened Util

  datatype Health = Clean | Dirty | Failed

  /** The pass loop: not running, queued as a microtask, or waiting for its write. */
  datatype Writer = Idle | Queued | Writing(snapshot: nat, passes: nat)

  datatype State = State(
    delays: seq<nat>,
    now: nat,
    writer: Writer,
    dirty: bool,
    timer: bool,
    retryIndex: nat,
    health: Health,
    unsaved: bool,
    attempts: nat,
    nextRetryAt: Option<nat>,
    // History.
    announced: nat,
    written: Option<nat>,
    retriesSinceChange: nat)

  datatype Event =
    | Tick(ms: nat)
    | Announce          // a change happened in the rotator, then persistAccounts()
    | Flush             // flushPersistence() on shutdown
    | PassStart         // the queued microtask runs
    | WriteOk
    | WriteFailed(retryable: bool)
    | TimerFired

  const MAX_PASSES: nat := 3

  function CancelTimer(s: State): State {
    s.(timer := false)
  }

  /** persistAccounts: the running writer picks the change up, else a pass is queued. */
  function Persist(s: State): State {
    var t := CancelTimer(s.(dirty := true, health := Dirty, unsaved := true, nextRetryAt := None)).(retryIndex := 0);
    if t.writer != Idle then t else t.(writer := Queued)
  }

  /** One pass begins: the snapshot contains everything announced so far. */
  function BeginPass(s: State, passes: nat): State {
    s.(writer := Writing(s.announced, passes), dirty := false)
  }

  function ScheduleRetry(s: State): State {
    if s.retryIndex >= |s.delays| then s
    else s.(retryIndex := s.retryIndex + 1, nextRetryAt := Some(s.now + s.delays[s.retryIndex]), timer := true)
  }

  function OnWriteOk(s: State, snapshot: nat, passes: nat): State {
    var t := s.(retryIndex := 0, health := Clean, attempts := 0, unsaved := s.dirty, nextRetryAt := None,
                written := Some(snapshot));
    if t.dirty && passes < MAX_PASSES then BeginPass(t, passes + 1)
    else if t.dirty then ScheduleRetry(t.(health := Dirty, unsaved := true)).(writer := Idle)
    else t.(writer := Idle)
  }

  function OnWriteFailed(s: State, retryable: bool): State {
    var t := s.(health := Failed, attempts := s.attempts + 1, unsaved := true, nextRetryAt := None);
    (if retryable then ScheduleRetry(t) else t).(writer := Idle)
  }

  function OnTimer(s: State): State {
    var t := s.(timer := false, dirty := true, nextRetryAt := None, retriesSinceChange := s.retriesSinceChange + 1);
    if t.writer != Idle then t else t.(writer := Queued)
  }

  function Step(s: State, e: Event): State {
    match e
    case Tick(ms) => s.(now := s.now + ms)
    case Announce => Persist(s.(announced := s.announced + 1, retriesSinceChange := 0))
    case Flush => if s.unsaved then Persist(s.(retriesSinceChange := 0)) else s
    case PassStart => if s.writer == Queued then BeginPass(s, 1) else s
    case WriteOk => if s.writer.Writing? then OnWriteOk(s, s.writer.snapshot, s.writer.passes) else s
    case WriteFailed(retryable) => if s.writer.Writing? then OnWriteFailed(s, retryable) else s
    case TimerFired =>
      if s.timer && s.nextRetryAt.Some? && s.now >= s.nextRetryAt.value then OnTimer(s) else s
  }

  function Run(s: State, events: seq<Event>): State {
    if events == [] then s
    else Step(Run(s, events[..|events| - 1]), events[|events| - 1])
  }

  function Init(delays: seq<nat>, now: nat): State {
    State(delays, now, Idle, false, false, 0, Clean, false, 0, None, 0, Some(0), 0)
  }

  // ---------------------------------------------------------------------------
  // The invariant
  // ---------------------------------------------------------------------------

  ghost predicate Inv(s: State) {
    // No lost update.
    && (!s.unsaved ==> s.written == Some(s.announced) && !s.dirty && s.writer == Idle && !s.timer)
    && (s.writer.Writing? && !s.dirty ==> s.writer.snapshot == s.announced)
    && (s.writer.Writing? ==> s.writer.snapshot <= s.announced && 1 <= s.writer.passes <= MAX_PASSES)
    && (s.written.Some? ==> s.written.value <= s.announced)
    && (s.writer.Writing? && s.written.Some? ==> s.written.value <= s.writer.snapshot)
    && (s.unsaved && s.writer == Idle && !s.timer ==> s.health == Failed || s.delays == [])
    // One writer or one timer, never both.
    && (s.timer ==> s.writer == Idle && s.nextRetryAt.Some? && s.unsaved)
    && (s.writer == Queued ==> s.dirty)
    // Bounded retries.
    && s.retryIndex <= |s.delays|
    && s.retriesSinceChange <= |s.delays|
    && (s.timer ==> s.retriesSinceChange + 1 <= s.retryIndex)
    && (s.writer != Idle && !(s.writer.Writing? && s.dirty) ==> s.retriesSinceChange <= s.retryIndex)
    && (s.writer.Writing? && s.dirty ==> s.retriesSinceChange == 0)
  }

  lemma StepInv(s: State, e: Event)
    requires Inv(s)
    ensures Inv(Step(s, e))
  {
  }

  lemma {:induction false} RunInv(s: State, events: seq<Event>)
    requires Inv(s)
    ensures Inv(Run(s, events))
  {
    if events == [] {
    } else {
      RunInv(s, events[..|events| - 1]);
      StepInv(Run(s, events[..|events| - 1]), events[|events| - 1]);
    }
  }

  // ---------------------------------------------------------------------------
  // What every run promises
  // ---------------------------------------------------------------------------

  ghost predicate Reachable(s: State) {
    exists delays, now, events :: s == Run(Init(delays, now), events)
  }

  lemma InitReachable(delays: seq<nat>, now: nat)
    ensures Reachable(Init(delays, now))
  {
    assert Run(Init(delays, now), []) == Init(delays, now);
  }

  lemma ReachableStep(s: State, e: Event)
    requires Reachable(s)
    ensures Reachable(Step(s, e))
  {
    hide Step;
    var delays, now, events :| s == Run(Init(delays, now), events);
    assert (events + [e])[..|events|] == events;
    assert Step(s, e) == Run(Init(delays, now), events + [e]);
  }

  lemma ReachableInv(s: State)
    requires Reachable(s)
    ensures Inv(s)
  {
    var delays, now, events :| s == Run(Init(delays, now), events);
    RunInv(Init(delays, now), events);
  }

  /** No announced change is lost: `unsaved` false means the last successful write holds them all. */
  lemma SavedMeansWritten(s: State)
    requires Reachable(s) && !s.unsaved
    ensures s.written == Some(s.announced)
    ensures s.writer == Idle && !s.timer && !s.dirty
  {
    ReachableInv(s);
  }

  /** At most one writer or one armed retry timer, never both. */
  lemma WriterOrTimer(s: State)
    requires Reachable(s)
    ensures s.timer ==> s.writer == Idle && s.nextRetryAt.Some?
    ensures s.writer != Idle ==> !s.timer
  {
    ReachableInv(s);
  }

  /** Without a new announcement or flush, at most one background retry per entry of the schedule runs. */
  lemma RetriesAreBounded(s: State)
    requires Reachable(s)
    ensures s.retriesSinceChange <= |s.delays|
    ensures s.timer ==> s.retriesSinceChange < |s.delays|
  {
    ReachableInv(s);
  }

  /** An unsaved change rests only on a reported failure (or on an empty retry schedule). */
  lemma UnsavedIsNeverForgotten(s: State)
    requires Reachable(s) && s.unsaved && s.writer == Idle && !s.timer
    ensures s.health == Failed || s.delays == []
  {
    ReachableInv(s);
  }

  /** With an empty schedule a change can rest unsaved without any failure: three passes, each overtaken. */
  lemma EmptyScheduleRests() returns (events: seq<Event>)
    ensures var s := Run(Init([], 0), events);
            s.unsaved && s.writer == Idle && !s.timer && s.health == Dirty
  {
    hide Step, Run;
    var e1 := RunSnoc(Init([], 0), [], Announce);
    var e2 := RunSnoc(Init([], 0), e1, PassStart);
    var e3 := RunSnoc(Init([], 0), e2, Announce);
    var e4 := RunSnoc(Init([], 0), e3, WriteOk);
    var e5 := RunSnoc(Init([], 0), e4, Announce);
    var e6 := RunSnoc(Init([], 0), e5, WriteOk);
    var e7 := RunSnoc(Init([], 0), e6, Announce);
    events := RunSnoc(Init([], 0), e7, WriteOk);
    EightSteps();
  }

  lemma RunSnoc(s: State, events: seq<Event>, e: Event) returns (all: seq<Event>)
    ensures Run(s, all) == Step(Run(s, events), e)
    ensures Run(s, []) == s
  {
    all := events + [e];
    assert all[..|all| - 1] == events;
  }

  lemma EightSteps()
    ensures var s1 := Step(Step(Init([], 0), Announce), PassStart);
            var s2 := Step(Step(s1, Announce), WriteOk);
            var s3 := Step(Step(s2, Announce), WriteOk);
            var s := Step(Step(s3, Announce), WriteOk);
            s.unsaved && s.writer == Idle && !s.timer && s.health == Dirty
  {
  }

  /** A write that no announcement overtook saves everything, from any state. */
  lemma QuietWriteSaves(s: State)
    requires Reachable(s) && s.writer.Writing? && !s.dirty
    ensures var t := Step(s, WriteOk);
            !t.unsaved && t.written == Some(t.announced) && t.health == Clean
  {
    ReachableInv(s);
  }

  lemma WrittenIsAnnounced(s: State)
    requires Inv(s) && s.written.Some?
    ensures s.written.value <= s.announced
  {
  }

  lemma WriteMovesForward(s: State, e: Event)
    requires Inv(s) && s.written.Some?
    ensures Step(s, e).written.Some? && s.written.value <= Step(s, e).written.value
  {
  }

  /** The written snapshot never goes back. */
  lemma {:induction false} WritesNeverGoBack(s: State, later: seq<Event>)
    requires Inv(s) && s.written.Some?
    ensures var t := Run(s, later);
            Inv(t) && t.written.Some? && s.written.value <= t.written.value <= t.announced
  {
    hide Inv;
    if later == [] {
      WrittenIsAnnounced(s);
    } else {
      var init := later[..|later| - 1];
      WritesNeverGoBack(s, init);
      StepInv(Run(s, init), later[|later| - 1]);
      WriteMovesForward(Run(s, init), later[|later| - 1]);
      WrittenIsAnnounced(Run(s, later));
    }
  }
}
