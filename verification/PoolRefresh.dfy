/**
 * How a running proxy follows the account store (auth/runtime.ts:67-119): a single-flight
 * refresh that hands a changed pool to the rotator, and the persist callback that hands it
 * the pool it has just written. Other processes commit in between.
 */
module PoolRefresh {
  import opened Util
  import opened Accounts

  /** A refresh in flight: before its read, or holding the revision it read. */
  datatype Refresh = Reading(startedAt: nat) | Read(startedAt: nat, revision: nat)

  /**
   * `versions[k]` is what the store held at revision `k`; `synced` is the pool last given
   * to the rotator, and `persisted` a write whose result is on its way back.
   */
  datatype State = State(
    versions: seq<seq<Profile>>,
    observedRevision: nat,
    synced: seq<Profile>,
    refresh: Option<Refresh>,
    persisted: Option<nat>)

  datatype Event =
    | StoreCommits(accounts: seq<Profile>)
    | RefreshCalled
    | StoreRead
    | ReadFailed
    | RefreshDone
    | PersistCommits(accounts: seq<Profile>)
    | PersistDone

  function Revision(s: State): int {
    |s.versions| - 1
  }

  function Init(accounts: seq<Profile>): State {
    State([accounts], 0, accounts, None, None)
  }

  function OnRefreshCalled(s: State): State {
    if s.refresh.Some? || s.versions == [] then s else s.(refresh := Some(Reading(Revision(s))))
  }

  function OnStoreRead(s: State): State {
    if s.refresh.None? || s.refresh.value.Read? || s.versions == [] then s
    else s.(refresh := Some(Read(s.refresh.value.startedAt, Revision(s))))
  }

  /** Hands the pool over only if its revision is not the one observed last. */
  function OnRefreshDone(s: State): State {
    if s.refresh.None? || s.refresh.value.Reading? then s
    else
      var revision := s.refresh.value.revision;
      if revision == s.observedRevision || revision >= |s.versions| then s.(refresh := None)
      else s.(synced := s.versions[revision], observedRevision := revision, refresh := None)
  }

  function OnPersistDone(s: State): State {
    if s.persisted.None? || s.persisted.value >= |s.versions| then s
    else s.(synced := s.versions[s.persisted.value], observedRevision := s.persisted.value, persisted := None)
  }

  function Step(s: State, e: Event): State {
    match e
    case StoreCommits(accounts) => s.(versions := s.versions + [accounts])
    case RefreshCalled => OnRefreshCalled(s)
    case StoreRead => OnStoreRead(s)
    case ReadFailed => if s.refresh.Some? && s.refresh.value.Reading? then s.(refresh := None) else s
    case RefreshDone => OnRefreshDone(s)
    case PersistCommits(accounts) =>
      if s.persisted.Some? then s else s.(persisted := Some(|s.versions|), versions := s.versions + [accounts])
    case PersistDone => OnPersistDone(s)
  }

  function Run(s: State, events: seq<Event>): State {
    if events == [] then s else Step(Run(s, events[..|events| - 1]), events[|events| - 1])
  }

  ghost predicate Reachable(s: State) {
    exists accounts: seq<Profile>, events: seq<Event> :: s == Run(Init(accounts), events)
  }

  ghost predicate Inv(s: State) {
    && s.observedRevision < |s.versions|
    && s.synced == s.versions[s.observedRevision]
    && (s.refresh.Some? ==> s.refresh.value.startedAt < |s.versions|)
    && (s.refresh.Some? && s.refresh.value.Read? ==> s.refresh.value.startedAt <= s.refresh.value.revision < |s.versions|)
    && (s.persisted.Some? ==> s.persisted.value < |s.versions|)
  }

  lemma StepInv(s: State, e: Event)
    requires Inv(s)
    ensures Inv(Step(s, e)) && s.versions <= Step(s, e).versions
  {
  }

  lemma {:induction false} RunInv(accounts: seq<Profile>, events: seq<Event>)
    ensures Inv(Run(Init(accounts), events))
  {
    hide Step;
    if events == [] {
      assert Run(Init(accounts), events) == Init(accounts);
    } else {
      RunInv(accounts, events[..|events| - 1]);
      StepInv(Run(Init(accounts), events[..|events| - 1]), events[|events| - 1]);
    }
  }

  lemma ReachableInv(s: State)
    requires Reachable(s)
    ensures Inv(s)
  {
    var accounts: seq<Profile>, events: seq<Event> :| s == Run(Init(accounts), events);
    RunInv(accounts, events);
  }

  /** The observed revision always names the pool the rotator was given last. */
  lemma ObservedIsSynced(s: State)
    requires Reachable(s)
    ensures 0 <= s.observedRevision <= Revision(s) && s.synced == s.versions[s.observedRevision]
  {
    ReachableInv(s);
  }

  /**
   * Skipping an unchanged revision loses nothing: after a refresh the rotator holds the pool
   * that was read, which is no older than the store was when the refresh began.
   */
  lemma RefreshCatchesUp(s: State)
    requires Reachable(s) && s.refresh.Some? && s.refresh.value.Read?
    ensures var t, r := Step(s, RefreshDone), s.refresh.value;
            && t.refresh.None? && r.startedAt <= r.revision <= Revision(s)
            && t.synced == s.versions[r.revision] && t.observedRevision == r.revision
  {
    ReachableInv(s);
  }

  /** After a refresh that nothing overlaps the rotator has the newest pool. */
  lemma QuietRefreshIsCurrent(s: State)
    requires Reachable(s) && s.refresh.None?
    ensures var t := Step(Step(Step(s, RefreshCalled), StoreRead), RefreshDone);
            t.observedRevision == Revision(t) && t.synced == t.versions[Revision(t)] && t.refresh.None?
  {
    ReachableInv(s);
  }

  predicate Reads(s: State, e: Event) {
    e.StoreRead? && s.refresh.Some? && s.refresh.value.Reading?
  }

  predicate HandsOver(s: State, e: Event) {
    e.RefreshDone? && s.refresh.Some? && s.refresh.value.Read?
  }

  predicate Commits(s: State, e: Event) {
    e.PersistCommits? && s.persisted.None?
  }

  predicate Returns(s: State, e: Event) {
    e.PersistDone? && s.persisted.Some?
  }

  /** The proxy has committed a write since the store was last read. */
  predicate WroteSinceRead(accounts: seq<Profile>, events: seq<Event>) {
    events != []
    && var before, e := events[..|events| - 1], events[|events| - 1];
       var s := Run(Init(accounts), before);
       !Reads(s, e) && (Commits(s, e) || WroteSinceRead(accounts, before))
  }

  /** A write committed since the last read has returned as well. */
  predicate ReturnedSinceRead(accounts: seq<Profile>, events: seq<Event>) {
    events != []
    && var before, e := events[..|events| - 1], events[|events| - 1];
       var s := Run(Init(accounts), before);
       !Reads(s, e) && ((Returns(s, e) && WroteSinceRead(accounts, before)) || ReturnedSinceRead(accounts, before))
  }

  /** Another process has committed since the proxy's last write. */
  predicate OvertakenSinceWrite(accounts: seq<Profile>, events: seq<Event>) {
    events != []
    && var before, e := events[..|events| - 1], events[|events| - 1];
       !Commits(Run(Init(accounts), before), e) && (e.StoreCommits? || OvertakenSinceWrite(accounts, before))
  }

  /** A refresh has read what another process committed since the proxy's last write. */
  predicate SeenSinceWrite(accounts: seq<Profile>, events: seq<Event>) {
    events != []
    && var before, e := events[..|events| - 1], events[|events| - 1];
       var s := Run(Init(accounts), before);
       !Commits(s, e) && ((Reads(s, e) && OvertakenSinceWrite(accounts, before)) || SeenSinceWrite(accounts, before))
  }

  /** And has handed it over. */
  predicate HandedSinceWrite(accounts: seq<Profile>, events: seq<Event>) {
    events != []
    && var before, e := events[..|events| - 1], events[|events| - 1];
       var s := Run(Init(accounts), before);
       !Commits(s, e) && ((HandsOver(s, e) && SeenSinceWrite(accounts, before)) || HandedSinceWrite(accounts, before))
  }

  /** What the two histories of a run say of the revisions in its last state. */
  lemma {:induction false} HistoryShows(accounts: seq<Profile>, events: seq<Event>)
    ensures var s := Run(Init(accounts), events);
            && Inv(s)
            && (s.refresh.Some? && s.refresh.value.Read? ==>
                  && (s.observedRevision > s.refresh.value.revision <==> ReturnedSinceRead(accounts, events))
                  && (s.persisted.Some? ==> (s.persisted.value > s.refresh.value.revision <==> WroteSinceRead(accounts, events)))
                  && (s.persisted.None? && WroteSinceRead(accounts, events) ==> ReturnedSinceRead(accounts, events)))
            && (ReturnedSinceRead(accounts, events) ==> WroteSinceRead(accounts, events))
    decreases |events|
  {
    if events == [] {
      assert Run(Init(accounts), events) == Init(accounts);
    } else {
      HistoryShows(accounts, events[..|events| - 1]);
      StepInv(Run(Init(accounts), events[..|events| - 1]), events[|events| - 1]);
    }
  }

  lemma {:induction false} WriteHistoryShows(accounts: seq<Profile>, events: seq<Event>)
    ensures var s := Run(Init(accounts), events);
            && Inv(s)
            && (s.persisted.Some? ==>
                  && (Revision(s) > s.persisted.value <==> OvertakenSinceWrite(accounts, events))
                  && (s.observedRevision > s.persisted.value <==> HandedSinceWrite(accounts, events))
                  && (if s.refresh.Some? && s.refresh.value.Read?
                      then s.refresh.value.revision > s.persisted.value <==> SeenSinceWrite(accounts, events)
                      else SeenSinceWrite(accounts, events) ==> HandedSinceWrite(accounts, events)))
            && (HandedSinceWrite(accounts, events) ==> SeenSinceWrite(accounts, events))
            && (SeenSinceWrite(accounts, events) ==> OvertakenSinceWrite(accounts, events))
    decreases |events|
  {
    if events == [] {
      assert Run(Init(accounts), events) == Init(accounts);
    } else {
      WriteHistoryShows(accounts, events[..|events| - 1]);
      StepInv(Run(Init(accounts), events[..|events| - 1]), events[|events| - 1]);
    }
  }

  /**
   * The two overlaps: a write of the proxy begun and finished between the read and the
   * hand-over of a refresh, and a refresh that read and handed over another process's commit
   * between the commit and the return of a write.
   */
  predicate Overlapped(accounts: seq<Profile>, events: seq<Event>, e: Event) {
    var s := Run(Init(accounts), events);
    || (HandsOver(s, e) && ReturnedSinceRead(accounts, events))
    || (Returns(s, e) && HandedSinceWrite(accounts, events))
  }

  /** The rotator is taken back to an older pool exactly at the end of an overlap. */
  lemma GoesBackIffOverlapped(accounts: seq<Profile>, events: seq<Event>, e: Event)
    ensures var s := Run(Init(accounts), events);
            Step(s, e).observedRevision < s.observedRevision <==> Overlapped(accounts, events, e)
  {
    HistoryShows(accounts, events);
    WriteHistoryShows(accounts, events);
    hide ReturnedSinceRead, HandedSinceWrite, SeenSinceWrite, WroteSinceRead, OvertakenSinceWrite;
  }

  ghost predicate NoOverlap(accounts: seq<Profile>, events: seq<Event>, later: seq<Event>) {
    forall i :: 0 <= i < |later| ==> !Overlapped(accounts, events + later[..i], later[i])
  }

  /** Over any stretch of a run in which no overlap ends, the observed revision never falls. */
  lemma {:induction false} WithoutOverlapsNeverGoesBack(accounts: seq<Profile>, events: seq<Event>, later: seq<Event>)
    requires NoOverlap(accounts, events, later)
    ensures Run(Init(accounts), events).observedRevision <= Run(Init(accounts), events + later).observedRevision
    decreases |later|
  {
    hide Run, Step, Overlapped;
    if later == [] {
      assert events + later == events;
    } else {
      var n := |later| - 1;
      assert forall i :: 0 <= i < n ==> later[..n][..i] == later[..i] && later[..n][i] == later[i];
      WithoutOverlapsNeverGoesBack(accounts, events, later[..n]);
      GoesBackIffOverlapped(accounts, events + later[..n], later[n]);
      RunSnoc(Init(accounts), events + later[..n], later[n]);
      assert events + later == events + later[..n] + [later[n]];
    }
  }

  lemma RunSnoc(s: State, events: seq<Event>, e: Event)
    ensures Run(s, events + [e]) == Step(Run(s, events), e)
  {
    assert (events + [e])[..|events|] == events;
  }

  /** Such a run: the refresh reads, the proxy persists and syncs, then the old read is applied. */
  lemma OverlappedRefreshGoesBack(accounts: seq<Profile>, written: seq<Profile>)
    ensures var read := Step(Step(Init(accounts), RefreshCalled), StoreRead);
            var persisted := Step(Step(read, PersistCommits(written)), PersistDone);
            var t := Step(persisted, RefreshDone);
            persisted.observedRevision == 1 && persisted.synced == written
            && t.observedRevision == 0 && t.synced == accounts && t.versions == [accounts, written]
  {
  }

  /** The other way round: the write returns after a refresh has handed over what another process wrote later. */
  lemma OverlappedWriteGoesBack(accounts: seq<Profile>, written: seq<Profile>, others: seq<Profile>)
    ensures var begun := Step(Step(Init(accounts), PersistCommits(written)), StoreCommits(others));
            var handed := Step(Step(Step(begun, RefreshCalled), StoreRead), RefreshDone);
            var t := Step(handed, PersistDone);
            handed.observedRevision == 2 && handed.synced == others
            && t.observedRevision == 1 && t.synced == written && t.versions == [accounts, written, others]
  {
  }

  /** A failed read ends the refresh and changes nothing else, so that the next call reads again. */
  lemma FailedReadEndsTheRefresh(s: State)
    requires Reachable(s) && s.refresh.Some? && s.refresh.value.Reading?
    ensures var t := Step(s, ReadFailed);
            var again := Step(t, RefreshCalled).refresh;
            t == s.(refresh := None) && again.Some? && again.value.Reading? && again.value.startedAt == Revision(s)
  {
    ReachableInv(s);
  }
}
