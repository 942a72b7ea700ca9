/**
 * What the mint-storm breaker (proxy/captcha-pool.ts:505-509, 566-687) makes of every answer,
 * and what its window holds: the attempts answered in the last ten minutes.
 */
module MintDecisions {
  import opened Util
  import opened MintStorm

  // ---------------------------------------------------------------------------
  // The window
  // ---------------------------------------------------------------------------

  /** The attempt this section notes: a usable mint is a success, one that gave nothing usable a failure. */
  function Attempt(s: State, e: Event): Option<bool> {
    if !e.Settle? || e.id !in s.tasks then None
    else
      match s.tasks[e.id].stage
      case Running => if e.answer == RateLimited then None else Some(e.answer == Usable)
      case Queued => if e.answer == Failed then Some(false) else None
      case Cancelled(_) => None
  }

  /** Every attempt noted since the last storm was ended by its probe, with its time. */
  function History(start: nat, events: seq<Event>): seq<Outcome> {
    if events == [] then []
    else
      var before, e := events[..|events| - 1], events[|events| - 1];
      var s := Run(Init(start), before);
      if e == EndProbe && s.probe.Some? && s.probe.value.stage == Returned(true) then []
      else if Attempt(s, e).Some? then History(start, before) + [Outcome(s.now, Attempt(s, e).value)]
      else History(start, before)
  }

  /** The attempts less than ten minutes old. */
  function Recent(history: seq<Outcome>, now: nat): seq<Outcome> {
    if history == [] then []
    else
      var last := history[|history| - 1];
      Recent(history[..|history| - 1], now) + (if last.at + 600_000 > now then [last] else [])
  }

  function Good(outcomes: seq<Outcome>): nat {
    if outcomes == [] then 0 else Good(outcomes[..|outcomes| - 1]) + (if outcomes[|outcomes| - 1].ok then 1 else 0)
  }

  lemma {:induction false} RecentAppend(a: seq<Outcome>, b: seq<Outcome>, now: nat)
    ensures Recent(a + b, now) == Recent(a, now) + Recent(b, now)
  {
    if b == [] {
      assert a + b == a;
    } else {
      assert (a + b)[..|a + b| - 1] == a + b[..|b| - 1];
      RecentAppend(a, b[..|b| - 1], now);
    }
  }

  lemma {:induction false} OldIsNotRecent(outcomes: seq<Outcome>, now: nat)
    requires forall i :: 0 <= i < |outcomes| ==> outcomes[i].at + 600_000 <= now
    ensures Recent(outcomes, now) == []
  {
    if outcomes == [] {
    } else {
      OldIsNotRecent(outcomes[..|outcomes| - 1], now);
    }
  }

  lemma {:induction false} NewIsRecent(outcomes: seq<Outcome>, now: nat)
    requires forall i :: 0 <= i < |outcomes| ==> outcomes[i].at + 600_000 > now
    ensures Recent(outcomes, now) == outcomes
  {
    if outcomes == [] {
    } else {
      NewIsRecent(outcomes[..|outcomes| - 1], now);
      assert outcomes[..|outcomes| - 1] + [outcomes[|outcomes| - 1]] == outcomes;
    }
  }

  /** Pruning from the front keeps the recent attempts, and only them. */
  lemma PruneIsRecent(outcomes: seq<Outcome>, now: nat)
    requires InOrder(outcomes, now)
    ensures PruneOutcomes(outcomes, now) == Recent(outcomes, now)
  {
    PruneKeepsRecent(outcomes, now);
    var kept := PruneOutcomes(outcomes, now);
    hide PruneOutcomes, Recent, InOrder;
    SplitIsRecent(outcomes, |outcomes| - |kept|, now);
  }

  lemma SplitIsRecent(outcomes: seq<Outcome>, n: nat, now: nat)
    requires n <= |outcomes| && forall i :: 0 <= i < |outcomes| ==> (outcomes[i].at > now - 600_000 <==> i >= n)
    ensures Recent(outcomes, now) == outcomes[n..]
  {
    hide Recent;
    OldIsNotRecent(outcomes[..n], now);
    NewIsRecent(outcomes[n..], now);
    RecentAppend(outcomes[..n], outcomes[n..], now);
    assert outcomes[..n] + outcomes[n..] == outcomes;
  }

  lemma {:induction false} RecentLater(outcomes: seq<Outcome>, now: nat, later: nat)
    requires now <= later
    ensures Recent(Recent(outcomes, now), later) == Recent(outcomes, later)
  {
    if outcomes == [] {
    } else {
      var last := outcomes[|outcomes| - 1];
      RecentLater(outcomes[..|outcomes| - 1], now, later);
      RecentAppend(Recent(outcomes[..|outcomes| - 1], now), if last.at + 600_000 > now then [last] else [], later);
      if last.at + 600_000 > later {
        NewIsRecent([last], later);
      } else {
        OldIsNotRecent([last], later);
      }
    }
  }

  /** What a noted attempt does to the window. */
  lemma WindowStep(s: State, e: Event)
    requires Inv(s)
    ensures Step(s, e).mintOutcomes ==
              if e == EndProbe && s.probe.Some? && s.probe.value.stage == Returned(true) then []
              else if Attempt(s, e).Some? then PruneOutcomes(s.mintOutcomes + [Outcome(s.now, Attempt(s, e).value)], s.now)
              else s.mintOutcomes
    ensures Step(s, e).now >= s.now
  {
    hide PruneOutcomes, Degraded, Pow2, Inv;
  }

  /** In every run the window agrees with the history about the last ten minutes, now and later. */
  lemma {:induction false} WindowIsTheHistory(start: nat, events: seq<Event>, later: nat)
    requires later >= Run(Init(start), events).now
    ensures Recent(Run(Init(start), events).mintOutcomes, later) == Recent(History(start, events), later)
  {
    hide Step, PruneOutcomes, Attempt;
    if events == [] {
    } else {
      var before, e := events[..|events| - 1], events[|events| - 1];
      var s := Run(Init(start), before);
      RunInv(start, before);
      WindowStep(s, e);
      WindowIsTheHistory(start, before, later);
      if Attempt(s, e).Some? {
        var noted := [Outcome(s.now, Attempt(s, e).value)];
        PruneIsRecent(s.mintOutcomes + noted, s.now);
        RecentLater(s.mintOutcomes + noted, s.now, later);
        RecentAppend(s.mintOutcomes, noted, later);
        RecentAppend(History(start, before), noted, later);
      }
    }
  }

  lemma {:induction false} GoodIsSuccesses(outcomes: seq<Outcome>)
    ensures Good(outcomes) == Successes(outcomes)
  {
    if outcomes == [] {
    } else {
      GoodIsSuccesses(outcomes[..|outcomes| - 1]);
    }
  }

  lemma NotesFailureIff(s: State, e: Event)
    ensures NotesFailure(s, e) <==> Attempt(s, e) == Some(false)
  {
  }

  /**
   * A storm starts exactly when an attempt fails and of the attempts answered in the last ten
   * minutes, five at least with this one, fewer than one in five succeeded. Its backoff is a minute.
   */
  lemma StormStartsOnHistory(start: nat, events: seq<Event>, e: Event)
    requires Run(Init(start), events).storm.None?
    ensures var s := Run(Init(start), events);
            var recent := Recent(History(start, events) + [Outcome(s.now, false)], s.now);
            && (Step(s, e).storm.Some? <==> Attempt(s, e) == Some(false) && |recent| >= 5 && Good(recent) * 5 < |recent|)
            && (Step(s, e).storm.Some? ==> Step(s, e).storm.value.until == s.now + 60_000 && Step(s, e).storm.value.level == 0 && !Step(s, e).storm.value.probing)
  {
    var s := Run(Init(start), events);
    assert Reachable(s);
    WindowIsTheHistory(start, events, s.now);
    hide Run, Recent, Step, Attempt, Reachable;
    RecentAppend(History(start, events), [Outcome(s.now, false)], s.now);
    RecentAppend(s.mintOutcomes, [Outcome(s.now, false)], s.now);
    StormStartsOnRecent(s, e);
  }

  lemma StormStartsOnRecent(s: State, e: Event)
    requires Reachable(s) && s.storm.None?
    ensures var recent := Recent(s.mintOutcomes + [Outcome(s.now, false)], s.now);
            && (Step(s, e).storm.Some? <==> Attempt(s, e) == Some(false) && |recent| >= 5 && Good(recent) * 5 < |recent|)
            && (Step(s, e).storm.Some? ==> Step(s, e).storm.value.until == s.now + 60_000 && Step(s, e).storm.value.level == 0 && !Step(s, e).storm.value.probing)
  {
    ReachableInv(s);
    StormStartsIff(s, e);
    NotesFailureIff(s, e);
    hide Step, Reachable, NotesFailure, Attempt, PruneOutcomes, Recent;
    PruneIsRecent(s.mintOutcomes + [Outcome(s.now, false)], s.now);
    GoodIsSuccesses(Window(s));
  }

  /** A new storm is not any storm before it. */
  lemma StormsAreNumbered(s: State, e: Event)
    requires Reachable(s) && s.storm.None?
    ensures var t := Step(s, e);
            if t.storm.Some? then t.storm.value.serial == s.storms && t.storms == s.storms + 1 else t.storms == s.storms
  {
    hide Reachable, PruneOutcomes, Degraded;
  }

  // ---------------------------------------------------------------------------
  // Solves
  // ---------------------------------------------------------------------------

  /** The solve is over: it is no longer suspended, and counted out. */
  predicate IsOver(s: State, t: State, id: nat) {
    t.tasks == s.tasks - {id} && t.activeSolves == s.activeSolves - 1
  }

  /** It is queued for its next attempt. */
  predicate IsRetried(s: State, t: State, id: nat)
    requires id in s.tasks
  {
    t.tasks == s.tasks[id := Task(s.tasks[id].attempts, s.tasks[id].attempt + 1, Queued)] && t.activeSolves == s.activeSolves
  }

  /** A solve is begun exactly outside a pause and a storm, with at least one attempt to make. */
  lemma SolveBeginsIff(s: State, id: nat, attempts: nat)
    requires id !in s.tasks
    ensures Step(s, StartSolve(id, attempts)) ==
              if s.now >= s.pausedUntil && s.storm.None? && attempts > 0
              then s.(tasks := s.tasks[id := Task(attempts, 1, Queued)], activeSolves := s.activeSolves + 1) else s
  {
  }

  /** When its turn comes a solve is refused for a pause, else for a storm, else it runs. */
  lemma TurnDecides(s: State, id: nat)
    requires id in s.tasks && s.tasks[id].stage == Queued && !Busy(s)
    ensures var t := Step(s, Admit(id));
            && t.tasks == s.tasks[id := s.tasks[id].(stage :=
                 if s.now < s.pausedUntil then Cancelled(true) else if s.storm.Some? then Cancelled(false) else Running)]
            && t.admissions == (if s.now < s.pausedUntil || s.storm.Some? then s.admissions else s.admissions + [Admission(false, s.now, s.now, None)])
            && t.pausedUntil == s.pausedUntil && t.storm == s.storm && t.mintOutcomes == s.mintOutcomes && t.probe == s.probe && t.activeSolves == s.activeSolves
  {
    hide Busy;
  }

  /** While a mint is in flight nobody's turn comes. */
  lemma NobodyElsesTurn(s: State, id: nat)
    requires Busy(s)
    ensures Step(s, Admit(id)) == s && Step(s, AdmitProbe) == s
  {
    hide Busy;
  }

  /**
   * The answer of a mint: usable ends the solve, a rate limit ends it and pauses for five
   * minutes, anything else is tried again while attempts are left and neither a pause nor a
   * storm, this attempt included, has begun.
   */
  lemma AnswerDecides(s: State, id: nat, answer: Answer)
    requires id in s.tasks && s.tasks[id].stage == Running
    ensures var t := Step(s, Settle(id, answer));
            && t.probe == s.probe && t.admissions == s.admissions && t.now == s.now
            && (if answer == Usable then IsOver(s, t, id) && t.pausedUntil == s.pausedUntil && t.storm == s.storm
                else if answer == RateLimited then
                  IsOver(s, t, id) && t.storm == s.storm && t.pausedUntil >= s.pausedUntil && t.pausedUntil >= s.now + 300_000
                  && (t.pausedUntil == s.pausedUntil || t.pausedUntil == s.now + 300_000)
                else
                  && t.pausedUntil == s.pausedUntil
                  && (s.storm.Some? ==> t.storm == s.storm)
                  && if s.tasks[id].attempt < s.tasks[id].attempts && s.now >= s.pausedUntil && t.storm.None? then IsRetried(s, t, id) else IsOver(s, t, id))
  {
    hide PruneOutcomes, Degraded;
  }

  /** A solve refused at its turn is over; a refusal for the pause is filed as a rate limit. */
  lemma RefusalDecides(s: State, id: nat, answer: Answer)
    requires id in s.tasks && s.tasks[id].stage.Cancelled?
    ensures var t := Step(s, Settle(id, answer));
            && IsOver(s, t, id) && t.storm == s.storm && t.mintOutcomes == s.mintOutcomes && t.probe == s.probe
            && t.pausedUntil == if s.tasks[id].stage.byPause && s.now + 300_000 > s.pausedUntil then s.now + 300_000 else s.pausedUntil
  {
  }

  /** A job that could not be started counts as a failed attempt. */
  lemma UnstartedDecides(s: State, id: nat)
    requires id in s.tasks && s.tasks[id].stage == Queued
    ensures var t := Step(s, Settle(id, Failed));
            && t.pausedUntil == s.pausedUntil && t.probe == s.probe
            && if s.tasks[id].attempt < s.tasks[id].attempts && s.now >= s.pausedUntil && t.storm.None? then IsRetried(s, t, id) else IsOver(s, t, id)
    ensures forall answer :: answer != Failed ==> Step(s, Settle(id, answer)) == s
  {
    hide PruneOutcomes, Degraded;
  }

  // ---------------------------------------------------------------------------
  // The probe
  // ---------------------------------------------------------------------------

  /** The refill tick sends a probe exactly if a storm is on, none is out, its backoff has passed, and no pause holds. */
  lemma ProbeStartsIff(s: State)
    ensures Step(s, StartProbe) ==
              if s.storm.Some? && !s.storm.value.probing && s.now >= s.storm.value.until && s.now >= s.pausedUntil
              then s.(storm := Some(s.storm.value.(probing := true)), activeSolves := s.activeSolves + 1,
                      probe := Some(Probe(s.storm.value.serial, s.now, Solving(Queued))))
              else s
  {
  }

  /** The probe's turn: refused for a pause only. */
  lemma ProbeTurnDecides(s: State)
    requires s.probe.Some? && s.probe.value.stage == Solving(Queued) && !Busy(s)
    ensures Step(s, AdmitProbe) ==
              if s.now < s.pausedUntil then s.(probe := Some(s.probe.value.(stage := Solving(Cancelled(true)))))
              else s.(probe := Some(s.probe.value.(stage := Solving(Running))),
                      admissions := s.admissions + [Admission(true, s.now, s.probe.value.startedAt, s.storm)])
  {
    hide Busy;
  }

  /** The probe succeeds exactly with a usable mint; its refusal and a rate limit pause; nothing it does is noted. */
  lemma ProbeAnswerDecides(s: State, answer: Answer)
    requires s.probe.Some? && s.probe.value.stage.Solving? && (s.probe.value.stage.stage == Queued ==> answer == Failed)
    ensures var t := Step(s, SettleProbe(answer));
            var limited := s.probe.value.stage.stage.Cancelled? || (s.probe.value.stage.stage == Running && answer == RateLimited);
            t == s.(activeSolves := s.activeSolves - 1,
                    probe := Some(s.probe.value.(stage := Returned(s.probe.value.stage.stage == Running && answer == Usable))),
                    pausedUntil := if limited && s.now + 300_000 > s.pausedUntil then s.now + 300_000 else s.pausedUntil)
  {
  }

  /** Backoffs in minutes: one, two, four, eight, and ten from then on. */
  lemma BackoffsInMinutes(level: nat)
    ensures Backoff(level) == (if level == 0 then 1 else if level == 1 then 2 else if level == 2 then 4 else if level == 3 then 8 else 10) * 60_000
  {
    assert Pow2(0) == 1 && Pow2(1) == 2 && Pow2(2) == 4 && Pow2(3) == 8;
    if level >= 4 {
      BackoffsGrow(4, level);
    }
  }

  /** The probe's return: success ends the storm and forgets the window; failure backs off one level further. */
  lemma ReturnDecides(s: State)
    requires Reachable(s) && s.probe.Some? && s.probe.value.stage.Returned?
    ensures s.storm.Some? && Step(s, EndProbe) ==
              if s.probe.value.stage.ok then s.(probe := None, storm := None, mintOutcomes := [])
              else
                var level := s.storm.value.level + 1;
                s.(probe := None, storm := Some(s.storm.value.(level := level, probing := false, until := s.now + Backoff(level))))
  {
    ReachableInv(s);
  }

  /** The clock never goes back; a pause from outside only ever extends the one that holds; neither changes anything else. */
  lemma TimePasses(s: State, to: nat, start: nat)
    ensures Step(s, Tick(to)) == s.(now := if to > s.now then to else s.now)
    ensures Step(s, Pause(to)) == s.(pausedUntil := if to > s.pausedUntil then to else s.pausedUntil)
    ensures var t := Init(start);
            && t.now == start && t.pausedUntil == 0 && t.mintOutcomes == [] && t.storm.None? && t.storms == 0
            && t.activeSolves == 0 && t.tasks == map[] && t.probe.None? && t.admissions == []
  {
  }
}
