/**
 * What the solver dispatcher (proxy/captcha-solver.ts:215-338) makes of a worker's answer, of
 * the worker's death and of an admission, and what its counters count.
 */
module SolverVerdicts {
  import opened Util
  import opened Solver

  // ---------------------------------------------------------------------------
  // What the counters count
  // ---------------------------------------------------------------------------

  /** Length of the run of failures that ends the list; a refusal neither breaks nor extends it. */
  function TrailingFailures(settled: seq<Settlement>): nat {
    if settled == [] then 0
    else
      var before := TrailingFailures(settled[..|settled| - 1]);
      match settled[|settled| - 1].verdict
      case Solved(_) => 0
      case Failed => before + 1
      case Refused => before
  }

  /** Jobs the worker was given: all that were not refused. */
  function Given(settled: seq<Settlement>): nat {
    if settled == [] then 0
    else Given(settled[..|settled| - 1]) + (if settled[|settled| - 1].verdict.Refused? then 0 else 1)
  }

  /** `mark` is the number of jobs that had been settled when the live worker was spawned. */
  ghost predicate CountersInv(s: State, mark: nat) {
    && s.consecutiveFailures == TrailingFailures(s.settled)
    && (s.worker.Some? ==>
          && mark <= |s.settled|
          && s.solvesSinceSpawn == Given(s.settled[mark..])
          && s.generationFailures == TrailingFailures(s.settled[mark..]))
  }

  /** A worker other than before was spawned for the job that is now in flight. */
  function NextMark(s: State, t: State, mark: nat): nat {
    if t.worker != s.worker && t.inFlight.Some? then t.inFlight.value.job else mark
  }

  function SpawnMark(opts: Options, events: seq<Event>): nat {
    if events == [] then 0
    else
      var before := events[..|events| - 1];
      NextMark(Run(Init(opts), before), Run(Init(opts), events), SpawnMark(opts, before))
  }

  lemma SettledMore(settled: seq<Settlement>, mark: nat, last: Settlement)
    requires mark <= |settled|
    ensures (settled + [last])[mark..] == settled[mark..] + [last]
    ensures Given(settled[mark..] + [last]) == Given(settled[mark..]) + (if last.verdict.Refused? then 0 else 1)
    ensures TrailingFailures(settled[mark..] + [last]) ==
              if last.verdict.Solved? then 0
              else if last.verdict.Failed? then TrailingFailures(settled[mark..]) + 1
              else TrailingFailures(settled[mark..])
  {
    var since := settled[mark..];
    assert (since + [last])[..|since|] == since;
  }

  lemma SettleCounts(s: State, mark: nat, last: Settlement)
    requires s.worker.Some? ==> mark <= |s.settled|
    ensures TrailingFailures(s.settled + [last]) ==
              if last.verdict.Solved? then 0
              else if last.verdict.Failed? then TrailingFailures(s.settled) + 1
              else TrailingFailures(s.settled)
    ensures s.worker.Some? ==>
              && Given((s.settled + [last])[mark..]) == Given(s.settled[mark..]) + (if last.verdict.Refused? then 0 else 1)
              && TrailingFailures((s.settled + [last])[mark..]) ==
                   if last.verdict.Solved? then 0
                   else if last.verdict.Failed? then TrailingFailures(s.settled[mark..]) + 1
                   else TrailingFailures(s.settled[mark..])
  {
    SettledMore(s.settled, 0, last);
    assert s.settled[0..] == s.settled;
    if s.worker.Some? {
      SettledMore(s.settled, mark, last);
    }
  }

  lemma NextJobIsNextSettlement(s: State)
    requires Core(s) && s.inFlight.None? && s.queue != []
    ensures s.queue[0] == |s.settled|
  {
    assert (Jobs(s.settled) + [] + s.queue)[|s.settled|] == s.queue[0];
  }

  lemma AdmitCounts(s: State, c: Choice, mark: nat)
    requires Core(s) && s.inFlight.None? && s.queue != [] && CountersInv(s, mark)
    ensures CountersInv(Admit(s, c), NextMark(s, Admit(s, c), mark))
    ensures Core(Admit(s, c)) && (Admit(s, c).worker != s.worker ==> Admit(s, c).worker.None? || Admit(s, c).generation > s.generation)
    ensures Admit(s, c).generation >= s.generation
  {
    NextJobIsNextSettlement(s);
    AdmitCore(s, c);
    SettleCounts(s, mark, Settlement(s.queue[0], if c.refused then Refused else Failed));
    hide TrailingFailures, Given, Ordered, AccountInv;
    assert s.settled[|s.settled|..] == [];
    EmptyCounts();
  }

  lemma EmptyCounts()
    ensures Given([]) == 0 && TrailingFailures([]) == 0
  {
  }

  lemma {:induction false} PumpCounts(s: State, choices: seq<Choice>, mark: nat)
    requires Core(s) && CountersInv(s, mark)
    ensures var t := Pump(s, choices);
            && CountersInv(t, NextMark(s, t, mark))
            && t.generation >= s.generation
            && (t.worker.Some? && t.worker != s.worker ==> t.inFlight.Some? && t.generation > s.generation)
    decreases |s.queue|
  {
    if s.inFlight.Some? || s.queue == [] {
      hide TrailingFailures, Given;
    } else {
      AdmitCounts(s, HeadChoice(choices), mark);
      var u := Admit(s, HeadChoice(choices));
      hide Admit, TrailingFailures, Given, Ordered, AccountInv, CountersInv;
      PumpCounts(u, TailChoices(choices), NextMark(s, u, mark));
      PumpCore(s, choices);
      PumpCore(u, TailChoices(choices));
    }
  }

  lemma PumpCore(s: State, choices: seq<Choice>)
    requires Core(s)
    ensures WorkerInv(Pump(s, choices))
  {
    PumpInv(s, choices);
  }

  lemma FailureCounts(s: State, mark: nat, reason: Reason)
    requires CountersInv(s, mark)
    ensures CountersInv(Recycle(FailInFlight(s), reason), mark) && Recycle(FailInFlight(s), reason).worker.None?
  {
    if s.inFlight.Some? {
      SettleCounts(s, mark, Settlement(s.inFlight.value.job, Failed));
    }
    hide TrailingFailures, Given;
  }

  lemma DeadlineCounts(s: State, mark: nat, id: nat)
    requires CountersInv(s, mark) && s.inFlight.Some?
    ensures CountersInv(Step(s, DeadlineFired(id)), mark)
  {
    SettleCounts(s, mark, Settlement(s.inFlight.value.job, Failed));
    hide TrailingFailures, Given;
  }

  lemma SettledCounts(s: State, mark: nat, m: Message)
    requires CountersInv(s, mark) && s.worker.Some? && s.inFlight.Some? && m.Result?
    ensures CountersInv(AfterResult(s, m), mark) && AfterResult(s, m).worker == s.worker
  {
    SettleCounts(s, mark, Settlement(s.inFlight.value.job, if m.token.Some? then Solved(m.token.value) else Failed));
    hide TrailingFailures, Given, Stopping;
  }

  lemma ResultCounts(s: State, mark: nat, m: Message)
    requires CountersInv(s, mark) && s.worker.Some? && s.inFlight.Some? && m.Result?
    ensures CountersInv(OnResult(s, m), mark)
    ensures OnResult(s, m).worker == s.worker || OnResult(s, m).worker.None?
  {
    SettledCounts(s, mark, m);
    hide TrailingFailures, Given, ReasonAfter, Stopping, AfterResult;
  }

  lemma OtherCounts(s: State, e: Event, mark: nat)
    requires CountersInv(s, mark) && (e.IdleFired? || e.RequestRecycle? || e.Shutdown?)
    ensures CountersInv(Step(s, e), NextMark(s, Step(s, e), mark))
  {
    hide TrailingFailures, Given;
  }

  lemma PostedCounts(s: State, generation: nat, m: Message, mark: nat)
    requires CountersInv(s, mark)
    ensures CountersInv(OnPosted(s, generation, m), NextMark(s, OnPosted(s, generation, m), mark))
  {
    FailureCounts(s, mark, Fault);
    if s.worker.Some? && s.inFlight.Some? && m.Result? {
      ResultCounts(s, mark, m);
    }
    hide TrailingFailures, Given, OnResult, FailInFlight;
  }

  lemma StepCounts(s: State, e: Event, mark: nat)
    requires Solver.Inv(s) && CountersInv(s, mark)
    ensures CountersInv(Step(s, e), NextMark(s, Step(s, e), mark))
  {
    match e {
      case Submit(choices) =>
        SubmitCore(s);
        PumpCounts(s.(queue := s.queue + [s.submitted], submitted := s.submitted + 1), choices, mark);
      case PumpMicrotask(choices) =>
        if s.pumps > 0 {
          PumpCounts(s.(pumps := s.pumps - 1), choices, mark);
        }
      case Posted(generation, m) => PostedCounts(s, generation, m, mark);
      case WorkerError(_) => FailureCounts(s, mark, Fault);
      case WorkerClose(_) => FailureCounts(s, mark, Exit);
      case DeadlineFired(id) =>
        if s.inFlight.Some? {
          DeadlineCounts(s, mark, id);
        }
      case _ => OtherCounts(s, e, mark);
    }
    hide TrailingFailures, Given, Pump, Ordered, AccountInv, OnPosted, FailInFlight, ArmIdle;
  }

  /**
   * In every run the counters count what has been settled: consecutive failures are those at
   * the end of the list; a live worker's solves are the jobs it was given since its spawn,
   * its failures those at the end of them.
   */
  lemma {:induction false} CountersCount(opts: Options, events: seq<Event>)
    ensures var s := Run(Init(opts), events);
            && Solver.Inv(s) && CountersInv(s, SpawnMark(opts, events))
  {
    hide Step, CountersInv, Solver.Inv;
    if events == [] {
      InitInv(opts);
      InitCounts(opts);
    } else {
      var before := events[..|events| - 1];
      CountersCount(opts, before);
      StepInv(Run(Init(opts), before), events[|events| - 1]);
      StepCounts(Run(Init(opts), before), events[|events| - 1], SpawnMark(opts, before));
    }
  }

  lemma InitCounts(opts: Options)
    ensures CountersInv(Init(opts), 0)
  {
    EmptyCounts();
  }

  // ---------------------------------------------------------------------------
  // A worker's answer
  // ---------------------------------------------------------------------------

  /** A posted token solves the job in flight with that very token; a posted failure fails it. */
  lemma AnswerSettlesTheJob(s: State, token: Option<string>, cleanupFailed: bool, invalidToken: bool, heapUsedMB: Option<int>)
    requires Reachable(s) && s.inFlight.Some?
    ensures var f := s.inFlight.value;
            var t := Step(s, Posted(f.generation, Result(f.id, token, cleanupFailed, invalidToken, heapUsedMB)));
            && t.settled == s.settled + [Settlement(f.job, if token.Some? then Solved(token.value) else Failed)]
            && t.inFlight.None? && t.queue == s.queue && t.pumps == s.pumps + 1 && t.submitted == s.submitted
            && (t.worker == s.worker || t.worker.None?)
  {
    ReachableInv(s);
    hide TrailingFailures, Given, Ordered, AccountInv;
  }

  /** The reasons a result gives for recycling its worker, the most urgent first. */
  ghost predicate Because(s: State, mark: nat, failed: bool, cleanupFailed: bool, invalidToken: bool, heapUsedMB: Option<int>, reason: Option<Reason>)
    requires mark <= |s.settled|
  {
    var given := Given(s.settled[mark..]) + 1;
    var failures := if failed then TrailingFailures(s.settled[mark..]) + 1 else 0;
    if s.shutdownRequested && s.queue == [] then reason == Some(ShutDown)
    else if s.pendingRecycle.Some? then reason == s.pendingRecycle
    else if failed && cleanupFailed then reason == Some(CleanupFailed)
    else if failed && invalidToken then reason == Some(InvalidResult)
    else if failed && failures >= s.opts.recycleAfterFailures then reason == Some(TooManyFailures)
    else if given >= s.opts.recycleAfterSolves then reason == Some(TooManySolves)
    else if heapUsedMB.Some? && heapUsedMB.value > s.opts.maxWorkerHeapMB then reason == Some(HeapTooBig)
    else reason == None
  }

  /**
   * A result recycles its worker exactly for these reasons: a shutdown is owed and nothing
   * waits, a recycle is pending, the job failed and the worker could not clean up, gave an
   * invalid token or has now failed too often in a row, it has been given too many jobs, or
   * its heap is too big.
   */
  lemma ResultRecyclesIff(opts: Options, events: seq<Event>, token: Option<string>, cleanupFailed: bool, invalidToken: bool, heapUsedMB: Option<int>)
    requires Run(Init(opts), events).inFlight.Some?
    ensures var s := Run(Init(opts), events);
            var mark := SpawnMark(opts, events);
            var f := s.inFlight.value;
            var t := Step(s, Posted(f.generation, Result(f.id, token, cleanupFailed, invalidToken, heapUsedMB)));
            && mark <= |s.settled|
            && exists reason :: Because(s, mark, token.None?, cleanupFailed, invalidToken, heapUsedMB, reason)
                 && (t.worker.None? <==> reason.Some?)
                 && (reason.Some? ==> t.lastRecycleReason == reason && t.recycles == s.recycles + 1)
                 && (reason.None? ==> t.worker == s.worker && t.recycles == s.recycles)
                 && (t.shutdownRequested <==> s.shutdownRequested && s.queue != [])
  {
    CountersCount(opts, events);
    var s, mark := Run(Init(opts), events), SpawnMark(opts, events);
    hide Run, TrailingFailures, Given, Ordered, AccountInv, SpawnMark;
    var r := AnswerReason(s, mark, Result(s.inFlight.value.id, token, cleanupFailed, invalidToken, heapUsedMB));
  }

  lemma AnswerReason(s: State, mark: nat, m: Message) returns (reason: Option<Reason>)
    requires Solver.Inv(s) && CountersInv(s, mark) && s.inFlight.Some? && m.Result? && m.id == s.inFlight.value.id
    ensures mark <= |s.settled|
    ensures var t := Step(s, Posted(s.inFlight.value.generation, m));
            && Because(s, mark, m.token.None?, m.cleanupFailed, m.invalidToken, m.heapUsedMB, reason)
            && (t.worker.None? <==> reason.Some?)
            && (reason.Some? ==> t.lastRecycleReason == reason && t.recycles == s.recycles + 1)
            && (reason.None? ==> t.worker == s.worker && t.recycles == s.recycles)
            && (t.shutdownRequested <==> s.shutdownRequested && s.queue != [])
  {
    hide TrailingFailures, Given, Ordered, AccountInv;
    var t := AfterResult(s, m);
    reason := ReasonAfter(if Stopping(s) then Some(ShutDown) else s.pendingRecycle, t, m);
  }

  // ---------------------------------------------------------------------------
  // The death of a worker
  // ---------------------------------------------------------------------------

  /** A fault, an error or the exit of the live worker ends it and fails exactly the job in flight. */
  lemma DeathFailsTheSolve(s: State, e: Event)
    requires Reachable(s) && s.worker.Some?
    requires e == Posted(s.worker.value, Fatal) || e == WorkerError(s.worker.value) || e == WorkerClose(s.worker.value)
    ensures var t := Step(s, e);
            && t.worker.None? && t.inFlight.None? && t.pendingRecycle.None? && !t.idleTimer
            && t.settled == s.settled + (if s.inFlight.Some? then [Settlement(s.inFlight.value.job, Failed)] else [])
            && t.pumps == s.pumps + (if s.inFlight.Some? then 1 else 0)
            && t.recycles == s.recycles + 1 && t.lastRecycleReason == Some(if e.WorkerClose? then Exit else Fault)
            && t.queue == s.queue && t.shutdownRequested == s.shutdownRequested && t.deadlineKills == s.deadlineKills
  {
    ReachableInv(s);
    hide Ordered, AccountInv;
  }

  /** A requested recycle waits for the job in flight, the first request of several counts; an idle worker ends at once. */
  lemma RequestRecyclesIff(s: State, why: string)
    requires Reachable(s)
    ensures var t := Step(s, RequestRecycle(why));
            && (s.inFlight.Some? ==> t.worker == s.worker && t.pendingRecycle == (if s.pendingRecycle.Some? then s.pendingRecycle else Some(Requested(why))))
            && (s.inFlight.None? && s.worker.Some? ==> t.worker.None? && t.lastRecycleReason == Some(Requested(why)) && t.recycles == s.recycles + 1)
            && (s.worker.None? ==> t == s)
  {
    ReachableInv(s);
    hide Ordered, AccountInv;
  }

  /** The deadline of any other solve, and what an earlier solve still posts, changes nothing. */
  lemma OtherSolvesAreIgnored(s: State, id: nat, token: Option<string>, cleanupFailed: bool, invalidToken: bool, heapUsedMB: Option<int>)
    requires s.inFlight.None? || id != s.inFlight.value.id
    ensures Step(s, DeadlineFired(id)) == s
    ensures forall g: nat :: Step(s, Posted(g, Result(id, token, cleanupFailed, invalidToken, heapUsedMB))) == s
  {
  }

  /** When the idle timer fires on an empty queue the worker ends; a timer that was stopped does nothing. */
  lemma IdleWorkerEnds(s: State)
    requires Reachable(s)
    ensures var t := Step(s, IdleFired);
            if !s.idleTimer then t == s
            else
              && !t.idleTimer && t.settled == s.settled
              && if s.queue == [] then t.worker.None? && t.lastRecycleReason == Some(IdleTooLong) && t.recycles == s.recycles + 1 else t.worker == s.worker
  {
    ReachableInv(s);
    hide Ordered, AccountInv;
  }

  lemma {:induction false} PumpArms(s: State, choices: seq<Choice>)
    ensures var t := Pump(s, choices);
            && (t.idleTimer <==> t.worker.Some? && t.inFlight.None? && t.queue == [])
            && (s.inFlight.None? && s.queue == [] && !s.shutdownRequested ==> t.worker == s.worker && t.recycles == s.recycles)
            && (s.inFlight.None? && s.queue == [] && s.shutdownRequested ==>
                  t.worker.None? && !t.shutdownRequested && (s.worker.Some? ==> t.lastRecycleReason == Some(ShutDown) && t.recycles == s.recycles + 1))
    decreases |s.queue|
  {
    if s.inFlight.Some? || s.queue == [] {
    } else {
      PumpArms(Admit(s, HeadChoice(choices)), TailChoices(choices));
      hide Admit;
    }
  }

  /**
   * After every look at the queue the idle timer runs exactly if a live worker has nothing to
   * do. A look that finds nothing to do keeps the worker, unless a shutdown is owed.
   */
  lemma IdleTimerRunsIff(s: State, e: Event)
    requires e.Submit? || (e.PumpMicrotask? && s.pumps > 0) || e.Shutdown?
    ensures var t := Step(s, e);
            && (t.idleTimer <==> t.worker.Some? && t.inFlight.None? && t.queue == [])
            && (e.PumpMicrotask? && s.inFlight.None? && s.queue == [] && !s.shutdownRequested ==> t.worker == s.worker && t.recycles == s.recycles)
            && ((e.PumpMicrotask? && s.shutdownRequested) || e.Shutdown? ==> s.inFlight.None? && s.queue == [] ==>
                  t.worker.None? && !t.shutdownRequested && (s.worker.Some? ==> t.lastRecycleReason == Some(ShutDown)))
            && (e.Shutdown? && (s.inFlight.Some? || s.queue != []) ==> t.shutdownRequested && t.worker == s.worker)
  {
    match e {
      case Submit(choices) => PumpArms(s.(queue := s.queue + [s.submitted], submitted := s.submitted + 1), choices);
      case PumpMicrotask(choices) => PumpArms(s.(pumps := s.pumps - 1), choices);
      case _ =>
    }
    hide Pump;
  }

  // ---------------------------------------------------------------------------
  // Admission
  // ---------------------------------------------------------------------------

  /** What the environment does to the `i`-th job the pump takes up. */
  function ChoiceAt(choices: seq<Choice>, i: nat): Choice {
    if i < |choices| then choices[i] else Choice(false, false, false)
  }

  /** The `i`-th job finds no live worker: there was none, or an earlier job has failed. */
  ghost predicate NoWorkerAt(s: State, choices: seq<Choice>, i: nat) {
    s.worker.None? || exists j: nat :: j < i && !ChoiceAt(choices, j).refused
  }

  /** Spawning or dispatching throws for the `i`-th job. */
  ghost predicate Throws(s: State, choices: seq<Choice>, i: nat) {
    ChoiceAt(choices, i).dispatchThrows || (ChoiceAt(choices, i).spawnThrows && NoWorkerAt(s, choices, i))
  }

  /** The first `n` jobs of the queue were taken up and not dispatched. */
  ghost predicate Passed(s: State, choices: seq<Choice>, t: State, n: nat) {
    && n <= |s.queue| && |t.settled| == |s.settled| + n
    && (forall i :: 0 <= i < |s.settled| ==> t.settled[i] == s.settled[i])
    && forall i: nat :: i < n ==>
         && t.settled[|s.settled| + i] == Settlement(s.queue[i], if ChoiceAt(choices, i).refused then Refused else Failed)
         && (ChoiceAt(choices, i).refused || Throws(s, choices, i))
  }

  /** The next job is in flight on the live worker, and the rest waits; or there was none left. */
  ghost predicate TookUp(s: State, choices: seq<Choice>, t: State, n: nat) {
    && t.nextId >= s.nextId
    && (t.inFlight.None? ==> n == |s.queue| && t.queue == [])
    && (t.inFlight.Some? ==>
          && n < |s.queue| && t.queue == s.queue[n + 1..] && !ChoiceAt(choices, n).refused && !Throws(s, choices, n)
          && t.worker.Some? && t.inFlight.value == Flight(s.queue[n], t.nextId, t.worker.value)
          && t.nextId > s.nextId && !t.idleTimer
          && if NoWorkerAt(s, choices, n) then t.worker.value == t.generation && t.generation > s.generation
             else t.worker == s.worker && t.generation == s.generation)
    && t.generation >= s.generation
    && (t.inFlight.None? && !s.shutdownRequested && !NoWorkerAt(s, choices, n) ==> t.worker == s.worker)
  }

  /**
   * A pump takes up the queued jobs in order: those refused at admission are refused, those
   * for which spawning or dispatching throws fail, and the first other one is in flight with
   * a new solve id on the live worker; the rest waits. With none left, the queue is empty.
   */
  lemma {:induction false} PumpTakesTheNext(s: State, choices: seq<Choice>) returns (n: nat)
    requires Core(s) && s.inFlight.None?
    ensures var t := Pump(s, choices);
            Passed(s, choices, t, n) && TookUp(s, choices, t, n)
    decreases |s.queue|
  {
    if s.queue == [] {
      n := 0;
    } else {
      var u, rest := Admit(s, HeadChoice(choices)), TailChoices(choices);
      AdmitCore(s, HeadChoice(choices));
      assert Pump(s, choices) == Pump(u, rest);
      if u.inFlight.Some? {
        n := 0;
        TakesFirst(s, choices);
      } else {
        hide Pump, Admit, Passed, TookUp, Core;
        var m := PumpTakesTheNext(u, rest);
        n := m + 1;
        PassedOneMore(s, choices, Pump(u, rest), m);
        TookUpLater(s, choices, Pump(u, rest), m);
      }
    }
  }

  lemma ThrowsLater(s: State, choices: seq<Choice>, i: nat)
    requires s.queue != [] && s.inFlight.None? && Admit(s, HeadChoice(choices)).inFlight.None?
    ensures ChoiceAt(choices, i + 1) == ChoiceAt(TailChoices(choices), i)
    ensures NoWorkerAt(Admit(s, HeadChoice(choices)), TailChoices(choices), i) <==> NoWorkerAt(s, choices, i + 1)
    ensures Throws(Admit(s, HeadChoice(choices)), TailChoices(choices), i) <==> Throws(s, choices, i + 1)
  {
    var u := Admit(s, HeadChoice(choices));
    assert ChoiceAt(choices, 0) == HeadChoice(choices);
    assert u.worker.None? <==> s.worker.None? || !ChoiceAt(choices, 0).refused;
    hide Admit;
    if j: nat :| j < i + 1 && !ChoiceAt(choices, j).refused {
      if j > 0 {
        assert ChoiceAt(TailChoices(choices), j - 1) == ChoiceAt(choices, j);
      }
    }
    if j: nat :| j < i && !ChoiceAt(TailChoices(choices), j).refused {
      assert ChoiceAt(TailChoices(choices), j) == ChoiceAt(choices, j + 1);
    }
  }

  lemma TakesFirst(s: State, choices: seq<Choice>)
    requires s.queue != [] && s.inFlight.None? && Admit(s, HeadChoice(choices)).inFlight.Some?
    ensures Passed(s, choices, Pump(s, choices), 0) && TookUp(s, choices, Pump(s, choices), 0)
  {
  }

  lemma TookUpLater(s: State, choices: seq<Choice>, t: State, m: nat)
    requires s.queue != [] && s.inFlight.None? && Admit(s, HeadChoice(choices)).inFlight.None?
    requires TookUp(Admit(s, HeadChoice(choices)), TailChoices(choices), t, m)
    ensures TookUp(s, choices, t, m + 1)
  {
    ThrowsLater(s, choices, m);
    var u := Admit(s, HeadChoice(choices));
    assert u.queue == s.queue[1..] && u.nextId >= s.nextId;
    hide Admit;
  }

  lemma PassedOneMore(s: State, choices: seq<Choice>, t: State, m: nat)
    requires s.queue != [] && s.inFlight.None? && Admit(s, HeadChoice(choices)).inFlight.None?
    requires Passed(Admit(s, HeadChoice(choices)), TailChoices(choices), t, m)
    ensures Passed(s, choices, t, m + 1)
  {
    var u := Admit(s, HeadChoice(choices));
    assert ChoiceAt(choices, 0) == HeadChoice(choices);
    assert u.settled == s.settled + [Settlement(s.queue[0], if HeadChoice(choices).refused then Refused else Failed)];
    assert u.queue == s.queue[1..];
    assert HeadChoice(choices).refused || Throws(s, choices, 0);
    hide Admit;
    forall i: nat | i < m + 1
      ensures && t.settled[|s.settled| + i] == Settlement(s.queue[i], if ChoiceAt(choices, i).refused then Refused else Failed)
              && (ChoiceAt(choices, i).refused || Throws(s, choices, i))
    {
      if i == 0 {
        assert t.settled[|s.settled|] == u.settled[|s.settled|];
      } else {
        ThrowsLater(s, choices, i - 1);
        assert t.settled[|u.settled| + (i - 1)] == t.settled[|s.settled| + i];
      }
    }
  }
}
