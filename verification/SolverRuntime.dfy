/**
 * The solver dispatcher in the source's own form: mutable variables, callbacks and the
 * `pump` loop.  Each entry point is proved to be one step of module `Solver`.
 */
module SolverRuntime {
  import opened Util
  import opened S = Solver

  class CaptchaSolver {
    const opts: Options
    var queue: seq<nat>
    var inFlight: Option<Flight>
    var worker: Option<nat>
    var idleTimer: bool
    var pendingRecycle: Option<Reason>
    var shutdownRequested: bool
    var nextId: nat
    var generationFailures: nat
    var generation: nat
    var solvesSinceSpawn: nat
    var totalSolves: nat
    var totalFailures: nat
    var consecutiveFailures: nat
    var deadlineKills: nat
    var recycles: nat
    var lastRecycleReason: Option<Reason>
    var pumps: nat
    /** Number of submitted jobs; it names the next one. */
    var submitted: nat
    ghost var settled: seq<Settlement>

    ghost function State(): State
      reads this
    {
      S.State(opts, queue, inFlight, worker, idleTimer, pendingRecycle, shutdownRequested, nextId,
              generationFailures, generation, solvesSinceSpawn, totalSolves, totalFailures,
              consecutiveFailures, deadlineKills, recycles, lastRecycleReason, pumps, submitted, settled)
    }

    /** Some run of module `Solver` gives this state. */
    ghost predicate Valid()
      reads this
    {
      Reachable(State())
    }

    constructor (opts: Options)
      ensures Valid() && State() == Init(opts)
    {
      this.opts := opts;
      queue := [];
      inFlight, worker, idleTimer, pendingRecycle, shutdownRequested := None, None, false, None, false;
      nextId, generationFailures, generation, solvesSinceSpawn := 0, 0, 0, 0;
      totalSolves, totalFailures, consecutiveFailures, deadlineKills, recycles := 0, 0, 0, 0, 0;
      lastRecycleReason := None;
      pumps := 0;
      submitted, settled := 0, [];
      new;
      InitReachable(opts);
    }

    method CloseJob(job: nat, verdict: Verdict)
      modifies this`settled
      ensures State() == SettleJob(old(State()), job, verdict)
    {
      settled := settled + [Settlement(job, verdict)];
    }

    method SpawnWorker()
      modifies this
      ensures State() == Spawn(old(State()))
    {
      generation := generation + 1;
      worker := Some(generation);
      solvesSinceSpawn := 0;
      generationFailures := 0;
    }

    method RecycleWorker(reason: Reason)
      modifies this
      ensures State() == Recycle(old(State()), reason)
    {
      var w := worker;
      worker := None;
      pendingRecycle := None;
      idleTimer := false;
      if w.None? {
        return;
      }
      recycles := recycles + 1;
      lastRecycleReason := Some(reason);
    }

    method FailCurrent()
      modifies this
      ensures State() == FailInFlight(old(State()))
    {
      if inFlight.None? {
        return;
      }
      var job := inFlight.value.job;
      inFlight := None;
      totalFailures := totalFailures + 1;
      consecutiveFailures := consecutiveFailures + 1;
      CloseJob(job, Failed);
      pumps := pumps + 1;
    }

    method ArmIdleTimer()
      modifies this
      ensures State() == ArmIdle(old(State()))
    {
      idleTimer := false;
      if inFlight.Some? || queue != [] {
        return;
      }
      if shutdownRequested {
        shutdownRequested := false;
        RecycleWorker(ShutDown);
        return;
      }
      if worker.None? {
        return;
      }
      idleTimer := true;
    }

    method RejectAdmission(job: nat)
      modifies this
      ensures State() == FailAdmission(old(State()), job)
    {
      totalFailures := totalFailures + 1;
      consecutiveFailures := consecutiveFailures + 1;
      RecycleWorker(SpawnFailed);
      CloseJob(job, Failed);
    }

    /** `worker ?? spawnWorker()`, which may throw. */
    method TakeWorker(spawnThrows: bool) returns (spawned: bool)
      modifies this
      ensures spawned <==> !(old(worker).None? && spawnThrows)
      ensures State() == if old(worker).None? && !spawnThrows then Spawn(old(State())) else old(State())
    {
      spawned := true;
      if worker.None? {
        if spawnThrows {
          spawned := false;
        } else {
          SpawnWorker();
        }
      }
    }

    /** Take the head of the queue: refuse it, fail it, or put it in flight. */
    method AdmitNext(c: Choice)
      requires queue != []
      modifies this
      ensures State() == Admit(old(State()), c)
    {
      hide FailAdmission, SettleJob;
      var job := queue[0];
      queue := queue[1..];
      if c.refused {
        CloseJob(job, Refused);
        return;
      }
      idleTimer := false;
      nextId := nextId + 1;
      var spawned := TakeWorker(c.spawnThrows);
      if spawned && !c.dispatchThrows {
        inFlight := Some(Flight(job, nextId, worker.value));
        return;
      }
      RejectAdmission(job);
    }

    method PumpQueue(choices: seq<Choice>)
      modifies this
      ensures State() == Pump(old(State()), choices)
    {
      var rest := choices;
      while inFlight.None? && queue != []
        invariant Pump(old(State()), choices) == Pump(State(), rest)
        decreases |queue|
      {
        AdmitNext(HeadChoice(rest));
        rest := TailChoices(rest);
      }
      ArmIdleTimer();
    }

    method RunCaptchaSolve(choices: seq<Choice>)
      requires Valid()
      modifies this
      ensures Valid() && State() == Step(old(State()), Submit(choices))
    {
      hide Reachable, Run;
      ReachableStep(State(), Submit(choices));
      queue := queue + [submitted];
      submitted := submitted + 1;
      PumpQueue(choices);
    }

    method OnPumpMicrotask(choices: seq<Choice>)
      requires Valid() && pumps > 0
      modifies this
      ensures Valid() && State() == Step(old(State()), PumpMicrotask(choices))
    {
      hide Reachable, Run;
      ReachableStep(State(), PumpMicrotask(choices));
      pumps := pumps - 1;
      PumpQueue(choices);
    }

    method SettleSolve(job: nat, token: string)
      modifies this
      ensures State() ==
        var t := old(State());
        SettleJob(t.(totalSolves := t.totalSolves + 1, consecutiveFailures := 0, generationFailures := 0), job, Solved(token))
    {
      totalSolves := totalSolves + 1;
      consecutiveFailures := 0;
      generationFailures := 0;
      CloseJob(job, Solved(token));
    }

    method SettleFailure(job: nat)
      modifies this
      ensures State() ==
        var t := old(State());
        SettleJob(CountFailure(t.(generationFailures := t.generationFailures + 1)), job, Failed)
    {
      totalFailures := totalFailures + 1;
      consecutiveFailures := consecutiveFailures + 1;
      generationFailures := generationFailures + 1;
      CloseJob(job, Failed);
    }

    method SettleResult(m: Message)
      requires inFlight.Some? && m.Result?
      modifies this
      ensures State() == AfterResult(old(State()), m)
    {
      hide SettleJob, CountFailure;
      var job := inFlight.value.job;
      if shutdownRequested && queue == [] {
        shutdownRequested := false;
      }
      inFlight := None;
      solvesSinceSpawn := solvesSinceSpawn + 1;
      pumps := pumps + 1;
      if m.token.Some? {
        SettleSolve(job, m.token.value);
      } else {
        SettleFailure(job);
      }
    }

    method RecycleReason(first: Option<Reason>, m: Message) returns (reason: Option<Reason>)
      requires m.Result?
      ensures reason == ReasonAfter(first, State(), m)
    {
      reason := first;
      if m.token.None? {
        if m.cleanupFailed && reason.None? { reason := Some(CleanupFailed); }
        if m.invalidToken && reason.None? { reason := Some(InvalidResult); }
        if generationFailures >= opts.recycleAfterFailures && reason.None? { reason := Some(TooManyFailures); }
      }
      if solvesSinceSpawn >= opts.recycleAfterSolves && reason.None? { reason := Some(TooManySolves); }
      if m.heapUsedMB.Some? && m.heapUsedMB.value > opts.maxWorkerHeapMB && reason.None? { reason := Some(HeapTooBig); }
    }

    method OnWorkerResult(m: Message)
      requires inFlight.Some? && m.Result? && m.id == inFlight.value.id
      modifies this
      ensures State() == OnResult(old(State()), m)
    {
      hide AfterResult, ReasonAfter, Recycle;
      var reason := pendingRecycle;
      if shutdownRequested && queue == [] {
        reason := Some(ShutDown);
      }
      SettleResult(m);
      reason := RecycleReason(reason, m);
      if reason.Some? {
        RecycleWorker(reason.value);
      }
    }

    /** A message event; `from` is the generation that posted it. */
    method OnMessage(from: nat, m: Message)
      requires Valid()
      modifies this
      ensures Valid() && State() == Step(old(State()), Posted(from, m))
    {
      hide Reachable, Run;
      ReachableStep(State(), Posted(from, m));
      if worker != Some(from) {
        return;
      }
      if m.Fatal? {
        FailCurrent();
        RecycleWorker(Fault);
        return;
      }
      if inFlight.None? || m.id != inFlight.value.id {
        return;
      }
      OnWorkerResult(m);
    }

    method OnWorkerError(from: nat)
      requires Valid()
      modifies this
      ensures Valid() && State() == Step(old(State()), WorkerError(from))
    {
      hide Reachable, Run;
      ReachableStep(State(), WorkerError(from));
      if worker != Some(from) {
        return;
      }
      FailCurrent();
      RecycleWorker(Fault);
    }

    method OnWorkerClose(from: nat)
      requires Valid()
      modifies this
      ensures Valid() && State() == Step(old(State()), WorkerClose(from))
    {
      hide Reachable, Run;
      ReachableStep(State(), WorkerClose(from));
      if worker != Some(from) {
        return;
      }
      FailCurrent();
      RecycleWorker(Exit);
    }

    method OnDeadline(id: nat)
      requires Valid()
      modifies this
      ensures Valid() && State() == Step(old(State()), DeadlineFired(id))
    {
      hide Reachable, Run;
      ReachableStep(State(), DeadlineFired(id));
      if inFlight.None? || inFlight.value.id != id {
        return;
      }
      deadlineKills := deadlineKills + 1;
      RecycleWorker(DeadlineExceeded);
      FailCurrent();
    }

    method OnIdle()
      requires Valid() && idleTimer
      modifies this
      ensures Valid() && State() == Step(old(State()), IdleFired)
    {
      hide Reachable, Run;
      ReachableStep(State(), IdleFired);
      idleTimer := false;
      if inFlight.None? && queue == [] {
        RecycleWorker(IdleTooLong);
      }
    }

    method RequestCaptchaSolverRecycle(why: string)
      requires Valid()
      modifies this
      ensures Valid() && State() == Step(old(State()), RequestRecycle(why))
    {
      hide Reachable, Run;
      ReachableStep(State(), RequestRecycle(why));
      if worker.None? {
        return;
      }
      if inFlight.Some? {
        if pendingRecycle.None? {
          pendingRecycle := Some(Requested(why));
        }
      } else {
        RecycleWorker(Requested(why));
      }
    }

    method ShutdownCaptchaSolver()
      requires Valid()
      modifies this
      ensures Valid() && State() == Step(old(State()), Shutdown)
    {
      hide Reachable, Run;
      ReachableStep(State(), Shutdown);
      shutdownRequested := true;
      ArmIdleTimer();
    }
  }
}
