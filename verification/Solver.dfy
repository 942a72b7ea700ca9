/**
 * The captcha solver dispatcher (proxy/captcha-solver.ts) as a step relation.
 *
 * One worker at a time, one solve in flight, FIFO queue.  Jobs are numbered in
 * submission order.  The environment decides whether a job is refused at admission,
 * whether a spawn or a dispatch throws, what a worker of any generation posts, and
 * when timers and queued microtasks run.
 */
module Solver {
  import opened Util

  datatype Options = Options(recycleAfterSolves: int, recycleAfterFailures: int, maxWorkerHeapMB: int)

  datatype Reason =
    | DeadlineExceeded
    | Fault
    | Exit
    | SpawnFailed
    | ShutDown
    | CleanupFailed
    | InvalidResult
    | TooManyFailures
    | TooManySolves
    | HeapTooBig
    | IdleTooLong
    | Requested(why: string)

  /** How a job ended: with a token, with an error, or refused by its own admission check. */
  datatype Verdict = Solved(param: string) | Failed | Refused

  datatype Settlement = Settlement(job: nat, verdict: Verdict)

  /** A dispatched job: its solve id and the worker generation it was posted to. */
  datatype Flight = Flight(job: nat, id: nat, generation: nat)

  datatype Message =
    | Result(id: int, token: Option<string>, cleanupFailed: bool, invalidToken: bool, heapUsedMB: Option<int>)
    | Fatal

  /** What the environment does to one admission. */
  datatype Choice = Choice(refused: bool, spawnThrows: bool, dispatchThrows: bool)

  datatype State = State(
    opts: Options,
    queue: seq<nat>,
    inFlight: Option<Flight>,
    worker: Option<nat>,
    idleTimer: bool,
    pendingRecycle: Option<Reason>,
    shutdownRequested: bool,
    nextId: nat,
    generationFailures: nat,
    generation: nat,
    solvesSinceSpawn: nat,
    totalSolves: nat,
    totalFailures: nat,
    consecutiveFailures: nat,
    deadlineKills: nat,
    recycles: nat,
    lastRecycleReason: Option<Reason>,
    pumps: nat,
    // History.
    submitted: nat,
    settled: seq<Settlement>)

  datatype Event =
    | Submit(choices: seq<Choice>)
    | PumpMicrotask(choices: seq<Choice>)
    | Posted(generation: nat, message: Message)
    | WorkerError(generation: nat)
    | WorkerClose(generation: nat)
    | DeadlineFired(id: nat)
    | IdleFired
    | RequestRecycle(why: string)
    | Shutdown

  // ---------------------------------------------------------------------------
  // Sections
  // ---------------------------------------------------------------------------

  function SettleJob(s: State, job: nat, verdict: Verdict): State {
    s.(settled := s.settled + [Settlement(job, verdict)])
  }

  function CountFailure(s: State): State {
    s.(totalFailures := s.totalFailures + 1, consecutiveFailures := s.consecutiveFailures + 1)
  }

  function Recycle(s: State, reason: Reason): State {
    var t := s.(worker := None, pendingRecycle := None, idleTimer := false);
    if s.worker.None? then t
    else t.(recycles := t.recycles + 1, lastRecycleReason := Some(reason))
  }

  function FailInFlight(s: State): State {
    if s.inFlight.None? then s
    else SettleJob(CountFailure(s.(inFlight := None, pumps := s.pumps + 1)), s.inFlight.value.job, Failed)
  }

  function Spawn(s: State): State {
    s.(worker := Some(s.generation + 1), generation := s.generation + 1, solvesSinceSpawn := 0, generationFailures := 0)
  }

  function ArmIdle(s: State): State {
    var t := s.(idleTimer := false);
    if t.inFlight.Some? || t.queue != [] then t
    else if t.shutdownRequested then Recycle(t.(shutdownRequested := false), ShutDown)
    else if t.worker.None? then t
    else t.(idleTimer := true)
  }

  /** Spawn or dispatch threw: this job fails now, the next gets a fresh worker. */
  function FailAdmission(s: State, job: nat): State {
    SettleJob(Recycle(CountFailure(s), SpawnFailed), job, Failed)
  }

  /** One round of the pump loop. */
  function Admit(s: State, c: Choice): State
    requires s.queue != []
  {
    var job := s.queue[0];
    var t := s.(queue := s.queue[1..]);
    if c.refused then SettleJob(t, job, Refused)
    else
      var u := t.(idleTimer := false, nextId := t.nextId + 1);
      if u.worker.None? && c.spawnThrows then
        FailAdmission(u, job)
      else
        var v := if u.worker.None? then Spawn(u) else u;
        if c.dispatchThrows then FailAdmission(v, job)
        else v.(inFlight := Some(Flight(job, v.nextId, v.worker.value)))
  }

  const GO: Choice := Choice(false, false, false)

  function HeadChoice(choices: seq<Choice>): Choice {
    if choices == [] then GO else choices[0]
  }

  function TailChoices(choices: seq<Choice>): seq<Choice> {
    if choices == [] then [] else choices[1..]
  }

  /** The pump: admit until one is in flight or the queue is empty, then arm the idle timer. */
  function Pump(s: State, choices: seq<Choice>): State
    decreases |s.queue|
  {
    if s.inFlight.Some? || s.queue == [] then ArmIdle(s)
    else Pump(Admit(s, HeadChoice(choices)), TailChoices(choices))
  }

  function OrElse(r: Option<Reason>, condition: bool, reason: Reason): Option<Reason> {
    if r.None? && condition then Some(reason) else r
  }

  /** A shutdown was requested and the result being settled is the last one owed. */
  predicate Stopping(s: State) {
    s.shutdownRequested && s.queue == []
  }

  /** The job in flight is settled by a result; nothing is recycled yet. */
  function AfterResult(s: State, m: Message): State
    requires s.inFlight.Some? && m.Result?
  {
    var job := s.inFlight.value.job;
    var t := s.(inFlight := None, solvesSinceSpawn := s.solvesSinceSpawn + 1, pumps := s.pumps + 1,
                shutdownRequested := s.shutdownRequested && !Stopping(s));
    if m.token.Some? then
      SettleJob(t.(totalSolves := t.totalSolves + 1, consecutiveFailures := 0, generationFailures := 0),
                job, Solved(m.token.value))
    else SettleJob(CountFailure(t.(generationFailures := t.generationFailures + 1)), job, Failed)
  }

  /** Why the worker is to be recycled after a result, if it is; the first reason wins. */
  function ReasonAfter(first: Option<Reason>, s: State, m: Message): Option<Reason>
    requires m.Result?
  {
    var failed := m.token.None?;
    var r1 := OrElse(first, failed && m.cleanupFailed, CleanupFailed);
    var r2 := OrElse(r1, failed && m.invalidToken, InvalidResult);
    var r3 := OrElse(r2, failed && s.generationFailures >= s.opts.recycleAfterFailures, TooManyFailures);
    var r4 := OrElse(r3, s.solvesSinceSpawn >= s.opts.recycleAfterSolves, TooManySolves);
    OrElse(r4, m.heapUsedMB.Some? && m.heapUsedMB.value > s.opts.maxWorkerHeapMB, HeapTooBig)
  }

  function RecycleIf(s: State, reason: Option<Reason>): State {
    if reason.Some? then Recycle(s, reason.value) else s
  }

  /** A result for the job in flight, from the live worker. */
  function OnResult(s: State, m: Message): State
    requires s.inFlight.Some? && m.Result?
  {
    var first := if Stopping(s) then Some(ShutDown) else s.pendingRecycle;
    var t := AfterResult(s, m);
    RecycleIf(t, ReasonAfter(first, t, m))
  }

  function OnPosted(s: State, generation: nat, m: Message): State {
    if s.worker != Some(generation) then s
    else if m.Fatal? then Recycle(FailInFlight(s), Fault)
    else if s.inFlight.None? || m.id != s.inFlight.value.id then s
    else OnResult(s, m)
  }

  function Step(s: State, e: Event): State {
    match e
    case Submit(choices) => Pump(s.(queue := s.queue + [s.submitted], submitted := s.submitted + 1), choices)
    case PumpMicrotask(choices) => if s.pumps > 0 then Pump(s.(pumps := s.pumps - 1), choices) else s
    case Posted(generation, m) => OnPosted(s, generation, m)
    case WorkerError(generation) => if s.worker == Some(generation) then Recycle(FailInFlight(s), Fault) else s
    case WorkerClose(generation) => if s.worker == Some(generation) then Recycle(FailInFlight(s), Exit) else s
    case DeadlineFired(id) =>
      if s.inFlight.None? || s.inFlight.value.id != id then s
      else FailInFlight(Recycle(s.(deadlineKills := s.deadlineKills + 1), DeadlineExceeded))
    case IdleFired =>
      if !s.idleTimer then s
      else if s.inFlight.None? && s.queue == [] then Recycle(s.(idleTimer := false), IdleTooLong)
      else s.(idleTimer := false)
    case RequestRecycle(why) =>
      if s.worker.None? then s
      else if s.inFlight.Some? then s.(pendingRecycle := OrElse(s.pendingRecycle, true, Requested(why)))
      else Recycle(s, Requested(why))
    case Shutdown => ArmIdle(s.(shutdownRequested := true))
  }

  function Init(opts: Options): State {
    State(opts, [], None, None, false, None, false, 0, 0, 0, 0, 0, 0, 0, 0, 0, None, 0, 0, [])
  }

  function Run(s: State, events: seq<Event>): State {
    if events == [] then s
    else Step(Run(s, events[..|events| - 1]), events[|events| - 1])
  }

  // ---------------------------------------------------------------------------
  // The invariant
  // ---------------------------------------------------------------------------

  function Jobs(settled: seq<Settlement>): seq<nat> {
    seq(|settled|, i requires 0 <= i < |settled| => settled[i].job)
  }

  function FlightJobs(f: Option<Flight>): seq<nat> {
    if f.Some? then [f.value.job] else []
  }

  function FirstNats(n: nat): seq<nat> {
    seq(n, i => i)
  }

  function Count(settled: seq<Settlement>, solved: bool, failed: bool, refused: bool): nat {
    if settled == [] then 0
    else
      var v := settled[|settled| - 1].verdict;
      Count(settled[..|settled| - 1], solved, failed, refused)
      + (if (solved && v.Solved?) || (failed && v.Failed?) || (refused && v.Refused?) then 1 else 0)
  }

  function Solves(settled: seq<Settlement>): nat { Count(settled, true, false, false) }
  function Failures(settled: seq<Settlement>): nat { Count(settled, false, true, false) }
  function Refusals(settled: seq<Settlement>): nat { Count(settled, false, false, true) }

  function Alive(s: State): nat {
    if s.worker.Some? then 1 else 0
  }

  /** Every job is in exactly one place, and all of them are in submission order. */
  ghost predicate Ordered(s: State) {
    Jobs(s.settled) + FlightJobs(s.inFlight) + s.queue == FirstNats(s.submitted)
  }

  ghost predicate WorkerInv(s: State) {
    && (s.worker.Some? ==> s.worker.value == s.generation)
    && s.generation == s.recycles + Alive(s)
    && (s.inFlight.Some? ==> s.worker == Some(s.inFlight.value.generation) && s.inFlight.value.id == s.nextId)
    && (s.idleTimer ==> s.worker.Some? && s.inFlight.None?)
    && (s.pendingRecycle.Some? ==> s.inFlight.Some?)
    && s.deadlineKills <= s.recycles
  }

  ghost predicate AccountInv(s: State) {
    && s.totalSolves == Solves(s.settled)
    && s.totalFailures == Failures(s.settled)
  }

  /** Nothing waits without something that will move it. */
  ghost predicate WakeupInv(s: State) {
    && (s.queue != [] && s.inFlight.None? ==> s.pumps > 0)
    && (s.shutdownRequested && s.inFlight.None? ==> s.pumps > 0)
  }

  /** The invariant inside a section; between sections `WakeupInv` holds as well. */
  ghost predicate Core(s: State) {
    Ordered(s) && WorkerInv(s) && AccountInv(s)
  }

  ghost predicate Inv(s: State) {
    Core(s) && WakeupInv(s)
  }

  lemma SettleJobCounts(s: State, job: nat, verdict: Verdict)
    ensures var t := SettleJob(s, job, verdict);
            && Jobs(t.settled) == Jobs(s.settled) + [job]
            && Solves(t.settled) == Solves(s.settled) + (if verdict.Solved? then 1 else 0)
            && Failures(t.settled) == Failures(s.settled) + (if verdict.Failed? then 1 else 0)
            && Refusals(t.settled) == Refusals(s.settled) + (if verdict.Refused? then 1 else 0)
  {
    var t := SettleJob(s, job, verdict);
    assert t.settled[..|t.settled| - 1] == s.settled;
  }

  lemma FailInFlightCore(s: State)
    requires Core(s)
    ensures Core(Recycle(FailInFlight(s), Fault)) && Core(Recycle(FailInFlight(s), Exit))
  {
    if s.inFlight.Some? {
      SettleJobCounts(s, s.inFlight.value.job, Failed);
      assert Jobs(s.settled) + [s.inFlight.value.job] + [] + s.queue == Jobs(s.settled) + [s.inFlight.value.job] + s.queue;
    }
  }

  /** One admission keeps every job in its place. */
  lemma AdmitCore(s: State, c: Choice)
    requires Core(s) && s.queue != [] && s.inFlight.None?
    ensures Core(Admit(s, c))
    ensures Admit(s, c).pumps == s.pumps && Admit(s, c).shutdownRequested == s.shutdownRequested
  {
    var job := s.queue[0];
    assert s.queue == [job] + s.queue[1..];
    SettleJobCounts(s, job, Refused);
    SettleJobCounts(s, job, Failed);
    assert Jobs(s.settled) + [] + s.queue == Jobs(s.settled) + [job] + [] + s.queue[1..];
    assert Jobs(s.settled) + [] + s.queue == Jobs(s.settled) + [job] + s.queue[1..];
  }

  lemma {:induction false} PumpInv(s: State, choices: seq<Choice>)
    requires Core(s)
    ensures Inv(Pump(s, choices))
    decreases |s.queue|
  {
    if s.inFlight.None? && s.queue != [] {
      AdmitCore(s, HeadChoice(choices));
      PumpInv(Admit(s, HeadChoice(choices)), TailChoices(choices));
    }
  }

  lemma ResultCore(s: State, m: Message)
    requires Core(s) && s.inFlight.Some? && m.Result?
    ensures Inv(OnResult(s, m))
  {
    var job := s.inFlight.value.job;
    SettleJobCounts(s, job, Failed);
    if m.token.Some? {
      SettleJobCounts(s, job, Solved(m.token.value));
    }
    assert Jobs(s.settled) + [job] + [] + s.queue == Jobs(s.settled) + [job] + s.queue;
    hide Jobs, Solves, Failures, Refusals, FirstNats;
  }

  lemma DeadlineInv(s: State, id: nat)
    requires Inv(s)
    ensures Inv(Step(s, DeadlineFired(id)))
  {
    if s.inFlight.Some? {
      SettleJobCounts(s, s.inFlight.value.job, Failed);
      assert Jobs(s.settled) + [s.inFlight.value.job] + [] + s.queue == Jobs(s.settled) + [s.inFlight.value.job] + s.queue;
    }
  }

  lemma SubmitCore(s: State)
    requires Core(s)
    ensures Core(s.(queue := s.queue + [s.submitted], submitted := s.submitted + 1))
  {
    var before := Jobs(s.settled) + FlightJobs(s.inFlight);
    assert before + (s.queue + [s.submitted]) == (before + s.queue) + [s.submitted];
    assert FirstNats(s.submitted + 1) == FirstNats(s.submitted) + [s.submitted];
  }

  lemma PostedInv(s: State, generation: nat, m: Message)
    requires Inv(s)
    ensures Inv(OnPosted(s, generation, m))
  {
    FailInFlightCore(s);
    if m.Result? && s.inFlight.Some? {
      ResultCore(s, m);
    }
  }

  lemma StepInv(s: State, e: Event)
    requires Inv(s)
    ensures Inv(Step(s, e))
  {
    match e
    case Submit(choices) =>
      SubmitCore(s);
      PumpInv(s.(queue := s.queue + [s.submitted], submitted := s.submitted + 1), choices);
    case PumpMicrotask(choices) => if s.pumps > 0 { PumpInv(s.(pumps := s.pumps - 1), choices); }
    case Posted(generation, m) => PostedInv(s, generation, m);
    case WorkerError(_) => FailInFlightCore(s);
    case WorkerClose(_) => FailInFlightCore(s);
    case DeadlineFired(id) => DeadlineInv(s, id);
    case _ =>
  }

  lemma {:induction false} RunInv(s: State, events: seq<Event>)
    requires Inv(s)
    ensures Inv(Run(s, events))
  {
    if events == [] {
    } else {
      RunInv(s, events[..|events| - 1]);
      StepInv(Run(s, events[..|events| - 1]), events[|events| - 1]);
    }
  }

  lemma InitInv(opts: Options)
    ensures Inv(Init(opts))
  {
    assert Jobs([]) + [] + [] == FirstNats(0);
  }

  ghost predicate Reachable(s: State) {
    exists opts, events :: s == Run(Init(opts), events)
  }

  lemma InitReachable(opts: Options)
    ensures Reachable(Init(opts))
  {
    assert Run(Init(opts), []) == Init(opts);
  }

  lemma ReachableStep(s: State, e: Event)
    requires Reachable(s)
    ensures Reachable(Step(s, e))
  {
    hide Step;
    var opts, events :| s == Run(Init(opts), events);
    assert (events + [e])[..|events|] == events;
    assert Step(s, e) == Run(Init(opts), events + [e]);
  }

  lemma ReachableInv(s: State)
    requires Reachable(s)
    ensures Inv(s)
  {
    var opts, events :| s == Run(Init(opts), events);
    InitInv(opts);
    RunInv(Init(opts), events);
  }

  // ---------------------------------------------------------------------------
  // What every run promises
  // ---------------------------------------------------------------------------

  lemma {:induction false} CountsAddUp(settled: seq<Settlement>)
    ensures |settled| == Solves(settled) + Failures(settled) + Refusals(settled)
  {
    if settled == [] {
    } else {
      CountsAddUp(settled[..|settled| - 1]);
    }
  }

  /**
   * Exactly once, in submission order: the k-th settlement is job k, the job in flight is
   * the next one, and the queue holds exactly the rest.
   */
  lemma JobsSettleOnceInOrder(s: State)
    requires Reachable(s)
    ensures forall k :: 0 <= k < |s.settled| ==> s.settled[k].job == k
    ensures s.inFlight.Some? ==> s.inFlight.value.job == |s.settled|
    ensures s.submitted == |s.settled| + |FlightJobs(s.inFlight)| + |s.queue|
    ensures forall k :: 0 <= k < |s.queue| ==> s.queue[k] == |s.settled| + |FlightJobs(s.inFlight)| + k
  {
    ReachableInv(s);
    var all := Jobs(s.settled) + FlightJobs(s.inFlight) + s.queue;
    assert forall k :: 0 <= k < |all| ==> all[k] == k;
    forall k | 0 <= k < |s.settled| ensures s.settled[k].job == k {
      assert all[k] == Jobs(s.settled)[k];
    }
    forall k | 0 <= k < |s.queue| ensures s.queue[k] == |s.settled| + |FlightJobs(s.inFlight)| + k {
      assert all[|s.settled| + |FlightJobs(s.inFlight)| + k] == s.queue[k];
    }
    if s.inFlight.Some? {
      assert all[|s.settled|] == s.inFlight.value.job;
    }
  }

  /** The statistics add up: every settlement is a solve, a failure or an admission refusal. */
  lemma AccountsBalance(s: State)
    requires Reachable(s)
    ensures s.totalSolves + s.totalFailures + Refusals(s.settled) == |s.settled|
    ensures s.totalSolves == Solves(s.settled) && s.totalFailures == Failures(s.settled)
    ensures s.generation == s.recycles + Alive(s)
    ensures s.deadlineKills <= s.recycles
  {
    ReachableInv(s);
    CountsAddUp(s.settled);
  }

  /** A job in flight belongs to the live worker; a pending recycle waits for it. */
  lemma FlightHasItsWorker(s: State)
    requires Reachable(s)
    ensures s.inFlight.Some? ==> s.worker == Some(s.inFlight.value.generation) && s.inFlight.value.generation == s.generation
    ensures s.pendingRecycle.Some? ==> s.inFlight.Some?
    ensures s.idleTimer ==> s.worker.Some? && s.inFlight.None?
  {
    ReachableInv(s);
  }

  /** No lost wake-up: with no pump pending and nothing in flight, nothing is queued and no shutdown is owed. */
  lemma QuiescentMeansDrained(s: State)
    requires Reachable(s) && s.pumps == 0 && s.inFlight.None?
    ensures s.queue == [] && |s.settled| == s.submitted && !s.shutdownRequested
  {
    ReachableInv(s);
    assert |Jobs(s.settled) + [] + []| == s.submitted;
  }

  /** New settlements of one section, none of them a solve. */
  ghost predicate ExtendsUnsolved(before: seq<Settlement>, after: seq<Settlement>) {
    && before <= after
    && forall k :: |before| <= k < |after| ==> !after[k].verdict.Solved?
  }

  lemma {:induction false} PumpNeverSolves(s: State, choices: seq<Choice>)
    ensures ExtendsUnsolved(s.settled, Pump(s, choices).settled)
    decreases |s.queue|
  {
    if s.inFlight.None? && s.queue != [] {
      PumpNeverSolves(Admit(s, HeadChoice(choices)), TailChoices(choices));
    }
  }

  /** Settlements are only ever appended: a verdict, once given, stays. */
  lemma StepAppends(s: State, e: Event)
    ensures s.settled <= Step(s, e).settled
  {
    match e
    case Submit(choices) =>
      PumpNeverSolves(s.(queue := s.queue + [s.submitted], submitted := s.submitted + 1), choices);
    case PumpMicrotask(choices) => if s.pumps > 0 { PumpNeverSolves(s.(pumps := s.pumps - 1), choices); }
    case _ =>
  }

  lemma {:induction false} VerdictsAreFinal(s: State, later: seq<Event>)
    ensures s.settled <= Run(s, later).settled
  {
    if later == [] {
    } else {
      VerdictsAreFinal(s, later[..|later| - 1]);
      StepAppends(Run(s, later[..|later| - 1]), later[|later| - 1]);
    }
  }

  /** A token reaches a job only from the worker generation and solve id it was dispatched to. */
  lemma OnlyOwnWorkerSolves(s: State, e: Event, k: nat)
    requires Reachable(s)
    requires |s.settled| <= k < |Step(s, e).settled| && Step(s, e).settled[k].verdict.Solved?
    ensures e.Posted? && e.message.Result? && s.inFlight.Some?
    ensures s.inFlight.value.generation == e.generation && s.inFlight.value.id == e.message.id
    ensures Step(s, e).settled == s.settled + [Settlement(s.inFlight.value.job, Solved(e.message.token.GetOr("")))]
            && e.message.token.Some?
  {
    ReachableInv(s);
    match e
    case Submit(choices) =>
      PumpNeverSolves(s.(queue := s.queue + [s.submitted], submitted := s.submitted + 1), choices);
    case PumpMicrotask(choices) => if s.pumps > 0 { PumpNeverSolves(s.(pumps := s.pumps - 1), choices); }
    case _ =>
  }

  /** Generation `g` is over: it is not the live worker and never will be again. */
  ghost predicate Over(s: State, g: nat) {
    g <= s.generation && s.worker != Some(g)
  }

  lemma {:induction false} PumpKeepsOver(s: State, choices: seq<Choice>, g: nat)
    requires Over(s, g)
    ensures Over(Pump(s, choices), g)
    decreases |s.queue|
  {
    if s.inFlight.None? && s.queue != [] {
      PumpKeepsOver(Admit(s, HeadChoice(choices)), TailChoices(choices), g);
    }
  }

  lemma StepKeepsOver(s: State, e: Event, g: nat)
    requires Over(s, g)
    ensures Over(Step(s, e), g)
  {
    match e
    case Submit(choices) =>
      PumpKeepsOver(s.(queue := s.queue + [s.submitted], submitted := s.submitted + 1), choices, g);
    case PumpMicrotask(choices) => if s.pumps > 0 { PumpKeepsOver(s.(pumps := s.pumps - 1), choices, g); }
    case _ =>
  }

  /** Whatever a terminated generation still posts, now or later, changes nothing at all. */
  lemma {:induction false} TerminatedGenerationsAreMute(s: State, g: nat, later: seq<Event>, m: Message)
    requires Over(s, g)
    ensures var t := Run(s, later);
            && Over(t, g)
            && Step(t, Posted(g, m)) == t
            && Step(t, WorkerError(g)) == t
            && Step(t, WorkerClose(g)) == t
  {
    if later == [] {
    } else {
      TerminatedGenerationsAreMute(s, g, later[..|later| - 1], m);
      StepKeepsOver(Run(s, later[..|later| - 1]), later[|later| - 1], g);
    }
  }

  /** The deadline ends a stuck solve: the worker dies first, then exactly this job fails. */
  lemma DeadlineEndsTheSolve(s: State)
    requires Reachable(s) && s.inFlight.Some?
    ensures var f := s.inFlight.value;
            var t := Step(s, DeadlineFired(f.id));
            && t.settled == s.settled + [Settlement(f.job, Failed)]
            && t.inFlight.None? && Over(t, f.generation)
            && t.deadlineKills == s.deadlineKills + 1 && t.recycles == s.recycles + 1
            && t.queue == s.queue && t.pumps > 0
  {
    ReachableInv(s);
  }

  /** Neither a recycle request nor a shutdown touches a live or queued solve. */
  lemma RequestsAbandonNothing(s: State, why: string)
    requires Reachable(s)
    ensures forall e :: e in {RequestRecycle(why), Shutdown} ==>
              && Step(s, e).settled == s.settled && Step(s, e).queue == s.queue
              && Step(s, e).inFlight == s.inFlight
              && (s.inFlight.Some? ==> Step(s, e).worker == s.worker)
  {
    ReachableInv(s);
  }

  /** Nothing runs and nothing waits. */
  predicate Drained(s: State) {
    s.inFlight.None? && s.queue == []
  }

  lemma {:induction false} PumpShutdown(s: State, choices: seq<Choice>)
    requires Core(s)
    ensures var t := Pump(s, choices);
            && (s.shutdownRequested ==> (!t.shutdownRequested <==> Drained(t)))
            && (s.shutdownRequested && Drained(t) ==> t.worker.None?)
            && (!s.shutdownRequested ==> !t.shutdownRequested)
    decreases |s.queue|
  {
    if s.inFlight.Some? || s.queue == [] {
    } else {
      AdmitCore(s, HeadChoice(choices));
      PumpShutdown(Admit(s, HeadChoice(choices)), TailChoices(choices));
    }
  }

  /** The dispatcher looks at the queue in this event: it pumps, settles a result, or is told to shut down. */
  predicate LooksAtQueue(s: State, e: Event) {
    || e.Submit? || (e.PumpMicrotask? && s.pumps > 0) || e.Shutdown?
    || (e.Posted? && e.message.Result? && Step(s, e).settled != s.settled)
  }

  /**
   * A shutdown request is spent exactly by an event in which the dispatcher looks at the
   * queue and finds it drained; then the worker has been terminated and every job settled.
   */
  lemma ShutdownWaitsForDrain(s: State, e: Event)
    requires Reachable(s) && s.shutdownRequested
    ensures var t := Step(s, e);
            && (!t.shutdownRequested <==> LooksAtQueue(s, e) && Drained(t))
            && (!t.shutdownRequested ==> t.worker.None? && |t.settled| == t.submitted)
  {
    ReachableInv(s);
    StepInv(s, e);
    hide Reachable, Run, Core, WakeupInv, Pump;
    match e {
      case Submit(choices) =>
        SubmitCore(s);
        PumpShutdown(s.(queue := s.queue + [s.submitted], submitted := s.submitted + 1), choices);
      case PumpMicrotask(choices) => if s.pumps > 0 { PumpShutdown(s.(pumps := s.pumps - 1), choices); }
      case Posted(generation, m) => PostedShutdown(s, generation, m);
      case _ =>
    }
    hide OnPosted, ArmIdle, Recycle, FailInFlight;
    DrainedIsSettled(Step(s, e));
  }

  lemma PostedShutdown(s: State, generation: nat, m: Message)
    requires s.shutdownRequested
    ensures var t := OnPosted(s, generation, m);
            && (!t.shutdownRequested <==> m.Result? && t.settled != s.settled && Drained(t))
            && (!t.shutdownRequested ==> t.worker.None?)
  {
  }

  lemma DrainedIsSettled(s: State)
    requires Inv(s)
    ensures Drained(s) ==> |s.settled| == s.submitted
  {
    if Drained(s) {
      assert |Jobs(s.settled) + [] + []| == s.submitted;
    }
  }
}
