/**
 * The mint-storm breaker (proxy/captcha-pool.ts:102-121, 505-509, 566-687, 751-753): when
 * minting keeps failing it stops for a growing backoff, and one probe decides whether it
 * resumes. `tasks` are the suspended `solveFresh` calls, `probe` the suspended `probeStorm`.
 */
module MintStorm {
  import opened Util

  const STORM_WINDOW_MS: nat := 600000
  const STORM_MIN_ATTEMPTS: nat := 5
  const STORM_BACKOFF_BASE_MS: nat := 60000
  const STORM_BACKOFF_MAX_MS: nat := 600000
  const RATE_LIMIT_PAUSE_MS: nat := 300000

  datatype Outcome = Outcome(at: nat, ok: bool)

  /** `serial` stands for the identity of the storm object. */
  datatype Storm = Storm(serial: nat, level: nat, until: nat, probing: bool)

  datatype Stage = Queued | Running | Cancelled(byPause: bool)

  datatype Task = Task(attempts: nat, attempt: nat, stage: Stage)

  datatype ProbeStage = Solving(stage: Stage) | Returned(ok: bool)

  datatype Probe = Probe(serial: nat, startedAt: nat, stage: ProbeStage)

  /** What a solve came back with, and how `classifyCaptchaError` files its error. */
  datatype Answer = Empty | Duplicate | Usable | RateLimited | Failed

  /** A mint the solver was allowed to run. */
  datatype Admission = Admission(probe: bool, at: nat, startedAt: nat, storm: Option<Storm>)

  datatype State = State(
    now: nat,
    pausedUntil: nat,
    mintOutcomes: seq<Outcome>,
    storm: Option<Storm>,
    storms: nat,
    activeSolves: int,
    tasks: map<nat, Task>,
    probe: Option<Probe>,
    admissions: seq<Admission>)

  datatype Event =
    | Tick(to: nat)
    | Pause(until: nat)
    | StartSolve(id: nat, attempts: nat)
    | Admit(id: nat)
    | Settle(id: nat, answer: Answer)
    | StartProbe
    | AdmitProbe
    | SettleProbe(answer: Answer)
    | EndProbe

  function Init(now: nat): State {
    State(now, 0, [], None, 0, 0, map[], None, [])
  }

  function Backoff(level: nat): nat {
    Min(STORM_BACKOFF_MAX_MS, STORM_BACKOFF_BASE_MS * Pow2(level))
  }

  // ---------------------------------------------------------------------------
  // Outcomes
  // ---------------------------------------------------------------------------

  function PruneOutcomes(outcomes: seq<Outcome>, now: nat): seq<Outcome> {
    if outcomes != [] && outcomes[0].at <= now - STORM_WINDOW_MS then PruneOutcomes(outcomes[1..], now) else outcomes
  }

  function Successes(outcomes: seq<Outcome>): nat {
    if outcomes == [] then 0
    else Successes(outcomes[..|outcomes| - 1]) + (if outcomes[|outcomes| - 1].ok then 1 else 0)
  }

  /** At least five attempts and a success rate below one fifth. */
  predicate Degraded(outcomes: seq<Outcome>) {
    |outcomes| >= STORM_MIN_ATTEMPTS && Successes(outcomes) * 5 < |outcomes|
  }

  function Note(s: State, ok: bool): State {
    var outcomes := PruneOutcomes(s.mintOutcomes + [Outcome(s.now, ok)], s.now);
    var t := s.(mintOutcomes := outcomes);
    if !ok && s.storm.None? && Degraded(outcomes) then
      t.(storm := Some(Storm(s.storms, 0, s.now + Backoff(0), false)), storms := s.storms + 1)
    else t
  }

  function RateLimit(s: State): State {
    s.(pausedUntil := Max(s.pausedUntil, s.now + RATE_LIMIT_PAUSE_MS))
  }

  // ---------------------------------------------------------------------------
  // Ordinary solves
  // ---------------------------------------------------------------------------

  /** The `finally` block of `solveFresh`. */
  function Drop(s: State, id: nat): State {
    s.(tasks := s.tasks - {id}, activeSolves := s.activeSolves - 1)
  }

  function OnStartSolve(s: State, id: nat, attempts: nat): State {
    if id in s.tasks || s.now < s.pausedUntil || attempts == 0 || s.storm.Some? then s
    else s.(tasks := s.tasks[id := Task(attempts, 1, Queued)], activeSolves := s.activeSolves + 1)
  }

  /**
   * One mint is in flight. The dispatcher admits the next only when none is
   * (proxy/captcha-solver.ts:296), and in a later microtask than the one in which the caller of
   * the last one resumes (proxy/captcha-solver.ts:267-268).
   */
  predicate Busy(s: State) {
    || (exists id :: id in s.tasks && s.tasks[id].stage == Running)
    || (s.probe.Some? && s.probe.value.stage == Solving(Running))
  }

  /** The check the dispatcher makes when the job's turn comes. */
  function OnAdmit(s: State, id: nat): State {
    if id !in s.tasks || s.tasks[id].stage != Queued || Busy(s) then s
    else if s.now < s.pausedUntil then s.(tasks := s.tasks[id := s.tasks[id].(stage := Cancelled(true))])
    else if s.storm.Some? then s.(tasks := s.tasks[id := s.tasks[id].(stage := Cancelled(false))])
    else
      s.(tasks := s.tasks[id := s.tasks[id].(stage := Running)],
         admissions := s.admissions + [Admission(false, s.now, s.now, s.storm)])
  }

  /** The next round of the retry loop. */
  function Retry(s: State, id: nat): State
    requires id in s.tasks
  {
    var task := s.tasks[id];
    if task.attempt >= task.attempts || s.now < s.pausedUntil || s.storm.Some? then Drop(s, id)
    else s.(tasks := s.tasks[id := Task(task.attempts, task.attempt + 1, Queued)])
  }

  /** The caller resumes; a job the dispatcher could not even start fails while it is queued. */
  function OnSettle(s: State, id: nat, answer: Answer): State {
    if id !in s.tasks then s
    else
      match s.tasks[id].stage
      case Cancelled(byPause) => Drop(if byPause then RateLimit(s) else s, id)
      case Queued => if answer.Failed? then Answered(s, id, answer) else s
      case Running => Answered(s, id, answer)
  }

  function Answered(s: State, id: nat, answer: Answer): State
    requires id in s.tasks
  {
    match answer
    case Usable => Drop(Note(s, true), id)
    case RateLimited => Drop(RateLimit(s), id)
    case _ => Retry(Note(s, false), id)
  }

  // ---------------------------------------------------------------------------
  // The probe
  // ---------------------------------------------------------------------------

  /** The refill tick during a storm. */
  function OnStartProbe(s: State): State {
    if s.now < s.pausedUntil then s
    else
      match s.storm
      case None => s
      case Some(storm) =>
        if storm.probing || s.now < storm.until then s
        else
          s.(storm := Some(storm.(probing := true)),
             activeSolves := s.activeSolves + 1,
             probe := Some(Probe(storm.serial, s.now, Solving(Queued))))
  }

  function OnAdmitProbe(s: State): State {
    if s.probe.None? || s.probe.value.stage != Solving(Queued) || Busy(s) then s
    else if s.now < s.pausedUntil then s.(probe := Some(s.probe.value.(stage := Solving(Cancelled(true)))))
    else
      s.(probe := Some(s.probe.value.(stage := Solving(Running))),
         admissions := s.admissions + [Admission(true, s.now, s.probe.value.startedAt, s.storm)])
  }

  /** The single attempt of the probe ends; nothing is noted. */
  function ProbeAnswered(s: State, answer: Answer): State
    requires s.probe.Some?
  {
    var t := if answer.RateLimited? then RateLimit(s) else s;
    t.(activeSolves := s.activeSolves - 1, probe := Some(s.probe.value.(stage := Returned(answer.Usable?))))
  }

  function OnSettleProbe(s: State, answer: Answer): State {
    if s.probe.None? || s.probe.value.stage.Returned? then s
    else
      match s.probe.value.stage.stage
      case Cancelled(_) => ProbeAnswered(s, RateLimited)
      case Queued => if answer.Failed? then ProbeAnswered(s, answer) else s
      case Running => ProbeAnswered(s, answer)
  }

  /** `probeStorm` after its await. */
  function OnEndProbe(s: State): State {
    if s.probe.None? || s.probe.value.stage.Solving? then s
    else if s.probe.value.stage.ok then s.(probe := None, storm := None, mintOutcomes := [])
    else if s.storm.None? || s.storm.value.serial != s.probe.value.serial then s.(probe := None)
    else
      var level := s.storm.value.level + 1;
      s.(probe := None, storm := Some(Storm(s.storm.value.serial, level, s.now + Backoff(level), false)))
  }

  function Step(s: State, e: Event): State {
    match e
    case Tick(to) => s.(now := Max(s.now, to))
    case Pause(until) => s.(pausedUntil := Max(s.pausedUntil, until))
    case StartSolve(id, attempts) => OnStartSolve(s, id, attempts)
    case Admit(id) => OnAdmit(s, id)
    case Settle(id, answer) => OnSettle(s, id, answer)
    case StartProbe => OnStartProbe(s)
    case AdmitProbe => OnAdmitProbe(s)
    case SettleProbe(answer) => OnSettleProbe(s, answer)
    case EndProbe => OnEndProbe(s)
  }

  function Run(s: State, events: seq<Event>): State {
    if events == [] then s else Step(Run(s, events[..|events| - 1]), events[|events| - 1])
  }

  ghost predicate Reachable(s: State) {
    exists now: nat, events: seq<Event> :: s == Run(Init(now), events)
  }

  // ---------------------------------------------------------------------------
  // The invariant
  // ---------------------------------------------------------------------------

  predicate ProbePending(s: State) {
    s.probe.Some? && s.probe.value.stage.Solving?
  }

  ghost predicate InOrder(outcomes: seq<Outcome>, now: nat) {
    && (forall i, j :: 0 <= i < j < |outcomes| ==> outcomes[i].at <= outcomes[j].at)
    && (forall i :: 0 <= i < |outcomes| ==> outcomes[i].at <= now)
  }

  /** Only probes, started at or after the backoff deadline, were admitted during a storm. */
  ghost predicate AdmissionOk(a: Admission) {
    && (a.probe <==> a.storm.Some?)
    && (a.probe ==> a.storm.value.probing && a.storm.value.until <= a.startedAt <= a.at)
  }

  ghost predicate Inv(s: State) {
    && s.activeSolves == |s.tasks| + (if ProbePending(s) then 1 else 0)
    && (s.probe.Some? <==> s.storm.Some? && s.storm.value.probing)
    && (s.probe.Some? ==> s.probe.value.serial == s.storm.value.serial && s.storm.value.until <= s.probe.value.startedAt <= s.now)
    && (s.storm.Some? ==> s.storm.value.until <= s.now + Backoff(s.storm.value.level))
    && (forall id :: id in s.tasks ==> 1 <= s.tasks[id].attempt <= s.tasks[id].attempts)
    && (forall k :: 0 <= k < |s.admissions| ==> AdmissionOk(s.admissions[k]))
    && InOrder(s.mintOutcomes, s.now)
  }

  lemma {:induction false} PruneKeepsRecent(outcomes: seq<Outcome>, now: nat)
    requires InOrder(outcomes, now)
    ensures var kept := PruneOutcomes(outcomes, now);
            && InOrder(kept, now)
            && |kept| <= |outcomes| && kept == outcomes[|outcomes| - |kept|..]
            && (forall i :: 0 <= i < |outcomes| ==>
                  (outcomes[i].at > now - STORM_WINDOW_MS <==> i >= |outcomes| - |kept|))
  {
    if outcomes == [] || outcomes[0].at > now - STORM_WINDOW_MS {
    } else {
      var rest := outcomes[1..];
      forall i, j | 0 <= i < j < |rest| ensures rest[i].at <= rest[j].at {
        assert outcomes[i + 1].at <= outcomes[j + 1].at;
      }
      PruneKeepsRecent(rest, now);
      var kept := PruneOutcomes(rest, now);
      forall i | 0 <= i < |outcomes|
        ensures outcomes[i].at > now - STORM_WINDOW_MS <==> i >= |outcomes| - |kept|
      {
        if i > 0 {
          assert rest[i - 1] == outcomes[i];
        }
      }
    }
  }

  lemma NoteKeeps(s: State, ok: bool)
    requires Inv(s)
    ensures Inv(Note(s, ok))
    ensures var t := Note(s, ok); t == s.(mintOutcomes := t.mintOutcomes, storm := t.storm, storms := t.storms)
  {
    PruneKeepsRecent(s.mintOutcomes + [Outcome(s.now, ok)], s.now);
  }

  lemma RetryInv(s: State, id: nat)
    requires Inv(s) && id in s.tasks
    ensures Inv(Retry(s, id)) && Inv(Drop(s, id))
  {
    assert |s.tasks - {id}| == |s.tasks| - 1 by { RemoveOne(s.tasks, id); }
    assert |s.tasks[id := Task(s.tasks[id].attempts, s.tasks[id].attempt + 1, Queued)]| == |s.tasks| by {
      assert s.tasks[id := Task(s.tasks[id].attempts, s.tasks[id].attempt + 1, Queued)].Keys == s.tasks.Keys;
    }
  }

  lemma RemoveOne<K, V>(m: map<K, V>, k: K)
    requires k in m
    ensures |m - {k}| == |m| - 1
  {
    assert (m - {k}).Keys == m.Keys - {k};
  }

  /** Every section keeps the solve count exact and the breaker consistent. */
  lemma StepInv(s: State, e: Event)
    requires Inv(s)
    ensures Inv(Step(s, e))
  {
    hide OnSettle, OnStartSolve, OnAdmit, OnStartProbe, OnAdmitProbe, OnSettleProbe, OnEndProbe, Backoff;
    match e
    case Tick(to) =>
    case Pause(until) =>
    case StartSolve(id, attempts) => StartInv(s, id, attempts);
    case Admit(id) => AdmitInv(s, id);
    case Settle(id, answer) => SettleInv(s, id, answer);
    case StartProbe => ProbeInv(s, Empty);
    case AdmitProbe => ProbeInv(s, Empty);
    case SettleProbe(answer) => ProbeInv(s, answer);
    case EndProbe => EndProbeInv(s);
  }

  lemma StartInv(s: State, id: nat, attempts: nat)
    requires Inv(s)
    ensures Inv(OnStartSolve(s, id, attempts))
  {
    hide Backoff, InOrder;
    var t := OnStartSolve(s, id, attempts);
    if t != s {
      assert |t.tasks| == |s.tasks| + 1;
      assert t.probe == s.probe && t.storm == s.storm && t.admissions == s.admissions;
    }
  }

  lemma AdmitInv(s: State, id: nat)
    requires Inv(s)
    ensures Inv(OnAdmit(s, id))
  {
    hide Backoff, InOrder;
    if id in s.tasks {
      assert OnAdmit(s, id).tasks.Keys == s.tasks.Keys;
    }
  }

  lemma ProbeInv(s: State, answer: Answer)
    requires Inv(s)
    ensures Inv(OnStartProbe(s)) && Inv(OnAdmitProbe(s)) && Inv(OnSettleProbe(s, answer))
  {
    hide Backoff, InOrder;
  }

  lemma EndProbeInv(s: State)
    requires Inv(s)
    ensures Inv(OnEndProbe(s))
  {
    hide Backoff;
  }

  lemma SettleInv(s: State, id: nat, answer: Answer)
    requires Inv(s)
    ensures Inv(OnSettle(s, id, answer))
  {
    hide Note, Retry, Drop;
    if id in s.tasks {
      NoteKeeps(s, true);
      NoteKeeps(s, false);
      RetryInv(s, id);
      RetryInv(Note(s, false), id);
      RetryInv(Note(s, true), id);
      RetryInv(RateLimit(s), id);
    }
  }

  lemma {:induction false} RunInv(now: nat, events: seq<Event>)
    ensures Inv(Run(Init(now), events))
  {
    hide Step;
    if events != [] {
      RunInv(now, events[..|events| - 1]);
      StepInv(Run(Init(now), events[..|events| - 1]), events[|events| - 1]);
    } else {
      assert Run(Init(now), events) == Init(now);
    }
  }

  lemma ReachableInv(s: State)
    requires Reachable(s)
    ensures Inv(s)
  {
    var now: nat, events: seq<Event> :| s == Run(Init(now), events);
    RunInv(now, events);
  }

  // ---------------------------------------------------------------------------
  // Main results
  // ---------------------------------------------------------------------------

  /** `activeSolves` counts the suspended solves, so it is zero when none is. */
  lemma SolvesAreCounted(s: State)
    requires Reachable(s)
    ensures s.activeSolves == |s.tasks| + (if ProbePending(s) then 1 else 0)
    ensures s.tasks == map[] && s.probe.None? ==> s.activeSolves == 0
  {
    ReachableInv(s);
  }

  /** The attempts of the last ten minutes, this failure included. */
  ghost function Window(s: State): seq<Outcome> {
    var all := s.mintOutcomes + [Outcome(s.now, false)];
    PruneOutcomes(all, s.now)
  }

  /** A failed attempt that the breaker notes. */
  predicate NotesFailure(s: State, e: Event) {
    && e.Settle? && e.id in s.tasks
    && ((e.answer.Failed? && !s.tasks[e.id].stage.Cancelled?)
        || ((e.answer.Empty? || e.answer.Duplicate?) && s.tasks[e.id].stage.Running?))
  }

  /**
   * A storm starts exactly when a noted failure leaves at least five attempts in the window
   * of which fewer than a fifth succeeded; its first backoff is one minute.
   */
  lemma StormStartsIff(s: State, e: Event)
    requires Reachable(s) && s.storm.None?
    ensures Step(s, e).storm.Some? <==> NotesFailure(s, e) && Degraded(Window(s))
    ensures Step(s, e).storm.Some? ==> Step(s, e).storm.value == Storm(s.storms, 0, s.now + 60000, false)
  {
    ReachableInv(s);
    hide Degraded, PruneOutcomes;
  }

  /** The window holds exactly the attempts noted less than ten minutes ago. */
  lemma WindowIsRecent(s: State, i: nat)
    requires Reachable(s) && i <= |s.mintOutcomes|
    ensures var all := s.mintOutcomes + [Outcome(s.now, false)];
            i >= |all| - |Window(s)| <==> all[i].at > s.now - STORM_WINDOW_MS
  {
    ReachableInv(s);
    PruneKeepsRecent(s.mintOutcomes + [Outcome(s.now, false)], s.now);
  }

  /** Only a successful probe ends a storm, and it clears the window. */
  lemma StormEndsIff(s: State, e: Event)
    requires Reachable(s) && s.storm.Some?
    ensures Step(s, e).storm.None? <==> e.EndProbe? && s.probe.Some? && s.probe.value.stage == Returned(true)
    ensures Step(s, e).storm.None? ==> Step(s, e).mintOutcomes == [] && Step(s, e).probe.None?
    ensures Step(s, e).storm.Some? ==> Step(s, e).storm.value.serial == s.storm.value.serial
  {
    ReachableInv(s);
    hide PruneOutcomes;
  }

  /** During a storm every mint admitted to the solver is its one probe, started after the deadline. */
  lemma OnlyTheProbeMints(s: State, k: nat)
    requires Reachable(s) && k < |s.admissions|
    ensures s.admissions[k].storm.Some? <==> s.admissions[k].probe
    ensures s.admissions[k].probe ==> s.admissions[k].storm.value.until <= s.admissions[k].startedAt <= s.admissions[k].at
  {
    ReachableInv(s);
  }

  /** While a probe is out no second one starts, and its storm is still the current one. */
  lemma OneProbeAtATime(s: State, e: Event)
    requires Reachable(s) && s.probe.Some?
    ensures s.storm.Some? && s.storm.value.serial == s.probe.value.serial
    ensures var t := Step(s, e);
            t.probe.Some? ==> t.probe.value.startedAt == s.probe.value.startedAt && t.probe.value.serial == s.probe.value.serial
  {
    ReachableInv(s);
    hide PruneOutcomes;
  }

  lemma {:induction false} Pow2Grows(m: nat, n: nat)
    requires m <= n
    ensures Pow2(m) <= Pow2(n) && 1 <= Pow2(m)
    decreases n
  {
    if n == 0 {
    } else {
      if m == n {
        Pow2Grows(m - 1, n - 1);
      } else {
        Pow2Grows(m, n - 1);
      }
    }
  }

  /** Successive backoffs of one storm never shrink, and none exceeds ten minutes. */
  lemma BackoffsGrow(m: nat, n: nat)
    requires m <= n
    ensures STORM_BACKOFF_BASE_MS <= Backoff(m) <= Backoff(n) <= STORM_BACKOFF_MAX_MS
    ensures n >= 4 ==> Backoff(n) == STORM_BACKOFF_MAX_MS
  {
    Pow2Grows(m, n);
    if n >= 4 {
      assert Pow2(4) == 16;
      Pow2Grows(4, n);
    }
  }

  /** A storm's deadline moves only when its probe fails: one level up, one backoff from then. */
  lemma DeadlineMovesIff(s: State, e: Event)
    requires Reachable(s) && s.storm.Some? && Step(s, e).storm.Some?
    ensures var a, b := s.storm.value, Step(s, e).storm.value;
            && ((a.level, a.until) != (b.level, b.until) <==> e.EndProbe? && s.probe.Some? && s.probe.value.stage == Returned(false))
            && ((a.level, a.until) != (b.level, b.until) ==> b.level == a.level + 1 && b.until == s.now + Backoff(b.level) && b.until >= a.until)
  {
    ReachableInv(s);
    hide PruneOutcomes, Pow2;
  }

  /** The breaker cannot get stuck: with no probe out, the next tick after the deadline starts one. */
  lemma NextTickProbes(s: State)
    requires Reachable(s) && s.storm.Some? && s.probe.None? && s.now >= s.pausedUntil && s.now >= s.storm.value.until
    ensures OnStartProbe(s).probe == Some(Probe(s.storm.value.serial, s.now, Solving(Queued)))
  {
    ReachableInv(s);
  }

  /** One call of `solveFresh` makes at most its number of attempts. */
  lemma AttemptsAreBounded(s: State, id: nat)
    requires Reachable(s) && id in s.tasks
    ensures 1 <= s.tasks[id].attempt <= s.tasks[id].attempts
  {
    ReachableInv(s);
  }

  // ---------------------------------------------------------------------------
  // The pause after a rate limit
  // ---------------------------------------------------------------------------

  /** The section files something as a rate limit: a provider's answer, or our own refusal to a paused solve. */
  predicate FilesRateLimit(s: State, e: Event) {
    || (e.Settle? && e.id in s.tasks
        && (s.tasks[e.id].stage == Cancelled(true) || (s.tasks[e.id].stage.Running? && e.answer.RateLimited?)))
    || (e.SettleProbe? && ProbePending(s)
        && (s.probe.value.stage.stage.Cancelled? || (s.probe.value.stage.stage.Running? && e.answer.RateLimited?)))
  }

  /** The pause is moved exactly by a later pause from outside and by what is filed as a rate limit. */
  lemma PauseMovesIff(s: State, e: Event)
    ensures Step(s, e).pausedUntil > s.pausedUntil <==>
              || (e.Pause? && e.until > s.pausedUntil)
              || (FilesRateLimit(s, e) && s.pausedUntil < s.now + RATE_LIMIT_PAUSE_MS)
    ensures FilesRateLimit(s, e) ==> Step(s, e).pausedUntil == Max(s.pausedUntil, s.now + RATE_LIMIT_PAUSE_MS)
    ensures Step(s, e).pausedUntil >= s.pausedUntil
  {
    hide PruneOutcomes, Degraded;
  }

  /** Nothing is left that would refuse itself: no refused solve, and during a pause no queued one. */
  predicate Settled(s: State) {
    && (forall id :: id in s.tasks ==> s.tasks[id].stage != Cancelled(true))
    && (ProbePending(s) ==> !s.probe.value.stage.stage.Cancelled?)
    && (s.now < s.pausedUntil ==>
          (forall id :: id in s.tasks ==> s.tasks[id].stage != Queued) && !(ProbePending(s) && s.probe.value.stage.stage.Queued?))
  }

  /** A pause from outside, or an answer in which the provider limits the rate. */
  predicate NewLimit(e: Event) {
    e.Pause? || (e.Settle? && e.answer.RateLimited?) || (e.SettleProbe? && e.answer.RateLimited?)
  }

  lemma SettledStep(s: State, e: Event)
    requires Settled(s) && !NewLimit(e)
    ensures Settled(Step(s, e)) && Step(s, e).pausedUntil == s.pausedUntil
  {
    hide PruneOutcomes, Degraded;
  }

  /**
   * Once no solve or probe is queued a pause ends when it was set to end: over any later run
   * it moves only by a new limit.
   */
  lemma {:induction false} PauseEndsWhenSet(s: State, events: seq<Event>)
    requires Settled(s) && forall i :: 0 <= i < |events| ==> !NewLimit(events[i])
    ensures Settled(Run(s, events)) && Run(s, events).pausedUntil == s.pausedUntil
  {
    hide Step, Settled;
    if events == [] {
      assert Run(s, events) == s;
    } else {
      PauseEndsWhenSet(s, events[..|events| - 1]);
      SettledStep(Run(s, events[..|events| - 1]), events[|events| - 1]);
    }
  }

  // ---------------------------------------------------------------------------
  // Jobs that could still refuse themselves
  // ---------------------------------------------------------------------------

  /** Something waiting in the dispatcher: an ordinary solve or the probe. */
  datatype Job = Solve(id: nat) | TheProbe

  function StageOf(s: State, job: Job): Option<Stage> {
    match job
    case Solve(id) => if id in s.tasks then Some(s.tasks[id].stage) else None
    case TheProbe => if ProbePending(s) then Some(s.probe.value.stage.stage) else None
  }

  function Admitting(job: Job): Event {
    match job
    case Solve(id) => Admit(id)
    case TheProbe => AdmitProbe
  }

  function Settling(job: Job, answer: Answer): Event {
    match job
    case Solve(id) => Settle(id, answer)
    case TheProbe => SettleProbe(answer)
  }

  /** The job has been refused for the pause, or will be if its turn comes during it. */
  predicate Refuses(s: State, job: Job) {
    || StageOf(s, job) == Some(Cancelled(true))
    || (job.TheProbe? && StageOf(s, job) == Some(Cancelled(false)))
    || (StageOf(s, job) == Some(Queued) && s.now < s.pausedUntil)
  }

  lemma SettledIff(s: State)
    ensures Settled(s) <==> forall job :: !Refuses(s, job)
  {
    if forall job :: !Refuses(s, job) {
      assert !Refuses(s, TheProbe);
      forall id | id in s.tasks
        ensures s.tasks[id].stage != Cancelled(true) && (s.now < s.pausedUntil ==> s.tasks[id].stage != Queued)
      {
        assert !Refuses(s, Solve(id));
      }
    }
  }

  ghost predicate OneInFlight(s: State) {
    forall j, k :: StageOf(s, j) == StageOf(s, k) == Some(Running) ==> j == k
  }

  lemma BusyIff(s: State)
    ensures Busy(s) <==> exists job :: StageOf(s, job) == Some(Running)
  {
    if id :| id in s.tasks && s.tasks[id].stage == Running {
      assert StageOf(s, Solve(id)) == Some(Running);
    }
    if s.probe.Some? && s.probe.value.stage == Solving(Running) {
      assert StageOf(s, TheProbe) == Some(Running);
    }
  }

  /** A step starts a mint only by admitting it. */
  lemma RunningStep(s: State, e: Event, job: Job)
    requires StageOf(Step(s, e), job) == Some(Running)
    ensures StageOf(s, job) == Some(Running) || (!Busy(s) && e == Admitting(job))
  {
    hide Busy, PruneOutcomes, Degraded, Pow2;
  }

  lemma OneInFlightStep(s: State, e: Event)
    requires OneInFlight(s)
    ensures OneInFlight(Step(s, e))
  {
    hide Step, StageOf, Busy;
    BusyIff(s);
    forall j, k | StageOf(Step(s, e), j) == StageOf(Step(s, e), k) == Some(Running) ensures j == k {
      RunningStep(s, e, j);
      RunningStep(s, e, k);
    }
  }

  /** At every moment at most one mint is in flight. */
  lemma {:induction false} AtMostOneMint(now: nat, events: seq<Event>)
    ensures OneInFlight(Run(Init(now), events))
  {
    hide Step;
    if events == [] {
      assert Run(Init(now), events) == Init(now);
    } else {
      AtMostOneMint(now, events[..|events| - 1]);
      OneInFlightStep(Run(Init(now), events[..|events| - 1]), events[|events| - 1]);
    }
  }

  lemma RunSnoc(s: State, events: seq<Event>, e: Event) returns (all: seq<Event>)
    requires forall i :: 0 <= i < |events| ==> !NewLimit(events[i])
    requires !NewLimit(e)
    ensures Run(s, all) == Step(Run(s, events), e)
    ensures forall i :: 0 <= i < |all| ==> !NewLimit(all[i])
  {
    all := events + [e];
    assert all[..|all| - 1] == events;
  }

  lemma EmptyRun(s: State)
    ensures Run(s, []) == s
  {
  }

  /** The mint in flight returns: the dispatcher is free, and everything else stands as it was. */
  lemma RunningReturns(s: State, running: Job)
    requires OneInFlight(s) && StageOf(s, running) == Some(Running)
    ensures var t := Step(s, Settling(running, Usable));
            && !Busy(t) && t.now == s.now && t.pausedUntil == s.pausedUntil
            && forall job :: job != running ==> StageOf(t, job) == StageOf(s, job)
  {
    var t := Step(s, Settling(running, Usable));
    hide PruneOutcomes, Degraded, Busy, OneInFlight;
    assert forall job :: job != running ==> StageOf(t, job) == StageOf(s, job);
    assert StageOf(t, running) != Some(Running);
    hide Step, StageOf;
    BusyIff(t);
    if job :| StageOf(t, job) == Some(Running) {
      assert StageOf(s, job) == Some(Running);
      OnlyOne(s, job, running);
    }
  }

  lemma OnlyOne(s: State, j: Job, k: Job)
    requires OneInFlight(s) && StageOf(s, j) == StageOf(s, k) == Some(Running)
    ensures j == k
  {
  }

  lemma TurnRefuses(s: State, job: Job)
    requires StageOf(s, job) == Some(Queued) && s.now < s.pausedUntil && !Busy(s)
    ensures var t := Step(s, Admitting(job));
            StageOf(t, job) == Some(Cancelled(true)) && t.now == s.now && t.pausedUntil == s.pausedUntil
  {
    hide Busy;
  }

  lemma RefusalIsFiled(s: State, job: Job)
    requires StageOf(s, job) == Some(Cancelled(true)) || (job.TheProbe? && StageOf(s, job) == Some(Cancelled(false)))
    ensures Step(s, Settling(job, Empty)).pausedUntil == Max(s.pausedUntil, s.now + RATE_LIMIT_PAUSE_MS)
  {
    hide PruneOutcomes, Degraded;
  }

  /**
   * Whichever refusing job comes next and whenever its turn comes during the pause: the mint
   * in flight returns, the job is refused, and its refusal extends the pause to five minutes
   * from then, with no new limit.
   */
  lemma RefusalProlongsPause(s: State, job: Job, to: nat) returns (events: seq<Event>)
    requires OneInFlight(s) && Refuses(s, job) && s.now <= to && (StageOf(s, job) == Some(Queued) ==> to < s.pausedUntil)
    ensures forall i :: 0 <= i < |events| ==> !NewLimit(events[i])
    ensures Run(s, events).pausedUntil == Max(s.pausedUntil, to + RATE_LIMIT_PAUSE_MS)
  {
    EmptyRun(s);
    BusyIff(s);
    hide Run, Busy;
    events := RunSnoc(s, [], Tick(to));
    var t := Step(s, Tick(to));
    assert forall j :: StageOf(t, j) == StageOf(s, j);
    assert Busy(t) <==> Busy(s) by { BusyIff(t); }
    if StageOf(s, job) == Some(Queued) {
      if running :| StageOf(t, running) == Some(Running) {
        RunningReturns(t, running);
        events := RunSnoc(s, events, Settling(running, Usable));
        t := Step(t, Settling(running, Usable));
      }
      TurnRefuses(t, job);
      hide Step, StageOf;
      events := RunSnoc(s, events, Admitting(job));
      t := Step(t, Admitting(job));
    }
    RefusalIsFiled(t, job);
    hide Step;
    events := RunSnoc(s, events, Settling(job, Empty));
  }

  /** So the condition is exact: unless everything is settled, a run without a new limit moves the pause. */
  lemma UnsettledPauseMoves(s: State) returns (events: seq<Event>)
    requires OneInFlight(s) && !Settled(s)
    ensures forall i :: 0 <= i < |events| ==> !NewLimit(events[i])
    ensures Run(s, events).pausedUntil > s.pausedUntil
  {
    SettledIff(s);
    hide Settled;
    var job :| Refuses(s, job);
    events := RefusalProlongsPause(s, job, if StageOf(s, job) == Some(Queued) then s.pausedUntil - 1 else Max(s.now, s.pausedUntil));
  }

  /**
   * It happens from the start: while one mint is in flight a second solve waits, a pause
   * begins, and when the first returns the second prolongs the pause with no answer at all.
   */
  lemma QueuedSolveProlongsPause(now: nat, until: nat, answer: Answer)
    requires now < until < now + RATE_LIMIT_PAUSE_MS && !answer.RateLimited?
    ensures var waiting := Step(Step(Step(Init(now), StartSolve(0, 1)), Admit(0)), StartSolve(1, 1));
            var paused := Step(waiting, Pause(until));
            var free := Step(paused, Settle(0, Usable));
            var t := Step(Step(free, Admit(1)), Settle(1, answer));
            && Busy(paused) && paused.pausedUntil == free.pausedUntil == until && !Settled(paused)
            && t.pausedUntil == now + RATE_LIMIT_PAUSE_MS && |t.admissions| == 1
  {
    var one := Init(now).(tasks := map[0 := Task(1, 1, Queued)], activeSolves := 1);
    assert Step(Init(now), StartSolve(0, 1)) == one;
    var admitted := one.(tasks := map[0 := Task(1, 1, Running)], admissions := [Admission(false, now, now, None)]);
    assert Step(one, Admit(0)) == admitted;
    var paused := Step(Step(admitted, StartSolve(1, 1)), Pause(until));
    assert paused.tasks == map[0 := Task(1, 1, Running), 1 := Task(1, 1, Queued)];
    assert 0 in paused.tasks && 1 in paused.tasks && paused.tasks[1].stage == Queued && paused.tasks[0].stage == Running;
    var free := Step(paused, Settle(0, Usable));
    assert free.tasks == map[1 := Task(1, 1, Queued)];
    assert 1 in free.tasks && !Busy(free);
    var refused := Step(free, Admit(1));
    assert refused.tasks == map[1 := Task(1, 1, Cancelled(true))];
  }
}
