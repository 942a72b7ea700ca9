/**
 * The mint-storm breaker in the source's own form: fields changed by the sections of
 * `solveFresh` and `probeStorm`, each proved to be one step of module `MintStorm`. The map
 * of tasks stands for the suspended calls, which the original keeps on promises.
 */
module MintStormRuntime {
  import opened Util
  import opened M = MintStorm

  class MintBreaker {
    var pausedUntil: nat
    var mintOutcomes: seq<Outcome>
    var storm: Option<Storm>
    var storms: nat
    var activeSolves: int
    var tasks: map<nat, Task>
    var probe: Option<Probe>
    ghost var admissions: seq<Admission>

    ghost function State(now: nat): M.State
      reads this
    {
      M.State(now, pausedUntil, mintOutcomes, storm, storms, activeSolves, tasks, probe, admissions)
    }

    constructor (now: nat)
      ensures State(now) == Init(now)
    {
      pausedUntil, mintOutcomes, storm, storms := 0, [], None, 0;
      activeSolves, tasks, probe, admissions := 0, map[], None, [];
    }

    /** `stormBackoffMs`. */
    method StormBackoff(level: nat) returns (ms: nat)
      ensures ms == Backoff(level)
    {
      var power := 1;
      for k := 0 to level
        invariant power == Pow2(k)
      {
        power := 2 * power;
      }
      ms := Min(STORM_BACKOFF_MAX_MS, STORM_BACKOFF_BASE_MS * power);
    }

    /** Drops outcomes from the front of the window. */
    method PruneMintOutcomes(now: nat)
      modifies `mintOutcomes
      ensures mintOutcomes == PruneOutcomes(old(mintOutcomes), now)
    {
      while |mintOutcomes| > 0 && mintOutcomes[0].at <= now - STORM_WINDOW_MS
        invariant PruneOutcomes(mintOutcomes, now) == PruneOutcomes(old(mintOutcomes), now)
        decreases |mintOutcomes|
      {
        mintOutcomes := mintOutcomes[1..];
      }
    }

    method CountOk() returns (ok: nat)
      ensures ok == Successes(mintOutcomes)
    {
      ok := 0;
      for k := 0 to |mintOutcomes|
        invariant ok == Successes(mintOutcomes[..k])
      {
        assert mintOutcomes[..k + 1][..k] == mintOutcomes[..k];
        if mintOutcomes[k].ok {
          ok := ok + 1;
        }
      }
      assert mintOutcomes[..|mintOutcomes|] == mintOutcomes;
    }

    method NoteMintOutcome(now: nat, ok: bool)
      modifies this
      ensures State(now) == Note(old(State(now)), ok)
    {
      mintOutcomes := mintOutcomes + [Outcome(now, ok)];
      PruneMintOutcomes(now);
      if !ok && storm.None? {
        MaybeEnterStorm(now);
      }
    }

    method MaybeEnterStorm(now: nat)
      requires storm.None?
      modifies `storm, `storms
      ensures if Degraded(mintOutcomes) then
                storm == Some(Storm(old(storms), 0, now + Backoff(0), false)) && storms == old(storms) + 1
              else storm == None && storms == old(storms)
    {
      var attempts := |mintOutcomes|;
      if attempts < STORM_MIN_ATTEMPTS {
        return;
      }
      var ok := CountOk();
      if ok * 5 >= attempts {
        return;
      }
      var wait := StormBackoff(0);
      storm := Some(Storm(storms, 0, now + wait, false));
      storms := storms + 1;
    }

    method Finish(now: nat, id: nat)
      modifies `tasks, `activeSolves
      ensures State(now) == Drop(old(State(now)), id)
    {
      tasks := tasks - {id};
      activeSolves := activeSolves - 1;
    }

    /** `solveFresh` up to its first await. */
    method SolveFresh(now: nat, id: nat, attempts: nat)
      requires id !in tasks
      modifies this
      ensures State(now) == Step(old(State(now)), StartSolve(id, attempts))
    {
      if now < pausedUntil {
        return;
      }
      activeSolves := activeSolves + 1;
      if attempts == 0 || storm.Some? {
        activeSolves := activeSolves - 1;
        return;
      }
      tasks := tasks[id := Task(attempts, 1, Queued)];
    }

    /** The admission callback of a queued solve. */
    method BeforeSolve(now: nat, id: nat)
      requires id in tasks && tasks[id].stage == Queued && !Busy(State(now))
      modifies this
      ensures State(now) == Step(old(State(now)), Admit(id))
    {
      if now < pausedUntil {
        tasks := tasks[id := tasks[id].(stage := Cancelled(true))];
        return;
      }
      if storm.Some? {
        tasks := tasks[id := tasks[id].(stage := Cancelled(false))];
        return;
      }
      admissions := admissions + [Admission(false, now, now, storm)];
      tasks := tasks[id := tasks[id].(stage := Running)];
    }

    /** The rest of one round of the retry loop, and the start of the next. */
    method SolveSettled(now: nat, id: nat, answer: Answer)
      requires id in tasks
      requires tasks[id].stage.Queued? ==> answer.Failed?
      modifies this
      ensures State(now) == Step(old(State(now)), Settle(id, answer))
    {
      hide Note;
      var task := tasks[id];
      if task.stage == Cancelled(false) {
        Finish(now, id);
        return;
      }
      if task.stage == Cancelled(true) || answer.RateLimited? {
        pausedUntil := Max(pausedUntil, now + RATE_LIMIT_PAUSE_MS);
        Finish(now, id);
        return;
      }
      NoteMintOutcome(now, answer.Usable?);
      NoteLeavesTasks(old(State(now)), answer.Usable?);
      if answer.Usable? || task.attempt >= task.attempts || now < pausedUntil || storm.Some? {
        Finish(now, id);
      } else {
        tasks := tasks[id := Task(task.attempts, task.attempt + 1, Queued)];
      }
    }

    /** `probeStorm` up to its await, called from a refill tick. */
    method ProbeStorm(now: nat)
      modifies this
      ensures State(now) == Step(old(State(now)), StartProbe)
    {
      if now < pausedUntil || storm.None? || storm.value.probing || now < storm.value.until {
        return;
      }
      storm := Some(storm.value.(probing := true));
      activeSolves := activeSolves + 1;
      probe := Some(Probe(storm.value.serial, now, Solving(Queued)));
    }

    method BeforeProbe(now: nat)
      requires probe.Some? && probe.value.stage == Solving(Queued) && !Busy(State(now))
      modifies this
      ensures State(now) == Step(old(State(now)), AdmitProbe)
    {
      if now < pausedUntil {
        probe := Some(probe.value.(stage := Solving(Cancelled(true))));
        return;
      }
      admissions := admissions + [Admission(true, now, probe.value.startedAt, storm)];
      probe := Some(probe.value.(stage := Solving(Running)));
    }

    method ProbeSettled(now: nat, answer: Answer)
      requires probe.Some? && probe.value.stage.Solving?
      requires probe.value.stage.stage.Queued? ==> answer.Failed?
      modifies this
      ensures State(now) == Step(old(State(now)), SettleProbe(answer))
    {
      var refused := probe.value.stage.stage.Cancelled?;
      if refused || answer.RateLimited? {
        pausedUntil := Max(pausedUntil, now + RATE_LIMIT_PAUSE_MS);
      }
      probe := Some(probe.value.(stage := Returned(!refused && answer.Usable?)));
      activeSolves := activeSolves - 1;
    }

    /** `probeStorm` after its await: resume minting, or back off further. */
    method ProbeReturned(now: nat)
      requires probe.Some? && probe.value.stage.Returned?
      modifies this
      ensures State(now) == Step(old(State(now)), EndProbe)
    {
      var mine := probe.value.serial;
      if probe.value.stage.ok {
        storm := None;
        mintOutcomes := [];
      } else if storm.Some? && storm.value.serial == mine {
        var level := storm.value.level + 1;
        var wait := StormBackoff(level);
        storm := Some(Storm(mine, level, now + wait, false));
      }
      probe := None;
    }
  }

  lemma NoteLeavesTasks(s: M.State, ok: bool)
    ensures var t := Note(s, ok);
            t == s.(mintOutcomes := t.mintOutcomes, storm := t.storm, storms := t.storms)
  {
  }
}
