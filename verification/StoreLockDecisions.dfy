/**
 * What every filesystem step of a process under the store lock does
 * (auth/account-store.ts:323-391, 404-426, 528-561), each with its exact condition, and what
 * an undisturbed mutation brings about.
 */
module StoreLockDecisions {
  import opened Util
  import opened Accounts
  import opened AccountStore
  import opened StoreLock

  /** Only this process moves on; store, lock and everybody else stand as they were. */
  predicate OnlyMoves(s: State, t: State, p: Pid, stage: Stage) {
    t == s.(stages := s.stages[p := stage])
  }

  /** The lock is taken, under a nonce nobody had, exactly by an idle process that finds none. */
  lemma LockDecides(s: State, p: Pid, m: Mutation, subject: SubjectOracle)
    ensures Step(s, TryLock(p, m), subject) ==
              if StageOf(s, p) == Idle && s.lock.None?
              then s.(stages := s.stages[p := Locked(s.nonces, m)], lock := Some(s.nonces), owner := s.owner[s.nonces := p], nonces := s.nonces + 1)
              else s
  {
  }

  /** The holder of the lock reads what is stored; a process at any other stage reads nothing. */
  lemma LoadDecides(s: State, p: Pid, subject: SubjectOracle)
    ensures var t := Step(s, Load(p), subject);
            match StageOf(s, p)
            case Locked(n, m) => OnlyMoves(s, t, p, Loaded(n, m, s.accounts, s.revision))
            case _ => t == s
  {
  }

  /**
   * The effect of a mutation on what was read is written, under the next revision, exactly if
   * it commits and the disk lets it; then, as after any failure, the lock is to be released.
   */
  lemma WriteDecides(s: State, p: Pid, ok: bool, subject: SubjectOracle)
    ensures var t := Step(s, Write(p, ok), subject);
            match StageOf(s, p)
            case Loaded(n, m, seen, seenRevision) =>
              var e := Apply(m, seen, seenRevision, subject);
              if ok && e.Commit?
              then t == s.(stages := s.stages[p := Finished(n)], accounts := e.accounts, revision := seenRevision + 1, log := s.log + [m])
              else OnlyMoves(s, t, p, Finished(n))
            case _ => t == s
  {
    hide Apply;
  }

  lemma GiveUpDecides(s: State, p: Pid, subject: SubjectOracle)
    ensures var t := Step(s, GiveUp(p), subject);
            match StageOf(s, p)
            case Locked(n, _) => OnlyMoves(s, t, p, Finished(n))
            case Loaded(n, _, _, _) => OnlyMoves(s, t, p, Finished(n))
            case _ => t == s
  {
  }

  /** A release removes the lock file exactly if it found its own nonce in it, and the disk lets it. */
  lemma ReleaseDecides(s: State, p: Pid, ok: bool, subject: SubjectOracle)
    ensures var t := Step(s, ReleaseCheck(p), subject);
            match StageOf(s, p)
            case Finished(n) => OnlyMoves(s, t, p, if s.lock == Some(n) then Unlinking(n) else Idle)
            case _ => t == s
    ensures var t := Step(s, ReleaseUnlink(p, ok), subject);
            match StageOf(s, p)
            case Unlinking(_) => t == s.(stages := s.stages[p := Idle], lock := if ok then None else s.lock)
            case _ => t == s
  {
  }

  /**
   * A recovery goes on exactly while the lock names a dead owner, and at its second reading
   * still the same one; then its rename removes whatever lock is there.
   */
  lemma RecoveryDecides(s: State, p: Pid, subject: SubjectOracle)
    ensures var t := Step(s, Inspect(p), subject);
            var dead := s.lock.Some? && s.lock.value in s.owner && StageOf(s, s.owner[s.lock.value]) == Dead;
            match StageOf(s, p)
            case Idle => if dead then OnlyMoves(s, t, p, Checked(s.lock.value)) else t == s
            case Checked(n) => if dead && s.lock.value == n then t == s else OnlyMoves(s, t, p, Idle)
            case _ => t == s
    ensures var t := Step(s, Quarantine(p), subject);
            if StageOf(s, p).Checked? then t == s.(stages := s.stages[p := Idle], lock := None) else t == s
  {
  }

  /** A forced unlock removes the lock file and nothing else; a crash ends its process and leaves the files. */
  lemma ForceAndCrash(s: State, p: Pid, subject: SubjectOracle)
    ensures Step(s, Force, subject) == s.(lock := None)
    ensures OnlyMoves(s, Step(s, Crash(p), subject), p, Dead)
  {
  }

  /** The store before any step: what is on disk, and no lock. */
  lemma StartsUnlocked(accounts: seq<Profile>, revision: nat, p: Pid)
    ensures var s := Init(accounts, revision);
            s.accounts == accounts && s.revision == revision && s.lock.None? && s.log == [] && s.owner == map[] && StageOf(s, p) == Idle
  {
  }

  /** An undisturbed mutation that commits is stored under the next revision, and leaves the store unlocked. */
  lemma UndisturbedMutationCommits(s: State, p: Pid, m: Mutation, subject: SubjectOracle)
    requires StageOf(s, p) == Idle && s.lock.None? && Apply(m, s.accounts, s.revision, subject).Commit?
    ensures var loaded := Step(Step(s, TryLock(p, m), subject), Load(p), subject);
            var t := Step(Step(Step(loaded, Write(p, true), subject), ReleaseCheck(p), subject), ReleaseUnlink(p, true), subject);
            && t.accounts == Apply(m, s.accounts, s.revision, subject).accounts && t.revision == s.revision + 1
            && t.log == s.log + [m] && t.lock.None? && StageOf(t, p) == Idle
  {
    hide Apply;
    var loaded := Step(Step(s, TryLock(p, m), subject), Load(p), subject);
    assert StageOf(loaded, p) == Loaded(s.nonces, m, s.accounts, s.revision) && loaded.lock == Some(s.nonces);
    var written := Step(loaded, Write(p, true), subject);
    assert StageOf(written, p) == Finished(s.nonces);
    assert StageOf(Step(written, ReleaseCheck(p), subject), p) == Unlinking(s.nonces);
  }
}
