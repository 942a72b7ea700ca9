# Verified models of the zcode proxy's stateful cores

The proxy keeps several small protocols in mutable state that is changed by interleaved
asynchronous steps, timers and failing I/O. This project models them in Dafny 4.11 and proves
what they promise over every interleaving. `dafny verify dfyconfig.toml` checks everything.

## How the models are built

One JavaScript run-to-completion section, that is the code between two `await`s or one
callback, is one atomic step. For each component there are two modules:

- a specification module (`Bridge`, `Solver`, `CdnCache`, ...) with the state as a value, one
  function for each section, and lemmas about single steps and about whole runs;
- a runtime module (`BridgeRuntime`, `SolverRuntime`, ...) with a class that has the source's
  fields, and methods with the source's branches and loops, each proved to turn the old state
  into the one its section function gives. In the bridge, the solver, the metadata writer and the
  signer every callback is also proved to keep the object in a state that a run of the
  specification reaches, so what is proved of runs holds of the object.

What a single section decides is stated a third time, independently of its function: the
`...Decisions`, `SolverVerdicts`, `Quarantine`, `StoreEffects` and `CanonicalForms` modules say
of the fields before and after, with the source's own conditions and numbers, which way each
section goes, and prove that the section functions do so.

The environment (poll answers, chunks, disk failures, worker messages, clock ticks, answers of
upstreams) is a parameter of the steps, so a statement about all runs covers all its choices.
The clock is read once in a section and never goes back.

| files | component |
|---|---|
| `Framing`, `Bridge`, `BridgeDecisions`, `BridgeRuntime` | off-peak ticket bridge: frame splitter, wait/ready/retake machine, settlement |
| `Solver`, `SolverVerdicts`, `SolverRuntime` | single-worker captcha dispatcher: deadlines, generations, recycling, shutdown |
| `CdnCache`, `CdnCacheRuntime` | two-tier CDN cache as a refinement of a map |
| `Accounts`, `Rotator`, `RotatorRuntime`, `Handles`, `Quarantine` | account selection, quarantine, generation-stamped handles |
| `Failover`, `FailoverDecisions`, `FailoverRuntime` | recovery from the account pool |
| `Persistence`, `PersistenceDecisions`, `PersistenceRuntime` | background writer of account metadata |
| `AccountStore`, `StoreEffects`, `AccountStoreRuntime`, `AccountGroups`, `StoreLock`, `StoreLockDecisions` | store mutations, alias groups, and several processes under the lock file |
| `PoolRefresh`, `PoolRefreshRuntime` | how a running proxy follows the store |
| `TokenBank`, `TokenBankDecisions`, `TokenBankRuntime`, `MintStorm`, `MintDecisions`, `MintStormRuntime` | captcha token bank and mint-storm breaker |
| `CanonicalJson`, `CanonicalForms`, `Lineage`, `SessionTable`, `SessionDecisions`, `SessionTableRuntime` | canonical JSON, request lineage, session table |
| `BatchFold`, `BatchFoldRuntime` | response rebuilt from server-sent events |
| `Signing`, `SigningDecisions`, `SigningRuntime` | signing epochs and the retry ladder |
| `Util` | option type, minimum and maximum, concatenation |

SHA-256 is an injective function, so a hash is kept as what was hashed. Credentials are values
with equality. An absent (`undefined`) field is `None`.

## Where the code does not do what it seems to promise

Each is a theorem below: a concrete failing case, and the exact condition or the runs without it.

- A CRLF cut between two chunks becomes a blank line (`Framing.CutCrLfChangesTheStream`,
  `Framing.NormalizeAppendIff`).
- The 1 MiB cap is checked before frames are cut, so tripping it depends on the chunking
  (`Framing.CapDependsOnChunking`, `Framing.CapTripsIff`).
- The end-of-stream flush of a terminated frame is dead code (`Framing.LeftoverHasNoBoundary`),
  and so is joining an open recovery, unless its account leaves the pool and returns
  (`Failover.JoinNeverTaken`, `Failover.ReturnedAccountJoins`).
- A failed disk write over a more recent file lets that file come back
  (`CdnCache.PutFaithfulIff`, `CdnCache.StaleFileResurfaces`).
- The sticky account loses its place when an earlier alias of it becomes usable
  (`Rotator.StickyIff`).
- An account that leaves the pool and returns revives old handles
  (`Handles.ReturningAccountRevivesHandle`, `Handles.RevivedIff`).
- A metadata change can rest unsaved with no failure reported when the retry schedule is empty
  (`Persistence.EmptyScheduleRests`).
- A cleared quarantine comes back from a stale snapshot (`AccountStore.ClearSurvivesIff`), the
  order of persist passes matters for a profile stored without a revision
  (`AccountStore.PassesCommuteIff`), and replacing an account does not always raise its revision
  (`AccountStore.ReplaceRaisesRevisionIff`).
- The comment at `auth/account-store.ts:335-336` says that the recovery rename cannot steal a live
  lock; re-reading and renaming are two steps, and a run loses an update
  (`StoreLock.TheftLosesAnUpdate`, `StoreLock.StepKeepsIff`, `StoreLock.TheftCanLoseAnUpdate`).
- A verified login that brings a blank user id wipes the stored one
  (`AccountStore.LoginKeepsUserIff`).
- A refresh around the proxy's own write, or a write around a refresh, takes the rotator back to
  an older pool (`PoolRefresh.OverlappedRefreshGoesBack`, `PoolRefresh.OverlappedWriteGoesBack`,
  `PoolRefresh.GoesBackIffOverlapped`).
- Trimming keeps one banked token over a maximum of zero (`TokenBank.OneTokenOverZeroMax`,
  `TokenBank.BankWithinMax`).
- A solve that waited in the queue when a pause began prolongs that pause
  (`MintStorm.QueuedSolveProlongsPause`, `MintStorm.RefusalProlongsPause`, `MintStorm.PauseMovesIff`,
  `MintStorm.UnsettledPauseMoves`).
- Canonical JSON prints an overflowed number as `null` and `-0` as `0`
  (`CanonicalJson.OverflowPrintsAsNull`, `CanonicalJson.PrintsAlikeIff`).
- A follow-up loses its session when it appends a developer message, or when it was stored under
  another session first (`SessionTable.FollowUpIff`, `SessionTable.StoredFollowUpStaysApart`).
- A signing call that began before a bypass still signs after it (`Signing.EarlierCallStillSigns`,
  `Signing.SignsAfterBypassIff`), and a late failed waiter overtakes a newer handshake
  (`Signing.LateFailureOvertakesNewHandshake`, `Signing.OvertakesIff`).
- A client abort is reported as outcome `error`, not `abort`, when it meets a failing poll or its
  backoff, a failed retake, a failed read of the body, an error body or a frame over the cap
  (`Bridge.AbortedEndsIff`, `Bridge.AbortReportedAsError`).

## Model

| member | source | states |
|---|---|---|
| `Framing.SplitIsSplit` | `zcode-proxy-src/src/async/bridge.ts:404-429` | cutting off `indexOf("\n\n")` frames yields a division of the text: frames that each end in their only blank line, and a leftover without one |
| `Framing.SplitUnique` | `zcode-proxy-src/src/async/bridge.ts:404-429` | no other division of a text into such frames and leftover exists |
| `Framing.SplitAppend` | `zcode-proxy-src/src/async/bridge.ts:391-429` | when text is appended, the frames already found stay and only the leftover is cut again |
| `Framing.MarkerNeverForwarded` | `zcode-proxy-src/src/async/bridge.ts:373-429` | the expiry marker occurs in the text iff it occurs in a frame or in the leftover, and the forwarded frames never contain it |
| `Framing.NormalizeAppendIff` | `zcode-proxy-src/src/async/bridge.ts:391` | normalising line ends piece by piece equals normalising the join, iff no CRLF is cut between the pieces (line ends: section 9.2.5 of the WHATWG HTML standard) |
| `Framing.NormalizeEachIff` | `zcode-proxy-src/src/async/bridge.ts:391` | the same for any number of chunks: equal iff no cut goes through a CRLF |
| `Framing.FeedAllInvariant` | `zcode-proxy-src/src/async/bridge.ts:366-431` | after any chunks the loop state is the exact image of the text read: frames forwarded, leftover kept, or stopped at the first marked frame, or stopped by the cap |
| `Framing.StreamMeansText` | `zcode-proxy-src/src/async/bridge.ts:366-431` | unless the cap trips, what any chunking forwards, and whether it expires, is a function of the text (each chunk normalised, then joined) alone |
| `Framing.ChunkIndependence` | `zcode-proxy-src/src/async/bridge.ts:357-431` | two chunkings of one text that cut no CRLF and do not hit the cap forward the same frames and end alike |
| `Framing.LfOnlyChunkIndependence` | `zcode-proxy-src/src/async/bridge.ts:357-431` | on LF-only text every two chunkings that do not hit the cap agree |
| `Framing.LeftoverHasNoBoundary` | `zcode-proxy-src/src/async/bridge.ts:381-384` | `pending` never holds a blank line while reading, so the branch that flushes it at end of stream is unreachable |
| `Framing.CutCrLfChangesTheStream` | `zcode-proxy-src/src/async/bridge.ts:391` | a CRLF cut between two chunks is forwarded as an extra blank line: a concrete pair of chunkings that differ |
| `Framing.CapTripsIff` | `zcode-proxy-src/src/async/bridge.ts:393-401` | the cap trips iff some chunk, read before any marker, makes leftover plus chunk longer than the cap |
| `Framing.CapDependsOnChunking` | `zcode-proxy-src/src/async/bridge.ts:393-401` | for every cap of two or more, one text trips it in one chunking and not in another |
| `Bridge.OutputGrammar` | `zcode-proxy-src/src/async/bridge.ts:203-501` | in every reachable state the output is keepalives, then frames of the last attempt only, then at most one terminal error as the last item; the frames are a prefix of what that attempt received, free of the marker |
| `Bridge.SilentAfterAbort` | `zcode-proxy-src/src/async/bridge.ts:96-113` | once the client is gone nothing more is enqueued, whatever happens later |
| `Bridge.TicketsSettledOnce` | `zcode-proxy-src/src/async/bridge.ts:80-86` | every ticket obtained is settled at most once, every one obtained is settled when the bridge has closed, before that at most the current one is unsettled, and retakes stay within `maxRetries` |
| `Bridge.OutcomeResolvedOnce` | `zcode-proxy-src/src/async/bridge.ts:68-76` | the outcome is resolved exactly when the bridge has closed and never changes; it reports between 1 and `maxRetries + 1` attempts when `maxRetries >= 0` |
| `Bridge.DoneMeansWholeBody` | `zcode-proxy-src/src/async/bridge.ts:475-478` | a `done` outcome means the output is keepalives and then exactly the frames of the whole body received in the last attempt, which carries no marker |
| `Bridge.TimeoutIsLate` | `zcode-proxy-src/src/async/bridge.ts:251-270` | a timeout error is reported only when the total wait budget has really passed |
| `Bridge.AbortedBridgeCloses` | `zcode-proxy-src/src/async/bridge.ts:234-249` | after an abort every awaited answer brings the routine strictly closer to closed, in at most three answers |
| `Bridge.AbortedEndsIff` | `zcode-proxy-src/src/async/bridge.ts:156-171` | in whatever phase: the event that closes an aborted bridge makes its outcome `abort` iff it is not a failing poll, the end of a poll backoff, a failed retake, a failed read, an error body or the end of a cancel over the cap; those end it as `error`. Nothing is enqueued |
| `Bridge.AbortReportedAsError` | `zcode-proxy-src/src/async/bridge.ts:480-485` | for every ticket a run from the start that ends so: the client leaves while a poll is failing, or while the body is read |
| `Bridge.FlushIsDead` | `zcode-proxy-src/src/async/bridge.ts:381-384` | in the running bridge too, the end-of-stream flush branch never forwards |
| `Bridge.StepInv` | `zcode-proxy-src/src/async/bridge.ts:203-501` | every section keeps the invariant behind the results above |
| `BridgeRuntime.AsyncBridge.constructor` | `zcode-proxy-src/src/async/bridge.ts:64-102` | a new bridge is the initial state: ticket obtained, nothing sent; proved to be that step of the state machine, from a reachable state to a reachable state |
| `BridgeRuntime.AsyncBridge.Retake` | `zcode-proxy-src/src/async/bridge.ts:271-284` | one more attempt, or exhausted; proved to be that step of the state machine |
| `BridgeRuntime.AsyncBridge.LoopHead` | `zcode-proxy-src/src/async/bridge.ts:233-247` | abort, wait or forward; proved to be that step of the state machine |
| `BridgeRuntime.AsyncBridge.LeaveStream` | `zcode-proxy-src/src/async/bridge.ts:439-478` | the four ways a finished stream can end; proved to be that step of the state machine |
| `BridgeRuntime.AsyncBridge.PollAnswered` | `zcode-proxy-src/src/async/bridge.ts:127-145` | what each poll answer leads to; proved to be that step of the state machine, from a reachable state to a reachable state |
| `BridgeRuntime.AsyncBridge.PollFailed` | `zcode-proxy-src/src/async/bridge.ts:160-171` | retry with backoff, give up after three failures; proved to be that step of the state machine, from a reachable state to a reachable state |
| `BridgeRuntime.AsyncBridge.Fetched` | `zcode-proxy-src/src/async/bridge.ts:360-365` | the body starts streaming, or an empty one is done; proved to be that step of the state machine, from a reachable state to a reachable state |
| `BridgeRuntime.AsyncBridge.ForwardFrames` | `zcode-proxy-src/src/async/bridge.ts:403-429` | forwards all complete frames before the first marked one and leaves the rest in `pending`; proved to be that step of the state machine |
| `BridgeRuntime.AsyncBridge.ChunkRead` | `zcode-proxy-src/src/async/bridge.ts:390-430` | one chunk: cap check, then frames, then expiry; proved to be that step of the state machine, from a reachable state to a reachable state |
| `BridgeRuntime.AsyncBridge.FlushLeftover` | `zcode-proxy-src/src/async/bridge.ts:373-386` | the leftover at end of body is dropped unless it ends a frame; proved to be that step of the state machine |
| `BridgeRuntime.AsyncBridge.BodyEnded` | `zcode-proxy-src/src/async/bridge.ts:373-389` | end of body; proved to be that step of the state machine, from a reachable state to a reachable state |
| `Solver.JobsSettleOnceInOrder` | `zcode-proxy-src/src/proxy/captcha-solver.ts:136-361` | the k-th settlement is job k, the job in flight is the next one and the queue holds exactly the rest, in submission order |
| `Solver.AccountsBalance` | `zcode-proxy-src/src/proxy/captcha-solver.ts:146-157` | solves + failures + admission refusals = settlements, each statistic equals the count of such verdicts, and `generation == recycles + (worker alive ? 1 : 0)` |
| `Solver.FlightHasItsWorker` | `zcode-proxy-src/src/proxy/captcha-solver.ts:137-141` | a job in flight implies a live worker of the same generation; a pending recycle implies a job in flight |
| `Solver.QuiescentMeansDrained` | `zcode-proxy-src/src/proxy/captcha-solver.ts:295-324` | with no pump pending and nothing in flight the queue is empty and no shutdown is owed |
| `Solver.VerdictsAreFinal` | `zcode-proxy-src/src/proxy/captcha-solver.ts:215-276` | settlements are only appended: no job is settled again or differently |
| `Solver.OnlyOwnWorkerSolves` | `zcode-proxy-src/src/proxy/captcha-solver.ts:179-183` | a token settles a job only when posted by the generation and under the id it was dispatched with |
| `Solver.TerminatedGenerationsAreMute` | `zcode-proxy-src/src/proxy/captcha-solver.ts:179-194` | whatever a terminated generation still posts, now or after any further run, changes nothing |
| `Solver.DeadlineEndsTheSolve` | `zcode-proxy-src/src/proxy/captcha-solver.ts:270-276` | the deadline terminates the worker and fails exactly the stuck job |
| `Solver.RequestsAbandonNothing` | `zcode-proxy-src/src/proxy/captcha-solver.ts:351-362` | neither a recycle request nor a shutdown touches queued or running jobs |
| `Solver.ShutdownWaitsForDrain` | `zcode-proxy-src/src/proxy/captcha-solver.ts:278-286` | a shutdown request is spent iff the event pumps, settles a result or asks for shutdown, and leaves nothing queued or in flight; then the worker is terminated and every job settled |
| `Solver.StepInv` | `zcode-proxy-src/src/proxy/captcha-solver.ts:136-361` | every callback keeps the invariant behind the results above |
| `SolverRuntime.CaptchaSolver.constructor` | `zcode-proxy-src/src/proxy/captcha-solver.ts:136-157` | the initial dispatcher; proved to be that step of the state machine |
| `SolverRuntime.CaptchaSolver.ArmIdleTimer` | `zcode-proxy-src/src/proxy/captcha-solver.ts:278-293` | owed shutdown, or the idle timer, or nothing; proved to be that step of the state machine |
| `SolverRuntime.CaptchaSolver.AdmitNext` | `zcode-proxy-src/src/proxy/captcha-solver.ts:297-321` | the head of the queue is refused, failed or put in flight; proved to be that step of the state machine |
| `SolverRuntime.CaptchaSolver.PumpQueue` | `zcode-proxy-src/src/proxy/captcha-solver.ts:295-324` | the whole admission loop, for any sequence of refusals and failures; proved to be that step of the state machine |
| `SolverRuntime.CaptchaSolver.RunCaptchaSolve` | `zcode-proxy-src/src/proxy/captcha-solver.ts:335-338` | submits and pumps; proved to be that step of the state machine, from a reachable state to a reachable state |
| `SolverRuntime.CaptchaSolver.RecycleReason` | `zcode-proxy-src/src/proxy/captcha-solver.ts:240-264` | the first reason that applies, in the source's order; proved to be that step of the state machine |
| `SolverRuntime.CaptchaSolver.OnWorkerResult` | `zcode-proxy-src/src/proxy/captcha-solver.ts:233-268` | one worker answer: settle, maybe recycle, pump later; proved to be that step of the state machine |
| `SolverRuntime.CaptchaSolver.OnMessage` | `zcode-proxy-src/src/proxy/captcha-solver.ts:179-183` | ignored unless posted by the live generation; proved to be that step of the state machine, from a reachable state to a reachable state |
| `CdnCache.StepRefines` | `zcode-proxy-src/src/proxy/captcha-cdn-cache.ts:64-172` | each step that is not the one failing family is a step of a plain map from URL to last published, not since invalidated entry; `get` answers nothing or exactly that entry with its original time and age below the TTL |
| `CdnCache.RunRefines` | `zcode-proxy-src/src/proxy/captcha-cdn-cache.ts:64-172` | the same over every run, under arbitrary disk write and unlink failures |
| `CdnCache.ClockStampedRuns` | `zcode-proxy-src/src/proxy/captcha-cdn-cache.ts:107-113` | when every `put` is stamped by the clock, every run refines the map: the failing family cannot occur |
| `CdnCache.PutFaithfulIff` | `zcode-proxy-src/src/proxy/captcha-cdn-cache.ts:107-113` | a `put` keeps the cache faithful iff it is not a failed disk write over a visible file more recent than its own time |
| `CdnCache.StaleFileResurfaces` | `zcode-proxy-src/src/proxy/captcha-cdn-cache.ts:138-172` | in that family a stale file is served after the memory entry expires: the concrete failure |
| `CdnCache.SupersededBy` | `zcode-proxy-src/src/proxy/captcha-cdn-cache.ts:93-113` | `invalidate` and `put` revoke the load in progress for their URL |
| `CdnCache.SupersededNeverPublishes` | `zcode-proxy-src/src/proxy/captcha-cdn-cache.ts:123-134` | a revoked load never publishes, whatever runs before it completes |
| `CdnCache.SingleFlight` | `zcode-proxy-src/src/proxy/captcha-cdn-cache.ts:115-136` | while a load is live no second fetch starts for its URL |
| `CdnCache.TokensStep` | `zcode-proxy-src/src/proxy/captcha-cdn-cache.ts:48-50` | every step keeps generation tokens and pending loads in step |
| `CdnCache.InitRefines` | `zcode-proxy-src/src/proxy/captcha-cdn-cache.ts:52-58` | the empty cache over any directory refines a map |
| `CdnCacheRuntime.CaptchaCdnCache.Read` | `zcode-proxy-src/src/proxy/captcha-cdn-cache.ts:69-91` | `get` with its deletion, tombstone and promotion; proved equal to the state function |
| `CdnCacheRuntime.CaptchaCdnCache.InvalidateUrl` | `zcode-proxy-src/src/proxy/captcha-cdn-cache.ts:93-104` | drops everything, leaves a tombstone when unlink is refused; proved equal to the state function |
| `CdnCacheRuntime.CaptchaCdnCache.Publish` | `zcode-proxy-src/src/proxy/captcha-cdn-cache.ts:138-172` | memory, then disk if it can be written; proved equal to the state function |
| `CdnCacheRuntime.CaptchaCdnCache.StartLoad` | `zcode-proxy-src/src/proxy/captcha-cdn-cache.ts:115-136` | hit, shared load, or a new one; proved equal to the state function |
| `CdnCacheRuntime.CaptchaCdnCache.FinishFetch` | `zcode-proxy-src/src/proxy/captcha-cdn-cache.ts:123-127` | publishes iff its token is still there; proved equal to the state function |
| `Rotator.SelectionComplete` | `zcode-proxy-src/src/auth/account-rotator.ts:267-291` | an account is returned iff some account is usable, not excluded by id or identity and has no quarantined alias |
| `Rotator.SelectionSound` | `zcode-proxy-src/src/auth/account-rotator.ts:189-207` | the returned handle names such an account and carries its credential, generations and identity |
| `Rotator.SelectionKeeps` | `zcode-proxy-src/src/auth/account-rotator.ts:292-303` | selection changes no credential, generation or live quarantine; only inference moves the sticky account |
| `Rotator.StickyIff` | `zcode-proxy-src/src/auth/account-rotator.ts:292-301` | an eligible active account is selected again iff no eligible alias of it comes earlier in the walk |
| `Rotator.StickyWhenDistinct` | `zcode-proxy-src/src/auth/account-rotator.ts:292-301` | with pairwise distinct effective identities the active account is kept while it is eligible |
| `Rotator.WalkIsBijective` | `zcode-proxy-src/src/auth/account-rotator.ts:283-284` | the cyclic walk visits every position exactly once, even when the cursor exceeds the pool |
| `Rotator.CandidatesExactly` | `zcode-proxy-src/src/auth/account-rotator.ts:280-290` | after k steps the candidates are exactly the first eligible account of each identity met |
| `Rotator.StepPool` | `zcode-proxy-src/src/auth/account-rotator.ts:210-245` | every operation keeps ids distinct and the pool consistent |
| `RotatorRuntime.AccountRotator.constructor` | `zcode-proxy-src/src/auth/account-rotator.ts:164-177` | profiles cloned in order; proved equal to the specification function |
| `RotatorRuntime.AccountRotator.IsUsableAt` | `zcode-proxy-src/src/auth/account-rotator.ts:189-207` | usability with lazy clearing of past reset markers; proved equal to the specification function |
| `RotatorRuntime.AccountRotator.BlockedIdentities` | `zcode-proxy-src/src/auth/account-rotator.ts:275-279` | identities of all quarantined accounts; proved equal to the specification function |
| `RotatorRuntime.AccountRotator.Search` | `zcode-proxy-src/src/auth/account-rotator.ts:280-290` | the whole walk: one candidate per identity; proved equal to the specification function |
| `RotatorRuntime.AccountRotator.GetCredentialHandle` | `zcode-proxy-src/src/auth/account-rotator.ts:267-314` | selection; proved equal to the specification function |
| `RotatorRuntime.AccountRotator.MergeAll` | `zcode-proxy-src/src/auth/account-rotator.ts:213-231` | store profiles merged over runtime ones; proved equal to the specification function |
| `RotatorRuntime.AccountRotator.SyncPool` | `zcode-proxy-src/src/auth/account-rotator.ts:210-245` | the merged pool, sticky account and cursor; proved equal to the specification function |
| `RotatorRuntime.AccountRotator.MarkAccount` | `zcode-proxy-src/src/auth/account-rotator.ts:387-413` | quarantine through an id or a current handle; proved equal to the specification function |
| `RotatorRuntime.AccountRotator.ClearAccount` | `zcode-proxy-src/src/auth/account-rotator.ts:416-428` | clears a failure; proved equal to the specification function |
| `RotatorRuntime.AccountRotator.ReplaceCredentialOf` | `zcode-proxy-src/src/auth/account-rotator.ts:431-446` | compare-and-set replacement; proved equal to the specification function |
| `RotatorRuntime.AccountRotator.MayResend` | `zcode-proxy-src/src/auth/account-rotator.ts:355-370` | the same-account resend check; proved equal to the specification function |
| `RotatorRuntime.AccountRotator.AliasInQuarantine` | `zcode-proxy-src/src/auth/account-rotator.ts:363-369` | a quarantined duplicate; proved equal to the specification function |
| `Handles.GenerationsNeverDecrease` | `zcode-proxy-src/src/auth/account-rotator.ts:210-245` | while an account stays in the pool its credential revision and both generations never decrease over any operations, and an unchanged revision means an unchanged credential |
| `Handles.StepLater` | `zcode-proxy-src/src/auth/account-rotator.ts:387-446` | the same for one operation |
| `Handles.StaleStaysStale` | `zcode-proxy-src/src/auth/account-rotator.ts:132-138` | a handle that became stale stays stale while its account stays, and marking through it changes nothing |
| `Handles.HandleMarksOnce` | `zcode-proxy-src/src/auth/account-rotator.ts:387-413` | however often one handle reports exhaustion while its account stays, it takes effect once |
| `Handles.MarkSpendsHandle` | `zcode-proxy-src/src/auth/account-rotator.ts:387-413` | marking quarantines the account, never shortens a reset, and spends the handle |
| `Handles.SelectedHandleIsCurrent` | `zcode-proxy-src/src/auth/account-rotator.ts:267-314` | a freshly selected handle passes the admission check |
| `Handles.RevivedIff` | `zcode-proxy-src/src/auth/account-rotator.ts:210-231` | a stale handle comes back to life by a step iff that step is a pool sync, the account is out of the pool, and some listed profile carries it with the credential and both generations the handle has |
| `Handles.StaleUntilReturn` | `zcode-proxy-src/src/auth/account-rotator.ts:210-231` | so over any run in which its account does not return to the pool a stale handle stays stale |
| `Handles.ReturningAccountRevivesHandle` | `zcode-proxy-src/src/auth/account-rotator.ts:210-231` | the run that does it: marked, removed, read back from the store |
| `Failover.HandleOpensOnce` | `zcode-proxy-src/src/auth/manager.ts:461-530` | after the report that opens a recovery no later report of that handle marks, opens or joins one while the account stays |
| `Failover.AnswersAvoidFailures` | `zcode-proxy-src/src/auth/manager.ts:497-522` | every handle returned avoids the failed id and identity and the attempted identities of the report it answers, and every quarantined identity |
| `Failover.AnswersAreComplete` | `zcode-proxy-src/src/auth/manager.ts:515-522` | the answer after the write is empty iff no other account is eligible |
| `Failover.LateReportsFailClosed` | `zcode-proxy-src/src/auth/manager.ts:498-499` | the states that earn a late report an answer are exactly those of accounts that are not paused, expired, invalid or out of policy |
| `Failover.JoinNeverTaken` | `zcode-proxy-src/src/auth/manager.ts:509-510` | over every run from no open recovery in which no account returns under one, the branch that joins an open recovery is never taken |
| `Failover.ReturnedAccountJoins` | `zcode-proxy-src/src/auth/manager.ts:509-510` | a return is enough to take it: report, leave, return from the store, report again |
| `Failover.AnswersSuitTheirCaller` | `zcode-proxy-src/src/auth/manager.ts:497-522` | over those runs nobody joins, and every handle given out avoids what its own caller reported and had tried |
| `Failover.ChainIsFresh` | `zcode-proxy-src/src/auth/manager.ts:518-521` | in a chain that accumulates identities no identity repeats |
| `Failover.ChainEnds` | `zcode-proxy-src/src/auth/manager.ts:518-521` | so the chain is no longer than the number of distinct identities |
| `Failover.ManagerRunsRotator` | `zcode-proxy-src/src/auth/manager.ts:511-523` | what the manager does to the rotator is an ordinary rotator run, so the rotator results apply |
| `Failover.RecoveriesStep` | `zcode-proxy-src/src/auth/manager.ts:524-528` | every step keeps that each open recovery names a handle that is already outdated, given that no account returns under an open recovery |
| `FailoverRuntime.AuthManager.SelectOther` | `zcode-proxy-src/src/auth/manager.ts:500-507` | selection that excludes the failed and the attempted; proved equal to the state function |
| `FailoverRuntime.AuthManager.RecoverFromAccountPool` | `zcode-proxy-src/src/auth/manager.ts:461-530` | refuse, answer late, join or open; proved equal to the state function |
| `FailoverRuntime.AuthManager.PersistFinished` | `zcode-proxy-src/src/auth/manager.ts:516-528` | answer and close; proved equal to the state function |
| `Persistence.SavedMeansWritten` | `zcode-proxy-src/src/auth/manager.ts:331-384` | whenever `unsaved` is false the last successful write used a snapshot holding every announced change |
| `Persistence.WriterOrTimer` | `zcode-proxy-src/src/auth/manager.ts:340-349` | at most one writer or one armed retry timer, never both |
| `Persistence.RetriesAreBounded` | `zcode-proxy-src/src/auth/manager.ts:386-400` | without a new announcement at most `delays.length` background retries run |
| `Persistence.UnsavedIsNeverForgotten` | `zcode-proxy-src/src/auth/manager.ts:376-383` | an unsaved change rests only on a reported failure or on an empty schedule |
| `Persistence.EmptyScheduleRests` | `zcode-proxy-src/src/auth/manager.ts:376-383` | with an empty schedule it can rest with no failure reported: the concrete run |
| `Persistence.QuietWriteSaves` | `zcode-proxy-src/src/auth/manager.ts:356-361` | a write no change overtook saves everything |
| `Persistence.WritesNeverGoBack` | `zcode-proxy-src/src/auth/manager.ts:352-384` | the written snapshot never goes back, over any run |
| `PersistenceRuntime.MetadataWriter.constructor` | `zcode-proxy-src/src/auth/manager.ts:78-84` | the initial writer; proved equal to the state function |
| `PersistenceRuntime.MetadataWriter.PersistAccounts` | `zcode-proxy-src/src/auth/manager.ts:331-350` | announce to the writer; proved equal to the state function |
| `PersistenceRuntime.MetadataWriter.SchedulePersistenceRetry` | `zcode-proxy-src/src/auth/manager.ts:386-400` | arms the next delay, if any is left; proved equal to the state function |
| `PersistenceRuntime.MetadataWriter.WriteSucceeded` | `zcode-proxy-src/src/auth/manager.ts:360-383` | next pass, background retry or done; proved equal to the state function |
| `PersistenceRuntime.MetadataWriter.WriteThrew` | `zcode-proxy-src/src/auth/manager.ts:362-375` | keeps the change, maybe retries; proved equal to the state function |
| `AccountStore.PersistKeeps` | `zcode-proxy-src/src/auth/runtime.ts:88-116` | a persist pass keeps account set, order, ids, credentials, plans and pauses, never lowers a generation or a time, and never changes a stored revision |
| `AccountStore.MergeIsJoin` | `zcode-proxy-src/src/auth/runtime.ts:101-115` | merged metadata is the least upper bound of store and snapshot |
| `AccountStore.PersistIdempotent` | `zcode-proxy-src/src/auth/runtime.ts:86-116` | applying one snapshot twice equals applying it once |
| `AccountStore.PassesCommuteIff` | `zcode-proxy-src/src/auth/runtime.ts:86-116` | two snapshots may be merged in either order, up to the failure label, iff not both would stamp an unstamped profile with different revisions |
| `AccountStore.PassesAreSupremum` | `zcode-proxy-src/src/auth/runtime.ts:86-119` | after any run of passes the stored metadata is the least that bounds the store and every snapshot taken under its login, where an unstamped profile takes the first stamp offered; login, plan and pause are untouched |
| `AccountStore.PassesAgreeIff` | `zcode-proxy-src/src/auth/runtime.ts:86-119` | two runs of passes over the same snapshots leave the same metadata iff they leave the profile under the same revision; always for a stamped profile |
| `AccountStore.ClearSurvivesIff` | `zcode-proxy-src/src/auth/runtime.ts:101-115` | a cleared quarantine survives a run of passes iff no snapshot of the same login merged in it still carries one |
| `AccountStore.ReplaceRaisesRevisionIff` | `zcode-proxy-src/src/auth/account-store.ts:626-634` | replacing an account raises the revision the runtime sees iff the prior one was positive or the new one is at least 2 |
| `AccountStore.LoginKeepsUserIff` | `zcode-proxy-src/src/auth/account-store.ts:573-602` | a verified login keeps the user id of the profile it refreshes iff it does not bring a blank one |
| `AccountStore.NewLoginIsFresh` | `zcode-proxy-src/src/auth/account-store.ts:603-608` | the automatic id of a new login is used by nobody |
| `AccountStore.FirstFreeFrom` | `zcode-proxy-src/src/auth/account-store.ts:604-605` | it carries the smallest free number, and the search ends |
| `AccountStore.MutationsKeepIdsDistinct` | `zcode-proxy-src/src/auth/account-store.ts:173-184` | every mutation that commits keeps ids distinct, a replacement by a list with an id twice being refused |
| `AccountStoreRuntime.Without` | `zcode-proxy-src/src/auth/account-store.ts:650` | the list without an id |
| `AccountStoreRuntime.MergeSnapshot` | `zcode-proxy-src/src/auth/runtime.ts:87-116` | the merge callback over the whole list |
| `AccountStoreRuntime.FindVerified` | `zcode-proxy-src/src/auth/account-store.ts:573-581` | the first verified match |
| `AccountStoreRuntime.FilterCandidates` | `zcode-proxy-src/src/auth/account-store.ts:583-588` | there is a candidate iff some profile may be the same user |
| `AccountStoreRuntime.FreeNumber` | `zcode-proxy-src/src/auth/account-store.ts:604-605` | counts to the smallest free number and terminates |
| `AccountStoreRuntime.StoreFile.PersistRuntime` | `zcode-proxy-src/src/auth/runtime.ts:86-119` | one merge commit; afterwards the file holds exactly the effect of that mutation under the next revision, or is untouched |
| `AccountStoreRuntime.ValidateAccounts` | `zcode-proxy-src/src/auth/account-store.ts:173-184` | a list is accepted iff its ids are distinct |
| `AccountStoreRuntime.StoreFile.SaveAccounts` | `zcode-proxy-src/src/auth/account-store.ts:528-538` | compare-and-swap replacement: a conflict, an invalid list, or the new list; afterwards the file holds exactly the effect of that mutation under the next revision, or is untouched |
| `AccountStoreRuntime.StoreFile.AddAccount` | `zcode-proxy-src/src/auth/account-store.ts:615-640` | add, replace or conflict; afterwards the file holds exactly the effect of that mutation under the next revision, or is untouched |
| `AccountStoreRuntime.StoreFile.RemoveAccount` | `zcode-proxy-src/src/auth/account-store.ts:643-655` | removes iff present; afterwards the file holds exactly the effect of that mutation under the next revision, or is untouched |
| `AccountStoreRuntime.StoreFile.RememberAccount` | `zcode-proxy-src/src/auth/account-store.ts:566-612` | refresh, add or refuse; afterwards the file holds exactly the effect of that mutation under the next revision, or is untouched |
| `AccountGroups.DuplicateCredentialGroups` | `zcode-proxy-src/src/auth/account-store.ts:199-212` | two accounts are reported together iff their credentials are equivalent; groups are disjoint, known and of two or more |
| `AccountGroups.SameIdentityGroups` | `zcode-proxy-src/src/auth/account-store.ts:222-235` | two accounts are reported together iff they name one user of one provider and plan whose credentials differ somewhere; groups are disjoint and known |
| `AccountGroups.EquivalentIff` | `zcode-proxy-src/src/auth/account-store.ts:187-196` | credentials are equivalent iff plan, provider, key, secret, login token and user id agree |
| `AccountGroups.SameUserIff` | `zcode-proxy-src/src/auth/account-store.ts:223-227` | two accounts name one user iff both claim the same one of one provider and plan |
| `StoreLock.CommitsAreSerial` | `zcode-proxy-src/src/auth/account-store.ts:545-561` | in a run without lock theft the store is what the committed mutations give one after another, and each commit raised the revision by exactly one |
| `StoreLock.LoginsKeepUsersUnderTheLock` | `zcode-proxy-src/src/auth/account-store.ts:566-612` | in such a run whose commits are logins and persist passes, no login bringing a blank user id, every account keeps its place, id, plan, pause, provider and user id |
| `StoreLock.MutualExclusion` | `zcode-proxy-src/src/auth/account-store.ts:345-391` | at most one process may still read or write the store, or remove the lock file |
| `StoreLock.StepKeepsIff` | `zcode-proxy-src/src/auth/account-store.ts:323-343` | a step keeps the locking discipline iff it does not remove a lock that a live process relies on: one that has locked, loaded, or is about to unlink |
| `StoreLock.StepInv` | `zcode-proxy-src/src/auth/account-store.ts:345-391` | every step without theft keeps lock, owner and loaded snapshot consistent |
| `StoreLock.UnchangedLockIsSafe` | `zcode-proxy-src/src/auth/account-store.ts:330-340` | a recovery whose lock file is still the inspected one steals nothing |
| `StoreLock.AtomicRecoveryStealsNothing` | `zcode-proxy-src/src/auth/account-store.ts:330-340` | no theft in any run where each rename directly follows its inspection and nobody forces the lock |
| `StoreLock.LivingOwnersStealNothing` | `zcode-proxy-src/src/auth/account-store.ts:273-291` | no theft in any run where recorded owners stay alive, however steps interleave |
| `StoreLock.DeadLockIsRecovered` | `zcode-proxy-src/src/auth/account-store.ts:355-376` | the lock of a crashed process is recovered by the next one |
| `StoreLock.SameRevisionSameStore` | `zcode-proxy-src/src/auth/runtime.ts:69-79` | equal revisions mean equal contents and no commit in between: the refresh test and compare-and-swap are sound |
| `StoreLock.CasNeverOverwrites` | `zcode-proxy-src/src/auth/account-store.ts:528-538` | a compare-and-swap write commits iff its disk write succeeds, the revision is the one its caller read and its ids are distinct |
| `StoreLock.TheftCanLoseAnUpdate` | `zcode-proxy-src/src/auth/account-store.ts:333-340` | from any state of a serial run, if the lock is stolen from a process that will still commit or unlink, then whatever mutation another one makes, some continuation loses one of two commits |
| `StoreLock.TheftLosesAnUpdate` | `zcode-proxy-src/src/auth/account-store.ts:333-338` | the re-read and the rename are two steps: a run from the start, for any store and mutations, that loses the first of two commits |
| `PoolRefresh.ObservedIsSynced` | `zcode-proxy-src/src/auth/runtime.ts:67-79` | the observed revision always names the pool the rotator was given last |
| `PoolRefresh.RefreshCatchesUp` | `zcode-proxy-src/src/auth/runtime.ts:69-79` | after a refresh the rotator holds the pool that was read, no older than the store was when the refresh began, also when the hand-over was skipped |
| `PoolRefresh.QuietRefreshIsCurrent` | `zcode-proxy-src/src/auth/runtime.ts:69-79` | a refresh that nothing overlaps leaves the rotator with the newest pool |
| `PoolRefresh.GoesBackIffOverlapped` | `zcode-proxy-src/src/auth/runtime.ts:71-118` | after any run, a step takes the rotator back to an older pool iff it ends an overlap: the hand-over of a refresh since whose read a write was committed and returned, or the return of a write since whose commit a refresh read and handed over another process's commit |
| `PoolRefresh.WithoutOverlapsNeverGoesBack` | `zcode-proxy-src/src/auth/runtime.ts:71-118` | over any stretch of a run in which no overlap ends, the observed revision never falls |
| `PoolRefresh.OverlappedRefreshGoesBack` | `zcode-proxy-src/src/auth/runtime.ts:71-118` | the run of the first kind |
| `PoolRefresh.OverlappedWriteGoesBack` | `zcode-proxy-src/src/auth/runtime.ts:71-118` | the run of the second kind |
| `PoolRefreshRuntime.PoolFollower.ApplySnapshot` | `zcode-proxy-src/src/auth/runtime.ts:73-78` | syncs iff the revision changed; proved equal to the state function |
| `PoolRefreshRuntime.PoolFollower.PersistReturned` | `zcode-proxy-src/src/auth/runtime.ts:117-118` | syncs what was written; proved equal to the state function |
| `TokenBank.StepInv` | `zcode-proxy-src/src/proxy/captcha-pool.ts:160-534` | every section keeps banked ids distinct, sizes within limits and every recent issue recorded |
| `TokenBank.BankedIdsDistinct` | `zcode-proxy-src/src/proxy/captcha-pool.ts:361-369` | in every reachable state no two banked tokens share a certify id |
| `TokenBank.BankWithinMax` | `zcode-proxy-src/src/proxy/captcha-pool.ts:463-483` | target and bank never exceed `poolSizeMax`, but for the one token that trimming keeps over a maximum of zero |
| `TokenBank.OneTokenOverZeroMax` | `zcode-proxy-src/src/proxy/captcha-pool.ts:463-471` | the run that leaves that token |
| `TokenBank.ServedAgainIff` | `zcode-proxy-src/src/proxy/captcha-pool.ts:339-348` | serving any mint, checked or not, issues an id again within the lifetime iff that id was issued within it |
| `TokenBank.CheckCatchesReissue` | `zcode-proxy-src/src/proxy/captcha-pool.ts:339-343` | and nothing issued within the lifetime passes the duplicate check |
| `TokenBank.StepIssuesOnce` | `zcode-proxy-src/src/proxy/captcha-pool.ts:345-369` | so no section issues an id twice |
| `TokenBank.IssuedOnceWithinTtl` | `zcode-proxy-src/src/proxy/captcha-pool.ts:306-369` | over every run no id is issued twice within the lifetime, whatever the solver returns and however the lifetime is reconfigured |
| `TokenBank.ServedTokensAreFresh` | `zcode-proxy-src/src/proxy/captcha-pool.ts:350-359` | a token served from the bank is younger than the TTL |
| `TokenBank.PopFacts` | `zcode-proxy-src/src/proxy/captcha-pool.ts:350-359` | a pop returns the newest token whose id is not recorded, records it, and had discarded only recorded ones |
| `TokenBank.IdleDrainsToZero` | `zcode-proxy-src/src/proxy/captcha-pool.ts:421-454` | after long idleness each refill tick lowers the target by twenty, to zero |
| `TokenBank.Resolve` | `zcode-proxy-src/src/proxy/captcha-pool.ts:138-158` | resolved options are consistent whatever was asked for |
| `TokenBankRuntime.CertifyIdRegistry.Prune` | `zcode-proxy-src/src/proxy/captcha-pool.ts:56-61` | drops exactly the entries older than the TTL; proved equal to the state function |
| `TokenBankRuntime.CaptchaTokenPool.PruneExpired` | `zcode-proxy-src/src/proxy/captcha-pool.ts:371-374` | keeps the unexpired tokens; proved equal to the state function |
| `TokenBankRuntime.CaptchaTokenPool.Configure` | `zcode-proxy-src/src/proxy/captcha-pool.ts:187-196` | new limits, clamped target, trimmed bank; proved equal to the state function |
| `TokenBankRuntime.CaptchaTokenPool.TrimTokens` | `zcode-proxy-src/src/proxy/captcha-pool.ts:463-471` | drops the oldest down to the target but never the last; proved equal to the state function |
| `TokenBankRuntime.CaptchaTokenPool.TakeFresh` | `zcode-proxy-src/src/proxy/captcha-pool.ts:350-359` | the pop loop; proved equal to the state function |
| `TokenBankRuntime.CaptchaTokenPool.PoolHasCertifyId` | `zcode-proxy-src/src/proxy/captcha-pool.ts:335-337` | found iff banked; proved equal to the state function |
| `TokenBankRuntime.CaptchaTokenPool.CheckDuplicate` | `zcode-proxy-src/src/proxy/captcha-pool.ts:339-343` | duplicate iff recorded or banked; proved equal to the state function |
| `TokenBankRuntime.CaptchaTokenPool.Push` | `zcode-proxy-src/src/proxy/captcha-pool.ts:361-369` | banks unless full or duplicate; proved equal to the state function |
| `TokenBankRuntime.CaptchaTokenPool.ComputeActiveTarget` | `zcode-proxy-src/src/proxy/captcha-pool.ts:400-410` | the demand-driven target; proved equal to the state function |
| `TokenBankRuntime.CaptchaTokenPool.TakeToken` | `zcode-proxy-src/src/proxy/captcha-pool.ts:249-271` | the first section of a take; proved equal to the state function |
| `TokenBankRuntime.CaptchaTokenPool.SolveServed` | `zcode-proxy-src/src/proxy/captcha-pool.ts:306-308` | a mint for a waiting request: checked, then marked and served; proved equal to the state function |
| `TokenBankRuntime.CaptchaTokenPool.SolveReturned` | `zcode-proxy-src/src/proxy/captcha-pool.ts:657-664` | a mint for the bank: the duplicate check; proved equal to the state function |
| `TokenBankRuntime.CaptchaTokenPool.ScaleDown` | `zcode-proxy-src/src/proxy/captcha-pool.ts:421-439` | one idle step down; proved equal to the state function |
| `TokenBankRuntime.CaptchaTokenPool.RefillSize` | `zcode-proxy-src/src/proxy/captcha-pool.ts:490-496` | sizing of a refill tick; proved equal to the state function |
| `MintStorm.StormStartsIff` | `zcode-proxy-src/src/proxy/captcha-pool.ts:566-591` | a storm starts iff a noted failure leaves at least five attempts in the window with fewer than a fifth successful; first backoff one minute |
| `MintStorm.StormEndsIff` | `zcode-proxy-src/src/proxy/captcha-pool.ts:605-626` | a storm ends iff its probe succeeded, and the window is cleared |
| `MintStorm.OnlyTheProbeMints` | `zcode-proxy-src/src/proxy/captcha-pool.ts:642-651` | every mint admitted during a storm is its probe, started no earlier than the deadline |
| `MintStorm.OneProbeAtATime` | `zcode-proxy-src/src/proxy/captcha-pool.ts:605-626` | while a probe is out no second starts and its storm is still the current one |
| `MintStorm.BackoffsGrow` | `zcode-proxy-src/src/proxy/captcha-pool.ts:751-753` | backoffs never shrink with the level and stay between one and ten minutes |
| `MintStorm.DeadlineMovesIff` | `zcode-proxy-src/src/proxy/captcha-pool.ts:615-622` | a deadline moves iff the probe failed: one level up, one backoff from then, never earlier |
| `MintStorm.NextTickProbes` | `zcode-proxy-src/src/proxy/captcha-pool.ts:505-509` | after a failed probe the next tick past the deadline starts another: the breaker cannot get stuck |
| `MintStorm.SolvesAreCounted` | `zcode-proxy-src/src/proxy/captcha-pool.ts:628-687` | `activeSolves` is exactly the number of suspended solves, so zero when none is pending |
| `MintStorm.WindowIsRecent` | `zcode-proxy-src/src/proxy/captcha-pool.ts:573-576` | dropping from the front keeps exactly the outcomes of the last ten minutes |
| `MintStorm.AttemptsAreBounded` | `zcode-proxy-src/src/proxy/captcha-pool.ts:637` | one solve makes at most its number of attempts |
| `MintStorm.PauseMovesIff` | `zcode-proxy-src/src/proxy/captcha-pool.ts:646-683` | the pause moves iff a later pause is ordered, or a solve or probe that was refused for the pause or answered with a rate limit settles while the pause has less than five minutes left |
| `MintStorm.PauseEndsWhenSet` | `zcode-proxy-src/src/proxy/captcha-pool.ts:646-683` | once no solve or probe is queued, a pause ends when set over any run without a new limit |
| `MintStorm.RefusalProlongsPause` | `zcode-proxy-src/src/proxy/captcha-pool.ts:646-683` | whichever job comes next, and whenever its turn comes during the pause: the mint in flight returns, the job is refused, and the pause then ends five minutes from that moment or where it ended, whichever is later |
| `MintStorm.UnsettledPauseMoves` | `zcode-proxy-src/src/proxy/captcha-pool.ts:646-683` | so the condition is exact: unless nothing is left that would refuse itself, some run without a new limit moves the pause |
| `MintStorm.QueuedSolveProlongsPause` | `zcode-proxy-src/src/proxy/captcha-pool.ts:646-678` | from the start: a solve that waited behind a mint in flight when a pause began prolongs it: its refusal is filed as a rate limit |
| `MintStorm.AtMostOneMint` | `zcode-proxy-src/src/proxy/captcha-solver.ts:295-324` | in every run at most one mint, solve or probe, is in flight |
| `MintStorm.StepInv` | `zcode-proxy-src/src/proxy/captcha-pool.ts:566-687` | every section keeps the invariant behind the results above |
| `MintStormRuntime.MintBreaker.StormBackoff` | `zcode-proxy-src/src/proxy/captcha-pool.ts:751-753` | capped doubling; proved equal to the state function |
| `MintStormRuntime.MintBreaker.PruneMintOutcomes` | `zcode-proxy-src/src/proxy/captcha-pool.ts:573-576` | drops the front of the window; proved equal to the state function |
| `MintStormRuntime.MintBreaker.CountOk` | `zcode-proxy-src/src/proxy/captcha-pool.ts:582` | successes in the window; proved equal to the state function |
| `MintStormRuntime.MintBreaker.NoteMintOutcome` | `zcode-proxy-src/src/proxy/captcha-pool.ts:566-571` | records and maybe starts a storm; proved equal to the state function |
| `MintStormRuntime.MintBreaker.MaybeEnterStorm` | `zcode-proxy-src/src/proxy/captcha-pool.ts:586-591` | starts one iff degraded; proved equal to the state function |
| `MintStormRuntime.MintBreaker.SolveFresh` | `zcode-proxy-src/src/proxy/captcha-pool.ts:628-646` | up to the first await; proved equal to the state function |
| `MintStormRuntime.MintBreaker.SolveSettled` | `zcode-proxy-src/src/proxy/captcha-pool.ts:652-683` | one round of the retry loop; proved equal to the state function |
| `MintStormRuntime.MintBreaker.ProbeSettled` | `zcode-proxy-src/src/proxy/captcha-pool.ts:652-683` | its single attempt; proved equal to the state function |
| `MintStormRuntime.MintBreaker.ProbeReturned` | `zcode-proxy-src/src/proxy/captcha-pool.ts:611-625` | resume or back off; proved equal to the state function |
| `CanonicalJson.CanonicalIff` | `zcode-proxy-src/src/proxy/client-session.ts:259-264` | on values whose numbers print as themselves, texts are equal iff the values differ in key order only (JSON: sections 4, 5 and 7 of RFC 8259) |
| `CanonicalJson.PrintsAlikeIff` | `zcode-proxy-src/src/proxy/client-session.ts:259-264` | on every parsed value, texts are equal iff the values agree up to key order once -0 is read as 0 and an overflowed number as null |
| `CanonicalJson.OverflowPrintsAsNull` | `zcode-proxy-src/src/proxy/client-session.ts:260` | the two collisions that make the naive claim false |
| `CanonicalJson.Readable` | `zcode-proxy-src/src/proxy/client-session.ts:259-264` | a text is the text of one value only, wherever it stands in a larger text |
| `CanonicalJson.QuoteRoundTrip` | `zcode-proxy-src/src/proxy/client-session.ts:260-263` | reading a quoted string back gives the string, lone surrogates and escapes included |
| `CanonicalJson.SortSorts` | `zcode-proxy-src/src/proxy/client-session.ts:263` | sorting keys orders them by code unit and loses nothing |
| `Lineage.NodeKeyIff` | `zcode-proxy-src/src/proxy/client-session.ts:205-229` | two requests share a node iff they are alike up to key order |
| `Lineage.ParentKeyIff` | `zcode-proxy-src/src/proxy/client-session.ts:231-239` | a request finds `p` as its parent iff it repeats `p` and appends two messages, neither from the developer |
| `Lineage.IdentityIff` | `zcode-proxy-src/src/proxy/client-session.ts:219-227` | identity objects have one key iff all their parts are alike |
| `SessionTable.NodesHaveSessions` | `zcode-proxy-src/src/proxy/client-session.ts:53-58` | in every run each node points to a session in the table, under its upstream id, seen no earlier than the node |
| `SessionTable.TableIsBounded` | `zcode-proxy-src/src/proxy/client-session.ts:68-82` | the table never exceeds `maxSessions` after a call |
| `SessionTable.ResolveInv` | `zcode-proxy-src/src/proxy/client-session.ts:90-119` | every resolve keeps the table coherent |
| `SessionTable.PruneInv` | `zcode-proxy-src/src/proxy/client-session.ts:60-83` | pruning removes nodes with their sessions and leaves the table coherent and within its size |
| `SessionTable.FollowUpIff` | `zcode-proxy-src/src/proxy/client-session.ts:103-118` | a request that repeats a stored one and appends two messages gets that one's upstream session iff it is itself stored, unexpired, under that session, or it is not stored and appends no developer message |
| `SessionTable.FollowUpSharesSession` | `zcode-proxy-src/src/proxy/client-session.ts:90-119` | the same after any run in which a conversation and other clients' calls interleave: the next follow-up is sent under the conversation's session iff it continues it in the table it finds |
| `SessionTable.StoredFollowUpStaysApart` | `zcode-proxy-src/src/proxy/client-session.ts:103-108` | the run in which a follow-up was stored first under its own session, and stays there after the request it follows has been stored |
| `SessionTable.AnyCallKeeps` | `zcode-proxy-src/src/proxy/client-session.ts:53-83` | a call by anybody leaves an unexpired node in its session while the table has room |
| `SessionTable.ConversationKeepsSession` | `zcode-proxy-src/src/proxy/client-session.ts:90-119` | a whole conversation, each request a retry of the last or an ordinary follow-up of it within the lifetime, is sent under the session of its first request, whoever else calls in between while the table has room |
| `SessionTable.KnownSessionSurvives` | `zcode-proxy-src/src/proxy/client-session.ts:53-83` | storing under a session that is already there evicts nobody |
| `SessionTable.NoOtherParent` | `zcode-proxy-src/src/proxy/client-session.ts:231-239` | a request that appends a developer message finds no parent at all |
| `SessionTable.RememberedSurvives` | `zcode-proxy-src/src/proxy/client-session.ts:68-82` | a session just remembered survives pruning when there is room or every other session is strictly older |
| `SessionTableRuntime.ClientSessionResolver.Oldest` | `zcode-proxy-src/src/proxy/client-session.ts:69-76` | a session none is older than |
| `SessionTableRuntime.ClientSessionResolver.Evict` | `zcode-proxy-src/src/proxy/client-session.ts:68-82` | evicts oldest first down to the limit |
| `SessionTableRuntime.ClientSessionResolver.Prune` | `zcode-proxy-src/src/proxy/client-session.ts:60-83` | expiry, then eviction |
| `SessionTableRuntime.ClientSessionResolver.Remember` | `zcode-proxy-src/src/proxy/client-session.ts:53-58` | stores node and session, then prunes |
| `SessionTableRuntime.ClientSessionResolver.FindLinearParent` | `zcode-proxy-src/src/proxy/client-session.ts:231-239` | the parent node, if stored |
| `SessionTableRuntime.ClientSessionResolver.Resolve` | `zcode-proxy-src/src/proxy/client-session.ts:90-119` | the whole resolution |
| `BatchFold.RebuildUndoesEncoding` | `zcode-proxy-src/src/async/handler.ts:407-508` | for any list of text, thinking and tool blocks, any cuts into deltas and any other events between, the rebuilt content is the closed blocks in order |
| `BatchFold.RebuiltIff` | `zcode-proxy-src/src/async/handler.ts:502` | a batch is rebuilt iff a start and a stop arrived and no error did |
| `BatchFold.CuttingDoesNotMatter` | `zcode-proxy-src/src/async/handler.ts:454-467` | two ways of cutting the same blocks give the same content |
| `BatchFold.PlanFolds` | `zcode-proxy-src/src/async/handler.ts:443-482` | one block's events append that block if it is closed and nothing otherwise |
| `BatchFold.ContentNeedsBlockEvents` | `zcode-proxy-src/src/async/handler.ts:436-499` | pings, unknown types and message events do not influence the content |
| `BatchFold.FieldIsLastSaid` | `zcode-proxy-src/src/async/handler.ts:483-506` | every field but usage and content is what the stream said last since its last start; what it says of content is dropped for the rebuilt blocks; stop reason and role are never empty |
| `BatchFold.UsageIsLastSaid` | `zcode-proxy-src/src/async/handler.ts:483-506` | usage is always present and truthy: under every key the count last said, over the usage field last said as a whole or zeros; a field that is no record of counts stands if nothing was counted on top of it |
| `BatchFoldRuntime.ReconstructAnthropicBatch` | `zcode-proxy-src/src/async/handler.ts:407-508` | the loop computes the fold |
| `Signing.LadderIsShort` | `zcode-proxy-src/src/proxy/client-signing.ts:558-578` | a request makes at most three sends; a third is unsigned and follows two signed rejections |
| `Signing.BypassIff` | `zcode-proxy-src/src/proxy/client-signing.ts:575` | signing is bypassed iff some request was rejected twice while signed |
| `Signing.BypassIsForGood` | `zcode-proxy-src/src/proxy/client-signing.ts:388-398` | nothing resets the bypass |
| `Signing.NeverSignsOnceBypassed` | `zcode-proxy-src/src/proxy/client-signing.ts:283-285` | a signing call that begins after the bypass never signs |
| `Signing.SignsAfterBypassIff` | `zcode-proxy-src/src/proxy/client-signing.ts:272-311` | in a bypassed reachable state a request can still be sent signed iff it is being sent so or its call is under way on a handshake not overtaken |
| `Signing.EarlierCallStillSigns` | `zcode-proxy-src/src/proxy/client-signing.ts:283-310` | a run from the start to such a state |
| `Signing.InstalledIff` | `zcode-proxy-src/src/proxy/client-signing.ts:494-498` | a key is installed iff its handshake succeeds in the epoch it began in |
| `Signing.KeyIsCurrent` | `zcode-proxy-src/src/proxy/client-signing.ts:491-505` | the cached key always belongs to the current epoch |
| `Signing.StaleKeyIsNeverUsed` | `zcode-proxy-src/src/proxy/client-signing.ts:485-505` | the key of a handshake overtaken by an invalidation is never installed or handed out, in any later run |
| `Signing.OvertakesIff` | `zcode-proxy-src/src/proxy/client-signing.ts:302-308` | a step overtakes the running handshake iff it is its own failure, a rejected signed send, or a waiter resuming on a failed handshake |
| `Signing.UndisturbedHandshakeInstalls` | `zcode-proxy-src/src/proxy/client-signing.ts:485-505` | a handshake nothing overtakes installs its key, after any run |
| `Signing.LateFailureOvertakesNewHandshake` | `zcode-proxy-src/src/proxy/client-signing.ts:302-308` | a run from the start in which a late waiter overtakes a newer handshake |
| `Signing.StepInv` | `zcode-proxy-src/src/proxy/client-signing.ts:272-311` | every section keeps the invariant behind the results above |
| `Signing.ParsedIff` | `zcode-proxy-src/src/proxy/client-signing.ts:204-211` | a credential is accepted iff it is two non-blank, dot-free parts around one dot |
| `SigningRuntime.HasLeadingZeroBits` | `zcode-proxy-src/src/proxy/client-signing.ts:178-187` | true iff the first `bits` bits are there and zero; missing bytes count as ones |
| `SigningRuntime.ParseSigningCredential` | `zcode-proxy-src/src/proxy/client-signing.ts:204-211` | exactly the accepted credentials, as key id and secret |
| `SigningRuntime.ClientSigner.constructor` | `zcode-proxy-src/src/proxy/client-signing.ts:408-415` | a pair nobody has signed for: epoch zero, no key, no bypass; proved equal to the state function of that section |
| `SigningRuntime.ClientSigner.EnsurePrivateKey` | `zcode-proxy-src/src/proxy/client-signing.ts:485-505` | cached key, shared handshake or a new one; proved equal to the state function of that section |
| `SigningRuntime.ClientSigner.HandshakeDone` | `zcode-proxy-src/src/proxy/client-signing.ts:494-502` | install if the epoch is unchanged, clear the promise; proved equal to the state function of that section |
| `SigningRuntime.ClientSigner.KeyAwaited` | `zcode-proxy-src/src/proxy/client-signing.ts:301-308` | key, or invalidate and send unsigned; proved equal to the state function of that section |
| `SigningRuntime.ClientSigner.SendAnswered` | `zcode-proxy-src/src/proxy/client-signing.ts:566-577` | one rung of the ladder; proved equal to the state function of that section |
| `BridgeDecisions.PollDecides` | `zcode-proxy-src/src/async/bridge.ts:122-145` | a poll answer starts the fetch iff the first ticket is ready or active; it sleeps iff that is queued, out the wait budget iff the next poll would come too late; anything else is a timeout iff the budget has passed, and otherwise settles the ticket and retakes iff `attempt + 1 <= maxRetries`, else reports exhausted retries |
| `BridgeDecisions.PollFailureDecides` | `zcode-proxy-src/src/async/bridge.ts:155-171` | a failed poll is repeated after a backoff, and the third in a row is an internal error |
| `BridgeDecisions.WakeDecides` | `zcode-proxy-src/src/async/bridge.ts:140-169` | what each sleep leads to when it is over: poll again, with failures remembered after a backoff, or a timeout |
| `BridgeDecisions.KeepaliveWhileWaiting` | `zcode-proxy-src/src/async/bridge.ts:211-224` | in every run a keepalive that is due is sent iff the bridge waits for its ticket |
| `BridgeDecisions.TakeDecides` | `zcode-proxy-src/src/async/bridge.ts:277-285` | a retaken ticket is fetched iff ready or active, else polled with keepalives; a refused retake ends the bridge |
| `BridgeDecisions.StartDecides` | `zcode-proxy-src/src/async/bridge.ts:226-247` | how a bridge starts: fetch, poll, or an abort that settles the ticket |
| `BridgeDecisions.ResponseDecides` | `zcode-proxy-src/src/async/bridge.ts:292-365` | a response streams from an empty buffer, and an error status reads its body first |
| `BridgeDecisions.LateResponseIsCancelled` | `zcode-proxy-src/src/async/bridge.ts:357-371` | a response that comes after an abort is not read: its reader is cancelled |
| `BridgeDecisions.EmptyBodyDecides` | `zcode-proxy-src/src/async/bridge.ts:475-478` | a response without a body is done |
| `BridgeDecisions.FetchFailureDecides` | `zcode-proxy-src/src/async/bridge.ts:298-308` | a failed fetch settles the ticket and reports a network error |
| `BridgeDecisions.ErrorBodyDecides` | `zcode-proxy-src/src/async/bridge.ts:309-335` | an error response uses the ticket up iff its body carries the marker, else its status is reported |
| `BridgeDecisions.StreamingIsUpToDate` | `zcode-proxy-src/src/async/bridge.ts:357-431` | while streaming, exactly the complete frames of what was received have been forwarded, none of them marked |
| `BridgeDecisions.ChunkDecides` | `zcode-proxy-src/src/async/bridge.ts:390-430` | a chunk over the cap stops the reader; otherwise every frame it completes before the first marked one is forwarded, and the reader stops iff one is marked |
| `BridgeDecisions.EndDecides` | `zcode-proxy-src/src/async/bridge.ts:373-389` | the end of the body is `done` iff no marker is left over, else the stream has expired: retake before output, error after it |
| `BridgeDecisions.ReadFailureEnds` | `zcode-proxy-src/src/async/bridge.ts:480-485` | a failing read settles the ticket and reports an internal error |
| `BridgeDecisions.StopDecides` | `zcode-proxy-src/src/async/bridge.ts:396-401` | a stopped reader reports the cap, or treats the stream as expired: retake before output, error after it |
| `BridgeDecisions.WholeBodyArrives` | `zcode-proxy-src/src/async/bridge.ts:226-478` | end to end: with a ready ticket and a body that has no marker and trips no cap, the client gets exactly the frames of the body, however it is chunked, and the outcome is `done` |
| `SolverVerdicts.AnswerSettlesTheJob` | `zcode-proxy-src/src/proxy/captcha-solver.ts:233-259` | a result posted by the live generation under the id in flight appends exactly that job: solved with that token if there is one, failed otherwise |
| `SolverVerdicts.CountersCount` | `zcode-proxy-src/src/proxy/captcha-solver.ts:215-259` | in every run `consecutiveFailures` is the length of the run of failures that ends the settlements, and a live worker's counters are the jobs it was given since its spawn and the failures that end them |
| `SolverVerdicts.ResultRecyclesIff` | `zcode-proxy-src/src/proxy/captcha-solver.ts:240-268` | a result recycles its worker iff a shutdown is owed and nothing waits, a recycle is pending, cleanup failed, the token was invalid, it has failed too often in a row, has had too many jobs, or its heap is too big; the first that applies is recorded |
| `SolverVerdicts.DeathFailsTheSolve` | `zcode-proxy-src/src/proxy/captcha-solver.ts:184-224` | a fault, error or exit of the live worker ends it and fails exactly the job in flight |
| `SolverVerdicts.RequestRecyclesIff` | `zcode-proxy-src/src/proxy/captcha-solver.ts:352-356` | a requested recycle waits for the job in flight, the first request counting, and ends an idle worker at once |
| `SolverVerdicts.OtherSolvesAreIgnored` | `zcode-proxy-src/src/proxy/captcha-solver.ts:230-276` | deadlines and results of other solves change nothing |
| `SolverVerdicts.IdleWorkerEnds` | `zcode-proxy-src/src/proxy/captcha-solver.ts:288-291` | the idle timer ends the worker iff nothing is queued |
| `SolverVerdicts.IdleTimerRunsIff` | `zcode-proxy-src/src/proxy/captcha-solver.ts:278-293` | after every look at the queue the idle timer runs iff a live worker has nothing to do, and a look that finds nothing keeps the worker unless a shutdown is owed |
| `SolverVerdicts.PumpTakesTheNext` | `zcode-proxy-src/src/proxy/captcha-solver.ts:295-324` | a pump refuses or fails jobs in order exactly as admission, spawning and dispatching say, and puts the first other one in flight on the live worker, a new one iff there is none |
| `CdnCache.ReadAnswers` | `zcode-proxy-src/src/proxy/captcha-cdn-cache.ts:64-91` | in every run a read answers from memory iff that is young, else from a readable, intact, young file no tombstone hides, and else misses; a load starts with the same read |
| `CdnCache.PublishedIsServed` | `zcode-proxy-src/src/proxy/captcha-cdn-cache.ts:107-136` | what was published is served by every read and load until its lifetime has passed, though all disk operations fail, after any run that neither publishes nor invalidates it again |
| `CdnCache.PublishedSurvivesRestart` | `zcode-proxy-src/src/proxy/captcha-cdn-cache.ts:138-172` | if its file was written, a new process over the directory serves the same bytes with their time |
| `CdnCache.StoresIff` | `zcode-proxy-src/src/proxy/captcha-cdn-cache.ts:138-140` | a publication is stored iff it is not empty, expired or from the future |
| `CdnCache.InvalidatedIsGone` | `zcode-proxy-src/src/proxy/captcha-cdn-cache.ts:93-104` | what was invalidated is not served until it is published again, nor by a new process unless the unlink was refused |
| `Quarantine.EligibleIff` | `zcode-proxy-src/src/auth/account-rotator.ts:179-207` | who may serve a request, spelled out: valid, allowed, not paused, with a login where needed, of the plan and provider, paid for, not expired, not excluded, no alias in quarantine |
| `Quarantine.FirstInTheWalkServes` | `zcode-proxy-src/src/auth/account-rotator.ts:280-295` | without a sticky account on offer the first eligible account of the cyclic walk from the cursor serves |
| `Quarantine.SelectionStamps` | `zcode-proxy-src/src/auth/account-rotator.ts:280-303` | a selection clears the past reset marker of every usable account, stamps the one it serves, and makes that sticky iff it infers; nothing else changes |
| `Quarantine.CheckInspects` | `zcode-proxy-src/src/auth/account-rotator.ts:202-206` | a check of one account clears its past marker iff it is usable, and touches no other |
| `Quarantine.SyncMakesThePool` | `zcode-proxy-src/src/auth/account-rotator.ts:213-231` | a sync leaves exactly the stored accounts in order: under the credential known, every time is the later of both sides and every generation the higher; under a new one all comes from the store and every generation moves on |
| `Quarantine.StickySurvivesIff` | `zcode-proxy-src/src/auth/account-rotator.ts:233-255` | the sticky account survives a sync or a policy edit iff it is still there and usable |
| `Quarantine.MarkMeans` | `zcode-proxy-src/src/auth/account-rotator.ts:387-413` | a mark quarantines until the later of the old reset and the one given, or a cooldown doubled up to four times and capped at fifteen minutes; nobody else changes |
| `Quarantine.ClearMeans` | `zcode-proxy-src/src/auth/account-rotator.ts:416-428` | a clear removes the marks and moves the failure generation on iff there were any |
| `Quarantine.StaleTargetChangesNothing` | `zcode-proxy-src/src/auth/account-rotator.ts:389-391` | an unknown id or a stale handle marks and clears nothing |
| `Quarantine.ReplaceMeans` | `zcode-proxy-src/src/auth/account-rotator.ts:431-446` | a credential is replaced iff the account is there, the new one is valid and different and the revision is the expected one; the account then starts afresh |
| `Quarantine.ResendIff` | `zcode-proxy-src/src/auth/account-rotator.ts:347-370` | a resend is allowed iff credential, revision and identity are the handle's, the account is usable and no other alias is in quarantine |
| `Quarantine.CurrentIff` | `zcode-proxy-src/src/auth/account-rotator.ts:372-376` | a handle is admitted iff it is current and its account usable |
| `Quarantine.MarkedIsNotServed` | `zcode-proxy-src/src/auth/account-rotator.ts:387-413` | an account marked until a time, and every alias of it, is not selected before it by any run of syncs, selections, policy edits, checks and marks in which it stays under its credential and is neither cleared nor replaced |
| `FailoverDecisions.ReportDecides` | `zcode-proxy-src/src/auth/manager.ts:461-530` | a report counts only with a quota code; with a current handle it joins the open recovery or marks and opens one; with a stale one it is answered iff its account is in service, and refused otherwise |
| `FailoverDecisions.WriteDecides` | `zcode-proxy-src/src/auth/manager.ts:515-528` | a finished write closes its recovery and answers it from the other accounts |
| `FailoverDecisions.InServiceIff` | `zcode-proxy-src/src/auth/manager.ts:498-499` | the listed states that earn an answer, spelled out |
| `PersistenceDecisions.ChangeIsTakenUp` | `zcode-proxy-src/src/auth/manager.ts:196-202` | an announcement, and a flush iff something is unsaved, reaches the running writer or queues a pass, and restarts the schedule |
| `PersistenceDecisions.PassWritesEverything` | `zcode-proxy-src/src/auth/manager.ts:352-359` | a queued pass writes everything announced so far |
| `PersistenceDecisions.WriteOkDecides` | `zcode-proxy-src/src/auth/manager.ts:360-383` | a successful write saves its snapshot; a change that overtook it is written at once, up to three passes, then by the timer |
| `PersistenceDecisions.WriteFailureDecides` | `zcode-proxy-src/src/auth/manager.ts:362-375` | a failed write saves nothing and is retried by the timer iff it may be and delays are left |
| `PersistenceDecisions.TimerDecides` | `zcode-proxy-src/src/auth/manager.ts:386-400` | the timer queues a pass iff it is armed and due |
| `PersistenceDecisions.AttemptsCountFailures` | `zcode-proxy-src/src/auth/manager.ts:360-375` | in every run the reported attempts are the failed writes since the last successful one |
| `StoreEffects.RemoveMeans` | `zcode-proxy-src/src/auth/account-store.ts:643-655` | a removal commits iff the id is stored, and leaves exactly everybody else, in order |
| `StoreEffects.AddMeans` | `zcode-proxy-src/src/auth/account-store.ts:615-640` | a new id is appended, a known one replaced field by field iff that is asked for and refused otherwise; nobody else changes |
| `StoreEffects.ReplaceAllMeans` | `zcode-proxy-src/src/auth/account-store.ts:528-538` | a list is written iff the expected revision holds and its ids are distinct |
| `StoreEffects.VerifiedIff` | `zcode-proxy-src/src/auth/account-store.ts:573-581` | when a login is verified against a stored profile, spelled out |
| `StoreEffects.RememberMeans` | `zcode-proxy-src/src/auth/account-store.ts:566-612` | a login refreshes the first profile it is verified against, is refused if it merely may be somebody stored, and is a new account otherwise |
| `StoreEffects.NewIdIs` | `zcode-proxy-src/src/auth/account-store.ts:604-605` | a new account is named by its provider and the smallest free number in decimal |
| `StoreEffects.PersistMeans` | `zcode-proxy-src/src/auth/runtime.ts:86-116` | a persist pass merges the last snapshot entry under each id iff it was taken under the stored credential and revision: later times, higher generations, the reason of the newer failure; everything else is untouched |
| `StoreLockDecisions.LockDecides` | `zcode-proxy-src/src/auth/account-store.ts:345-376` | a process takes the lock iff it finds none |
| `StoreLockDecisions.WriteDecides` | `zcode-proxy-src/src/auth/account-store.ts:545-561` | the effect on what was read is written under the next revision iff it commits and the disk lets it |
| `StoreLockDecisions.ReleaseDecides` | `zcode-proxy-src/src/auth/account-store.ts:377-391` | a release removes the lock iff it still finds its own nonce |
| `StoreLockDecisions.RecoveryDecides` | `zcode-proxy-src/src/auth/account-store.ts:323-343` | a recovery goes on iff the lock names the same dead owner at both readings |
| `StoreLockDecisions.UndisturbedMutationCommits` | `zcode-proxy-src/src/auth/account-store.ts:545-561` | an undisturbed mutation is stored under the next revision and leaves the store unlocked |
| `TokenBankDecisions.ServingDecides` | `zcode-proxy-src/src/proxy/captcha-pool.ts:306-308` | a mint for a waiting request is handed out and marked iff its id is neither recorded within the lifetime nor banked |
| `TokenBankDecisions.ReturningDecides` | `zcode-proxy-src/src/proxy/captcha-pool.ts:657-664` | a refill's mint waits to be banked iff it is not known |
| `TokenBankDecisions.BankingDecides` | `zcode-proxy-src/src/proxy/captcha-pool.ts:361-369` | it is banked iff the bank of young tokens is below its target and it is still not known |
| `TokenBankDecisions.PopDecides` | `zcode-proxy-src/src/proxy/captcha-pool.ts:350-359` | a pop hands out the newest young token whose id is not recorded, drops the newer ones and records it |
| `TokenBankDecisions.FloorIs` | `zcode-proxy-src/src/proxy/captcha-pool.ts:446-454` | minimum, idle floor or zero, by the time since the last take |
| `TokenBankDecisions.TargetIs` | `zcode-proxy-src/src/proxy/captcha-pool.ts:400-410` | the target in numbers: takes of two minutes times lifetime times 1.25, rounded up, a quarter more and one, between floor, maximum and governor |
| `TokenBankDecisions.ConfiguringDecides` | `zcode-proxy-src/src/proxy/captcha-pool.ts:187-196` | new limits are made consistent, the target clamped and the bank trimmed to its newest tokens |
| `TokenBankDecisions.TakeDecides` | `zcode-proxy-src/src/proxy/captcha-pool.ts:249-271` | a take counts itself and raises the target to the minimum; one that finds nothing, to the demand unless a storm is on |
| `TokenBankDecisions.RefillDecides` | `zcode-proxy-src/src/proxy/captcha-pool.ts:490-496` | a refill tick sets the target to the demand, and after the idle time lowers it by twenty unless two takes came in a minute |
| `TokenBankDecisions.CapDecides` | `zcode-proxy-src/src/proxy/captcha-pool.ts:473-483` | the governor lowers the target, not below the floor |
| `MintDecisions.WindowIsTheHistory` | `zcode-proxy-src/src/proxy/captcha-pool.ts:566-584` | in every run the window agrees with the history of answered attempts about the last ten minutes |
| `MintDecisions.StormStartsOnHistory` | `zcode-proxy-src/src/proxy/captcha-pool.ts:566-591` | a storm starts iff an attempt fails and of the attempts answered in the last ten minutes, five at least, fewer than one in five succeeded |
| `MintDecisions.SolveBeginsIff` | `zcode-proxy-src/src/proxy/captcha-pool.ts:628-646` | a solve begins iff neither a pause nor a storm holds |
| `MintDecisions.TurnDecides` | `zcode-proxy-src/src/proxy/captcha-pool.ts:646-651` | at its turn a solve is refused for a pause, else for a storm, else runs |
| `MintDecisions.AnswerDecides` | `zcode-proxy-src/src/proxy/captcha-pool.ts:652-683` | usable ends the solve, a rate limit ends it and pauses five minutes, anything else is retried iff attempts are left and neither a pause nor a storm has begun |
| `MintDecisions.RefusalDecides` | `zcode-proxy-src/src/proxy/captcha-pool.ts:665-683` | a refused solve is over; a refusal for the pause is filed as a rate limit |
| `MintDecisions.UnstartedDecides` | `zcode-proxy-src/src/proxy/captcha-pool.ts:665-683` | a job that could not be started is a failed attempt |
| `MintDecisions.ProbeStartsIff` | `zcode-proxy-src/src/proxy/captcha-pool.ts:605-610` | a probe starts iff a storm is on, none is out, its backoff has passed and no pause holds |
| `MintDecisions.ProbeTurnDecides` | `zcode-proxy-src/src/proxy/captcha-pool.ts:646-651` | the probe is refused for a pause only |
| `MintDecisions.ProbeAnswerDecides` | `zcode-proxy-src/src/proxy/captcha-pool.ts:652-683` | the probe succeeds iff its mint is usable |
| `MintDecisions.ReturnDecides` | `zcode-proxy-src/src/proxy/captcha-pool.ts:611-625` | success ends the storm and forgets the window, failure backs off one level further |
| `MintDecisions.BackoffsInMinutes` | `zcode-proxy-src/src/proxy/captcha-pool.ts:751-753` | one, two, four, eight, then ten minutes |
| `SessionDecisions.PruneKeepsExactly` | `zcode-proxy-src/src/proxy/client-session.ts:60-83` | pruning keeps the sessions in time, the most recent if there are too many, and exactly their nodes in time |
| `SessionDecisions.NamedSessionIsTaken` | `zcode-proxy-src/src/proxy/client-session.ts:90-102` | a client that names its session, or sends no readable body, is taken at its word |
| `SessionDecisions.LineageDecides` | `zcode-proxy-src/src/proxy/client-session.ts:103-118` | any other request gets its own node's session with confidence 95, its parent's with 90, or a new one with 75, and is stored under it |
| `CanonicalForms.BracketsAre` | `zcode-proxy-src/src/proxy/client-session.ts:259-264` | an array is its items joined with commas in brackets, an object its members by key in braces |
| `CanonicalForms.PlainIsQuoted` | `zcode-proxy-src/src/proxy/client-session.ts:260` | plain text is quoted as it is |
| `CanonicalForms.ShortEscapesAre` | `zcode-proxy-src/src/proxy/client-session.ts:260` | the short escapes |
| `CanonicalForms.EscapesAre` | `zcode-proxy-src/src/proxy/client-session.ts:260` | other control characters and lone surrogates as four lower-case hexadecimal digits |
| `CanonicalForms.DeveloperIff` | `zcode-proxy-src/src/proxy/client-session.ts:219-222` | a message is the developer's iff its role is that word |
| `BridgeDecisions.MarkedIff` | `zcode-proxy-src/src/async/bridge.ts:27` | a text is marked iff the marker stands somewhere in it |
| `BridgeDecisions.LineEndingsBecomeOne` | `zcode-proxy-src/src/async/bridge.ts:391` | each of the three line endings becomes one line feed, and everything else stands |
| `BatchFold.ContentIsWhatWasSaid` | `zcode-proxy-src/src/async/handler.ts:436-482` | for every stream whatever, the rebuilt content is one block for each stop that finds a block open, made of the pieces of its kind since its start; a tool's input is what its joined pieces parse to, the empty object if they do not |
| `BatchFold.BlocksComeBack` | `zcode-proxy-src/src/async/handler.ts:407-508` | round trip: blocks given as values and cut into deltas, with anything in between, come back as they were |
| `SigningDecisions.BeginDecides` | `zcode-proxy-src/src/proxy/client-signing.ts:272-299` | a request is to be signed iff it is eligible and signing is not bypassed |
| `SigningDecisions.GateDecides` | `zcode-proxy-src/src/proxy/client-signing.ts:485-505` | disabled means unsigned; a cached key is used, a running handshake shared, else one is begun |
| `SigningDecisions.HandshakeDecides` | `zcode-proxy-src/src/proxy/client-signing.ts:494-502` | a key is installed iff the handshake succeeds in its own epoch; it no longer runs either way |
| `SigningDecisions.WaiterDecides` | `zcode-proxy-src/src/proxy/client-signing.ts:299-308` | a waiter uses the installed key, or forgets all keys and is sent unsigned |
| `SigningDecisions.AnswerDecides` | `zcode-proxy-src/src/proxy/client-signing.ts:558-578` | the first rejection forgets the key and signs once more, the second bypasses signing and sends unsigned, anything else ends the request |
| `BatchFold.TruthyIff` | `zcode-proxy-src/src/async/handler.ts:503-506` | which field values count as said |
| `BridgeDecisions.EventsOfTheClient` | `zcode-proxy-src/src/async/bridge.ts:203-209` | both ways of leaving set the abort flag and nothing else |
| `CanonicalForms.WordsAre` | `zcode-proxy-src/src/proxy/client-session.ts:259-261` | the words, and the two numbers that do not print as themselves |
| `CanonicalForms.PairsStand` | `zcode-proxy-src/src/proxy/client-session.ts:260` | a surrogate pair is printed as it is |
| `FailoverDecisions.ListedAs` | `zcode-proxy-src/src/auth/manager.ts:498-499` | an account in service is listed as exhausted iff it is in quarantine |
| `FailoverDecisions.OtherEventsPassThrough` | `zcode-proxy-src/src/auth/manager.ts:461-465` | what else the rotator does leaves the open recoveries alone |
| `MintDecisions.StormsAreNumbered` | `zcode-proxy-src/src/proxy/captcha-pool.ts:586-590` | a new storm is none of those before it |
| `MintDecisions.NobodyElsesTurn` | `zcode-proxy-src/src/proxy/captcha-solver.ts:295-297` | while a mint is in flight nobody else is admitted |
| `MintDecisions.TimePasses` | `zcode-proxy-src/src/proxy/captcha-pool.ts:225-229` | a pause from outside only ever extends the one that holds |
| `PoolRefresh.FailedReadEndsTheRefresh` | `zcode-proxy-src/src/auth/runtime.ts:69-79` | a failed read ends the refresh, so that the next call reads again |
| `Quarantine.ChecksInspect` | `zcode-proxy-src/src/auth/account-rotator.ts:355-376` | a check of a handle inspects its account iff the handle matches it |
| `Quarantine.SameHandleIff` | `zcode-proxy-src/src/auth/account-rotator.ts:132-138` | what a handle is compared with |
| `SessionDecisions.OffSaysNothing` | `zcode-proxy-src/src/proxy/client-session.ts:90-93` | switched off, the resolver says nothing and keeps nothing |
| `SessionDecisions.FoundIff` | `zcode-proxy-src/src/proxy/client-session.ts:60-67` | a node is found exactly for the lifetime after it was last seen |
| `SigningDecisions.BuiltDecides` | `zcode-proxy-src/src/proxy/client-signing.ts:309-310` | a signature that could be built is sent, else the request goes unsigned |
| `SigningDecisions.ThrowEnds` | `zcode-proxy-src/src/proxy/client-signing.ts:566-577` | a send that throws ends the request and nothing else |
| `SigningDecisions.StrayAnswersAreIgnored` | `zcode-proxy-src/src/proxy/client-signing.ts:485-505` | answers nobody waits for change nothing |
| `StoreEffects.ClaimIs` | `zcode-proxy-src/src/auth/account-store.ts:566-571` | the user a credential claims: its trimmed user id, else the subject of its login token |
| `StoreLockDecisions.LoadDecides` | `zcode-proxy-src/src/auth/account-store.ts:545-550` | only the holder of the lock reads the store |
| `StoreLockDecisions.GiveUpDecides` | `zcode-proxy-src/src/auth/account-store.ts:557-561` | a failure still leads to the release |
| `StoreLockDecisions.ForceAndCrash` | `zcode-proxy-src/src/auth/account-store.ts:404-426` | a forced unlock removes the lock file only; a crash leaves the files |
| `StoreLockDecisions.StartsUnlocked` | `zcode-proxy-src/src/auth/account-store.ts:345-354` | the store before any step |
| `TokenBankDecisions.RecordedIff` | `zcode-proxy-src/src/proxy/captcha-pool.ts:63-66` | an id is recorded for exactly the lifetime after it was marked |
| `TokenBankDecisions.InvalidationForgets` | `zcode-proxy-src/src/proxy/captcha-pool.ts:225-229` | invalidation forgets tokens and ids, and nothing else |
| `TokenBankDecisions.StartsEmpty` | `zcode-proxy-src/src/proxy/captcha-pool.ts:178-185` | the bank starts empty with the minimum as its target |
| `TokenBankDecisions.ScaleDownDecides` | `zcode-proxy-src/src/proxy/captcha-pool.ts:421-439` | scaling down lowers the target by twenty, to the floor, and trims the bank |
| `PersistenceDecisions.StrayAnswersAreIgnored` | `zcode-proxy-src/src/auth/manager.ts:352-359` | without a write in progress its answers change nothing |

## Left out

- Cryptography, JWT decoding, network fetches, OAuth, key resolution and desktop import: opaque functions or choices of the environment.
- Filesystem detail such as fsync, permissions and temporary names: a write or unlink may fail, a rename is atomic.
- Process liveness in `StoreLock`: a process that has crashed is dead for good, as with its start token; processes on other hosts, which count as alive, are not told apart.
- `StoreLock` is on values, as its state is shared by several processes and a filesystem; it takes reading the store as one step and omits the legacy-key migration (`auth/account-store.ts:511-525`) and the removal of abandoned temporary files.
- StoreLock.DeadLockIsRecovered: creating and filling the lock file are one step; a crash in between leaves an unreadable lock, which `acquireLock` reports and never recovers.
- Parsing of worker messages, captcha tokens and JSON text: the models take decoded messages, events and values.
- Splitting server-sent events into lines for `reconstructAnthropicBatch`: its input is the decoded events, so `data: null` without an `event:` line, on which the source throws at `parsed.type`, is not an input; a usage field that is a string is taken to spread to nothing.
- The SSE translation to and from the OpenAI format is not part of this model.
- Labels, creation times and overviews of accounts, the regular expression that bounds failure labels, and `syncProfiles`' return value: they influence no other behaviour modelled.
- Recovery from a bare credential (`auth/manager.ts:474-480`) is reduced to recovery from the handle it resolves to; the single-account path of the manager is not modelled.
- `settlePersistence` and its waiters, which exist for tests.
- Timers fire at or after their time; a timer that fires early is not modelled. Sleeping ends when the environment says so.
- A restart of the process, which forgets in-memory tombstones, registries and sessions.
- The CPU governor of the captcha pool is a number the environment gives; `activeSolves` appears in `MintStorm`, where it is changed, and not in the sizing of `TokenBank`, so when a refill starts solves is a choice of the environment.
- TokenBank.IssuedOnceWithinTtl: counts ids issued since the last `invalidate`, which clears the registry on purpose.
- A solver that hands over two results in one task: the dispatcher has one worker and one job in flight, so the check and the marking of a served mint are one section.
- The waves of `solveBatch` and `prefill`, the race of `solveRaced` and the deadline and grace wait of `takeToken` decide when solves start and end; the models allow any such timing.
- Demand in `TokenBank` is computed exactly; the source rounds in floating point.
- The gate probe of request signing, with its caches, is an answer of the environment; signing is modelled for one origin and credential at a time.
- Headers and metadata that carry explicit session ids (`proxy/client-session.ts:135-203`) are given as the identifiers found.
- `newSession` is assumed to give an unused id; a collision of its random digits is not modelled.
- When `maxSessions` sessions were seen in the same instant the order of eviction follows the map's insertion order in the source and is left open here.
- `captcha-happy.ts`, the solver worker, diagnostics, YAML configuration, the command line, Android plumbing and the MCP bridge.
