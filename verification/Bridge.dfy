/**
 * The off-peak ticket bridge (async/bridge.ts) as a step relation.
 *
 * One event is one run-to-completion section: the code between two `await`s, or
 * one callback.  The environment chooses every answer: polls, sleeps, the upstream
 * response, its chunks, retakes, aborts and clock ticks.  An event that cannot
 * occur in a phase leaves the state alone.
 */
module Bridge {
  import opened Util
  import opened Framing

  datatype TicketState = Queued | Ready | Active | Settled | TicketExpired | NotFound | Unknown

  datatype Ticket = Ticket(id: string, state: TicketState)

  predicate IsTicketReady(s: TicketState) {
    s == Ready || s == Active
  }

  datatype Config = Config(maxRetries: int, maxWaitMs: int, pollIntervalMs: nat)

  const POLL_RETRY_LIMIT: nat := 3

  datatype ErrorKind =
    | Timeout
    | ExhaustedRetries(times: nat)
    | RetakeFailed
    | NetworkError
    | HttpError(status: int)
    | FrameTooLong
    | ExpiredAfterOutput
    | InternalError

  /** One thing enqueued on the client stream; frames remember their attempt. */
  datatype Item = Keepalive | Frame(attempt: nat, text: string) | ErrorEvent(kind: ErrorKind)

  datatype CancelReason = OnAbort | OnMarker | OnTooLong

  /** Where the `start` routine is suspended. */
  datatype Phase =
    | Polling(failures: nat)       // inside batchStatus
    | PollBackoff(failures: nat)   // sleeping after a failed poll
    | WaitSleep(until: int)        // sleeping until the next poll
    | DeadlineSleep(until: int)    // sleeping out the total wait budget
    | Taking                       // inside takeTicket
    | Forwarding                   // inside fetch
    | ErrorBody(status: int, body: string)  // reading a non-2xx body
    | Streaming                    // inside reader.read
    | Cancelling(why: CancelReason)  // inside reader.cancel
    | Closed

  datatype TerminalPhase = DonePhase | AbortPhase | ErrorPhase

  datatype Outcome = Outcome(attempts: nat, finalTicketId: string, terminal: TerminalPhase)

  datatype State = State(
    cfg: Config,
    now: int,
    deadlineAt: int,
    aborted: bool,
    cancelled: bool,
    ticket: Ticket,
    attempt: nat,
    keepalive: bool,
    phase: Phase,
    pending: string,
    committed: bool,
    out: seq<Item>,
    settled: seq<string>,
    outcome: Option<Outcome>,
    // History: what this attempt received and forwarded, every ticket obtained,
    // and the terminal error if one reached the stream.
    received: string,
    forwarded: seq<string>,
    obtained: seq<string>,
    terminal: Option<ErrorKind>)

  datatype Event =
    | Tick(ms: nat)
    | ClientAbort
    | ConsumerCancel
    | KeepaliveTick
    | PollOk(tickets: seq<TicketState>, nextPollAfterMs: Option<nat>)
    | PollFail
    | SleepDone
    | TakeOk(ticket: Ticket)
    | TakeFail
    | FetchOk(hasBody: bool)
    | FetchHttp(status: int, body: string)
    | FetchFail
    | BodyRead
    | Chunk(text: string)
    | StreamEnd
    | ReadFail
    | ReaderCancelled

  // ---------------------------------------------------------------------------
  // Building blocks
  // ---------------------------------------------------------------------------

  function Settle(s: State, id: string): State {
    if id in s.settled then s else s.(settled := s.settled + [id])
  }

  /** Enqueueing on a stream the consumer cancelled throws, and the throw is swallowed. */
  function EmitError(s: State, kind: ErrorKind): State {
    if s.aborted || s.cancelled then s
    else s.(out := s.out + [ErrorEvent(kind)], terminal := Some(kind))
  }

  function Resolve(s: State, attempts: nat, terminal: TerminalPhase): State {
    if s.outcome.Some? then s
    else s.(outcome := Some(Outcome(attempts, s.ticket.id, terminal)))
  }

  /** The `finally` block. */
  function Close(s: State): State {
    Resolve(s.(keepalive := false, phase := Closed), s.attempt + 1,
            if s.aborted then AbortPhase else ErrorPhase)
  }

  /** Settle the current ticket and return with the fallback outcome. */
  function Abandon(s: State): State {
    Close(Settle(s, s.ticket.id))
  }

  /** Settle, report one terminal error, return. */
  function FailWith(s: State, kind: ErrorKind, attempts: nat): State {
    Close(Resolve(EmitError(Settle(s, s.ticket.id), kind), attempts, ErrorPhase))
  }

  /** The outer `catch`. */
  function Catch(s: State): State {
    FailWith(s, InternalError, s.attempt + 1)
  }

  /** The ticket expired before anything was forwarded: retake, or give up. */
  function Expire(s: State): State {
    var t := Settle(s, s.ticket.id);
    var u := t.(attempt := t.attempt + 1);
    if u.attempt > u.cfg.maxRetries then FailWith(u, ExhaustedRetries(u.attempt), u.attempt)
    else u.(phase := Taking)
  }

  /** The READY phase up to the fetch. */
  function Forward(s: State): State {
    s.(keepalive := false, phase := Forwarding)
  }

  /** The head of the main loop. */
  function Top(s: State): State {
    if s.aborted then Abandon(s)
    else if !IsTicketReady(s.ticket.state) then s.(keepalive := true, phase := Polling(0))
    else Forward(s)
  }

  /** The head of waitForReady's loop, after a sleep. */
  function PollAgain(s: State): State {
    if s.aborted then Abandon(s) else s.(phase := Polling(0))
  }

  function TimedOut(s: State): State {
    FailWith(s.(keepalive := false), Timeout, s.attempt + 1)
  }

  /** waitForReady reported an unusable ticket. */
  function ExpiredInQueue(s: State): State {
    var t := s.(keepalive := false);
    if s.cfg.maxWaitMs > 0 && s.now >= s.deadlineAt then TimedOut(s) else Expire(t)
  }

  function OnPollOk(s: State, tickets: seq<TicketState>, next: Option<nat>): State {
    if s.aborted then Abandon(s)
    else if tickets == [] then ExpiredInQueue(s)
    else if IsTicketReady(tickets[0]) then Forward(s)
    else if tickets[0] != Queued then ExpiredInQueue(s)
    else
      var delay := next.GetOr(s.cfg.pollIntervalMs);
      if s.cfg.maxWaitMs > 0 && s.now + delay > s.deadlineAt then
        s.(phase := DeadlineSleep(Max(s.now, s.deadlineAt)))
      else s.(phase := WaitSleep(s.now + delay))
  }

  function OnPollFail(s: State, failures: nat): State {
    if s.aborted || failures + 1 >= POLL_RETRY_LIMIT then Catch(s)
    else s.(phase := PollBackoff(failures + 1))
  }

  function OnSleepDone(s: State): State {
    match s.phase
    case PollBackoff(failures) =>
      if s.aborted then Catch(s) else s.(phase := Polling(failures))
    case WaitSleep(until) =>
      if s.now >= until || s.aborted then PollAgain(s) else s
    case DeadlineSleep(until) =>
      if s.aborted then Abandon(s) else if s.now >= until then TimedOut(s) else s
    case _ => s
  }

  /** After the streaming loop. */
  function AfterStream(s: State, expired: bool): State {
    if s.aborted then Close(Resolve(Settle(s, s.ticket.id), s.attempt + 1, AbortPhase))
    else if expired && !s.committed then Expire(s)
    else if expired then FailWith(s, ExpiredAfterOutput, s.attempt + 1)
    else Close(Resolve(Settle(s, s.ticket.id), s.attempt + 1, DonePhase))
  }

  function OnTakeOk(s: State, ticket: Ticket): State {
    Top(s.(ticket := ticket, obtained := s.obtained + [ticket.id]))
  }

  function OnFetchFail(s: State): State {
    if s.aborted then Abandon(s) else FailWith(s, NetworkError, s.attempt + 1)
  }

  function OnFetchOk(s: State, hasBody: bool): State {
    var t := s.(committed := false, pending := "", received := "", forwarded := []);
    if !hasBody then AfterStream(t, false)
    else if s.aborted then t.(phase := Cancelling(OnAbort))
    else t.(phase := Streaming)
  }

  function OnBodyRead(s: State, status: int, body: string): State {
    if Marked(body) then Expire(s) else FailWith(s, HttpError(status), s.attempt + 1)
  }

  function Tag(attempt: nat, frames: seq<string>): seq<Item> {
    seq(|frames|, i requires 0 <= i < |frames| => Frame(attempt, frames[i]))
  }

  function OnChunk(s: State, text: string): State {
    if s.aborted then AfterStream(s, false)
    else
      var more := Normalize(text);
      var t := s.(pending := s.pending + more, received := s.received + more);
      if |t.pending| > MAX_PENDING_FRAME then t.(phase := Cancelling(OnTooLong))
      else
        var e := Extract([], t.pending);
        t.(pending := e.pending,
           forwarded := t.forwarded + e.forwarded,
           out := t.out + Tag(t.attempt, e.forwarded),
           committed := t.committed || e.forwarded != [],
           phase := if e.verdict == Framing.Expired then Cancelling(OnMarker) else Streaming)
  }

  function OnStreamEnd(s: State): State {
    if s.aborted || s.pending == "" then AfterStream(s, false)
    else if Marked(s.pending) then AfterStream(s.(pending := ""), true)
    else if EndsFrame(s.pending) then
      AfterStream(s.(pending := "", forwarded := s.forwarded + [s.pending],
                     out := s.out + [Frame(s.attempt, s.pending)]), false)
    else AfterStream(s.(pending := ""), false)
  }

  function OnReaderCancelled(s: State, why: CancelReason): State {
    match why
    case OnAbort => Abandon(s)
    case OnMarker => AfterStream(s, true)
    case OnTooLong => FailWith(s, FrameTooLong, s.attempt + 1)
  }

  function Step(s: State, e: Event): State {
    match e
    case Tick(ms) => s.(now := s.now + ms)
    case ClientAbort => s.(aborted := true)
    case ConsumerCancel => s.(aborted := true, cancelled := true)
    case KeepaliveTick => if s.keepalive && !s.aborted then s.(out := s.out + [Keepalive]) else s
    case PollOk(tickets, next) => if s.phase.Polling? then OnPollOk(s, tickets, next) else s
    case PollFail => if s.phase.Polling? then OnPollFail(s, s.phase.failures) else s
    case SleepDone => OnSleepDone(s)
    case TakeOk(ticket) =>
      if s.phase == Taking then OnTakeOk(s, ticket) else s
    case TakeFail => if s.phase == Taking then FailWith(s, RetakeFailed, s.attempt) else s
    case FetchOk(hasBody) => if s.phase == Forwarding then OnFetchOk(s, hasBody) else s
    case FetchHttp(status, body) => if s.phase == Forwarding then s.(phase := ErrorBody(status, body)) else s
    case FetchFail => if s.phase == Forwarding then OnFetchFail(s) else s
    case BodyRead => if s.phase.ErrorBody? then OnBodyRead(s, s.phase.status, s.phase.body) else s
    case Chunk(text) => if s.phase == Streaming then OnChunk(s, text) else s
    case StreamEnd => if s.phase == Streaming then OnStreamEnd(s) else s
    case ReadFail => if s.phase == Streaming then Catch(s) else s
    case ReaderCancelled => if s.phase.Cancelling? then OnReaderCancelled(s, s.phase.why) else s
  }

  function Init(cfg: Config, initial: Ticket, now: int, aborted: bool): State {
    Top(State(cfg, now, now + cfg.maxWaitMs, aborted, false, initial, 0, false, Forwarding,
              "", false, [], [], None, "", [], [initial.id], None))
  }

  function Run(s: State, events: seq<Event>): State {
    if events == [] then s
    else Step(Run(s, events[..|events| - 1]), events[|events| - 1])
  }

  // ---------------------------------------------------------------------------
  // The invariant
  // ---------------------------------------------------------------------------

  /** Keepalives, then the frames of one attempt, then at most one terminal error. */
  ghost predicate Grammar(out: seq<Item>, attempt: nat, frames: seq<string>, terminal: Option<ErrorKind>) {
    var tail := if terminal.Some? then 1 else 0;
    var k := |out| - |frames| - tail;
    && k >= 0
    && (forall i :: 0 <= i < k ==> out[i] == Keepalive)
    && (forall i :: 0 <= i < |frames| ==> out[k + i] == Frame(attempt, frames[i]))
    && (terminal.Some? ==> out[|out| - 1] == ErrorEvent(terminal.value))
  }

  ghost predicate NoDuplicates<T>(xs: seq<T>) {
    forall i, j :: 0 <= i < j < |xs| ==> xs[i] != xs[j]
  }

  predicate Waiting(p: Phase) {
    p.Polling? || p.PollBackoff? || p.WaitSleep? || p.DeadlineSleep?
  }

  predicate InStream(p: Phase) {
    p.Streaming? || p.Cancelling?
  }

  /** Retakes allowed by the configuration. */
  function RetryBudget(cfg: Config): nat {
    Max(0, cfg.maxRetries)
  }

  ghost predicate TicketsInv(s: State) {
    && NoDuplicates(s.settled)
    && (forall id :: id in s.settled ==> id in s.obtained)
    && s.ticket.id in s.obtained
    && (forall id :: id in s.obtained ==> id in s.settled || (id == s.ticket.id && s.phase !in {Taking, Closed}))
    && |s.obtained| <= 1 + RetryBudget(s.cfg)
    && (s.phase == Taking ==> |s.obtained| == s.attempt)
    && (s.phase !in {Taking, Closed} ==> |s.obtained| == s.attempt + 1)
    && (s.phase != Closed ==> s.attempt <= RetryBudget(s.cfg))
  }

  ghost predicate OutputInv(s: State) {
    && Grammar(s.out, s.attempt, s.forwarded, s.terminal)
    && (s.keepalive ==> Waiting(s.phase))
    && (s.phase != Closed ==> s.terminal.None?)
    && (s.phase != Closed && !InStream(s.phase) ==> s.forwarded == [])
    && (InStream(s.phase) ==> (s.committed <==> s.forwarded != []))
    && s.forwarded <= OutcomeOf(s.received).forwarded
  }

  ghost predicate StreamInv(s: State) {
    && (s.phase == Streaming ==> Tracks(Progress(s.pending, s.forwarded, Framing.Reading), s.received))
    && (s.phase == Cancelling(OnMarker) ==> Tracks(Progress(s.pending, s.forwarded, Framing.Expired), s.received))
  }

  ghost predicate OutcomeInv(s: State) {
    && (s.outcome.Some? <==> s.phase == Closed)
    && (s.outcome.Some? ==>
          && 1 <= s.outcome.value.attempts <= 1 + RetryBudget(s.cfg)
          && s.outcome.value.finalTicketId == s.ticket.id
          && (s.outcome.value.terminal == DonePhase ==>
                s.terminal.None? && s.forwarded == OutcomeOf(s.received).forwarded && !Marked(s.received))
          && (s.terminal.Some? ==> s.outcome.value.terminal == ErrorPhase))
    && (s.terminal == Some(Timeout) ==> s.cfg.maxWaitMs > 0 && s.now >= s.deadlineAt)
    && (s.phase.DeadlineSleep? ==> s.cfg.maxWaitMs > 0 && s.phase.until >= s.deadlineAt)
  }

  ghost predicate Inv(s: State) {
    && (s.cancelled ==> s.aborted)
    && TicketsInv(s)
    && OutputInv(s)
    && StreamInv(s)
    && OutcomeInv(s)
  }

  // ---------------------------------------------------------------------------
  // Every section keeps the invariant
  // ---------------------------------------------------------------------------

  /** Mid-section: the routine is running, and may still settle, emit and return. */
  ghost predicate Open(s: State) {
    && (s.cancelled ==> s.aborted)
    && NoDuplicates(s.settled)
    && (forall id :: id in s.settled ==> id in s.obtained)
    && s.ticket.id in s.obtained
    && (forall id :: id in s.obtained ==> id in s.settled || id == s.ticket.id)
    && |s.obtained| <= 1 + RetryBudget(s.cfg)
    && Grammar(s.out, s.attempt, s.forwarded, None)
    && s.terminal.None?
    && s.outcome.None?
    && s.forwarded <= OutcomeOf(s.received).forwarded
  }

  lemma SettleKeeps(s: State)
    requires Open(s)
    ensures Open(Settle(s, s.ticket.id))
    ensures forall id :: id in s.obtained ==> id in Settle(s, s.ticket.id).settled
  {
    hide OutcomeOf, Marked, Split, Tracks;
  }

  lemma EmitErrorKeeps(s: State, kind: ErrorKind)
    requires Grammar(s.out, s.attempt, s.forwarded, None) && s.terminal.None?
    ensures var t := EmitError(s, kind);
            Grammar(t.out, s.attempt, s.forwarded, t.terminal)
  {
    var out := s.out + [ErrorEvent(kind)];
    var k := |s.out| - |s.forwarded|;
    forall i | 0 <= i < k ensures out[i] == Keepalive {
      assert s.out[i] == Keepalive;
    }
    forall i | 0 <= i < |s.forwarded| ensures out[k + i] == Frame(s.attempt, s.forwarded[i]) {
      assert s.out[k + i] == Frame(s.attempt, s.forwarded[i]);
    }
  }

  /** Everything a closed bridge owes, except having closed. */
  lemma ClosedInv(s: State, o: Outcome)
    requires s.cancelled ==> s.aborted
    requires NoDuplicates(s.settled) && s.ticket.id in s.obtained && |s.obtained| <= 1 + RetryBudget(s.cfg)
    requires forall id :: id in s.settled <==> id in s.obtained
    requires Grammar(s.out, s.attempt, s.forwarded, s.terminal)
    requires s.forwarded <= OutcomeOf(s.received).forwarded
    requires o.finalTicketId == s.ticket.id && 1 <= o.attempts <= 1 + RetryBudget(s.cfg)
    requires o.terminal == DonePhase ==>
               s.terminal.None? && s.forwarded == OutcomeOf(s.received).forwarded && !Marked(s.received)
    requires s.terminal.Some? ==> o.terminal == ErrorPhase
    requires s.terminal == Some(Timeout) ==> s.cfg.maxWaitMs > 0 && s.now >= s.deadlineAt
    ensures Inv(s.(keepalive := false, phase := Closed, outcome := Some(o)))
  {
    hide OutcomeOf, Marked, Split, Tracks;
  }

  lemma FailWithInv(s: State, kind: ErrorKind, attempts: nat)
    requires Open(s)
    requires 1 <= attempts <= 1 + RetryBudget(s.cfg)
    requires kind == Timeout ==> s.cfg.maxWaitMs > 0 && s.now >= s.deadlineAt
    ensures Inv(FailWith(s, kind, attempts))
  {
    hide OutcomeOf, Marked, Split, Tracks;
    SettleKeeps(s);
    var t := Settle(s, s.ticket.id);
    EmitErrorKeeps(t, kind);
    ClosedInv(EmitError(t, kind), Outcome.Outcome(attempts, s.ticket.id, ErrorPhase));
  }

  lemma CloseInv(s: State, attempts: nat, terminal: TerminalPhase)
    requires Open(s)
    requires 1 <= attempts <= 1 + RetryBudget(s.cfg)
    requires terminal == DonePhase ==> s.forwarded == OutcomeOf(s.received).forwarded && !Marked(s.received)
    ensures Inv(Close(Resolve(Settle(s, s.ticket.id), attempts, terminal)))
  {
    hide OutcomeOf, Marked, Split, Tracks;
    SettleKeeps(s);
    ClosedInv(Settle(s, s.ticket.id), Outcome.Outcome(attempts, s.ticket.id, terminal));
  }

  lemma AbandonInv(s: State)
    requires Open(s) && s.attempt <= RetryBudget(s.cfg)
    ensures Inv(Abandon(s))
  {
    hide Inv, Open;
    var terminal := if s.aborted then AbortPhase else ErrorPhase;
    CloseInv(s, s.attempt + 1, terminal);
    assert Abandon(s) == Close(Resolve(Settle(s, s.ticket.id), s.attempt + 1, terminal));
  }

  lemma GrammarWithoutFrames(out: seq<Item>, a: nat, b: nat)
    requires Grammar(out, a, [], None)
    ensures Grammar(out, b, [], None)
  {
  }

  lemma TakingInv(s: State)
    requires Open(s) && s.forwarded == [] && !s.keepalive && s.phase == Taking
    requires |s.obtained| == s.attempt <= RetryBudget(s.cfg)
    requires forall id :: id in s.obtained ==> id in s.settled
    ensures Inv(s)
  {
    hide OutcomeOf, Marked, Split, Tracks;
  }

  lemma ExpireInv(s: State)
    requires Open(s) && s.forwarded == [] && !s.keepalive && |s.obtained| == s.attempt + 1
    ensures Inv(Expire(s))
  {
    hide OutcomeOf, Marked, Split, Tracks;
    SettleKeeps(s);
    var t := Settle(s, s.ticket.id);
    var u := t.(attempt := t.attempt + 1);
    GrammarWithoutFrames(s.out, s.attempt, u.attempt);
    assert Open(u);
    if u.attempt > u.cfg.maxRetries {
      FailWithInv(u, ExhaustedRetries(u.attempt), u.attempt);
      assert Expire(s) == FailWith(u, ExhaustedRetries(u.attempt), u.attempt);
    } else {
      TakingInv(u.(phase := Taking));
      assert Expire(s) == u.(phase := Taking);
    }
  }

  /** Suspended before any frame of this attempt. */
  lemma SuspendedInv(s: State)
    requires Open(s) && s.forwarded == [] && s.phase !in {Taking, Closed} && !InStream(s.phase)
    requires s.keepalive ==> Waiting(s.phase)
    requires |s.obtained| == s.attempt + 1 && s.attempt <= RetryBudget(s.cfg)
    requires s.phase.DeadlineSleep? ==> s.cfg.maxWaitMs > 0 && s.phase.until >= s.deadlineAt
    ensures Inv(s)
  {
    hide OutcomeOf, Marked, Split, Tracks;
  }

  /** Ready to take a decision about the current ticket, with nothing forwarded. */
  ghost predicate Deciding(s: State) {
    Open(s) && s.forwarded == [] && |s.obtained| == s.attempt + 1 && s.attempt <= RetryBudget(s.cfg)
  }

  lemma InvMeansDeciding(s: State)
    requires Inv(s) && s.phase !in {Taking, Closed} && !InStream(s.phase)
    ensures Deciding(s)
  {
    hide OutcomeOf, Marked, Split, Tracks;
  }

  lemma TopInv(s: State)
    requires Deciding(s)
    ensures Inv(Top(s))
  {
    hide OutcomeOf, Marked, Split, Tracks;
    if s.aborted {
      AbandonInv(s);
    } else {
      SuspendedInv(Top(s));
    }
  }

  lemma TimedOutInv(s: State)
    requires Deciding(s) && s.cfg.maxWaitMs > 0 && s.now >= s.deadlineAt
    ensures Inv(TimedOut(s))
  {
    hide OutcomeOf, Marked, Split, Tracks;
    FailWithInv(s.(keepalive := false), Timeout, s.attempt + 1);
  }

  lemma ExpiredInQueueInv(s: State)
    requires Deciding(s)
    ensures Inv(ExpiredInQueue(s))
  {
    hide OutcomeOf, Marked, Split, Tracks;
    if s.cfg.maxWaitMs > 0 && s.now >= s.deadlineAt {
      TimedOutInv(s);
    } else {
      ExpireInv(s.(keepalive := false));
    }
  }

  lemma CatchInv(s: State)
    requires Open(s) && s.attempt <= RetryBudget(s.cfg)
    ensures Inv(Catch(s))
  {
    hide OutcomeOf, Marked, Split, Tracks, FailWith, Inv;
    FailWithInv(s, InternalError, s.attempt + 1);
  }

  lemma QueuedInv(s: State, until: int)
    requires Deciding(s)
    ensures Waiting(s.phase) ==> Inv(s.(phase := WaitSleep(until)))
    ensures s.cfg.maxWaitMs > 0 && until >= s.deadlineAt ==> Inv(s.(phase := DeadlineSleep(until)))
  {
    hide OutcomeOf, Marked, Split, Tracks;
    SuspendedInv(s.(phase := WaitSleep(until)));
    if s.cfg.maxWaitMs > 0 && until >= s.deadlineAt {
      SuspendedInv(s.(phase := DeadlineSleep(until)));
    }
  }

  lemma PollOkInv(s: State, tickets: seq<TicketState>, next: Option<nat>)
    requires Deciding(s) && Waiting(s.phase)
    ensures Inv(OnPollOk(s, tickets, next))
  {
    hide OutcomeOf, Marked, Split, Tracks;
    if s.aborted {
      AbandonInv(s);
    } else if tickets == [] || (!IsTicketReady(tickets[0]) && tickets[0] != Queued) {
      ExpiredInQueueInv(s);
      assert OnPollOk(s, tickets, next) == ExpiredInQueue(s);
    } else if IsTicketReady(tickets[0]) {
      SuspendedInv(Forward(s));
    } else {
      var delay := next.GetOr(s.cfg.pollIntervalMs);
      if s.cfg.maxWaitMs > 0 && s.now + delay > s.deadlineAt {
        QueuedInv(s, Max(s.now, s.deadlineAt));
        assert OnPollOk(s, tickets, next) == s.(phase := DeadlineSleep(Max(s.now, s.deadlineAt)));
      } else {
        QueuedInv(s, s.now + delay);
        assert OnPollOk(s, tickets, next) == s.(phase := WaitSleep(s.now + delay));
      }
    }
  }

  lemma PollFailInv(s: State, failures: nat)
    requires Deciding(s)
    ensures Inv(OnPollFail(s, failures))
  {
    hide OutcomeOf, Marked, Split, Tracks;
    if s.aborted || failures + 1 >= POLL_RETRY_LIMIT {
      CatchInv(s);
    } else {
      SuspendedInv(s.(phase := PollBackoff(failures + 1)));
    }
  }

  lemma BackoffInv(s: State)
    requires Deciding(s) && s.phase.PollBackoff?
    ensures Inv(OnSleepDone(s))
  {
    hide OutcomeOf, Marked, Split, Tracks;
    if s.aborted {
      CatchInv(s);
    } else {
      SuspendedInv(s.(phase := Polling(s.phase.failures)));
    }
  }

  lemma WaitSleepInv(s: State)
    requires Inv(s) && s.phase.WaitSleep?
    ensures Inv(OnSleepDone(s))
  {
    hide OutcomeOf, Marked, Split, Tracks;
    if s.now >= s.phase.until || s.aborted {
      InvMeansDeciding(s);
      if s.aborted {
        AbandonInv(s);
      } else {
        SuspendedInv(s.(phase := Polling(0)));
      }
    }
  }

  lemma DeadlineSleepInv(s: State)
    requires Inv(s) && s.phase.DeadlineSleep?
    ensures Inv(OnSleepDone(s))
  {
    hide OutcomeOf, Marked, Split, Tracks;
    if s.aborted {
      InvMeansDeciding(s);
      AbandonInv(s);
    } else if s.now >= s.phase.until {
      InvMeansDeciding(s);
      TimedOutInv(s);
    }
  }

  lemma TakeInv(s: State, ticket: Ticket)
    requires Inv(s) && s.phase == Taking
    ensures Inv(Top(s.(ticket := ticket, obtained := s.obtained + [ticket.id])))
    ensures Inv(FailWith(s, RetakeFailed, s.attempt))
  {
    hide OutcomeOf, Marked, Split, Tracks;
    TopInv(s.(ticket := ticket, obtained := s.obtained + [ticket.id]));
    FailWithInv(s, RetakeFailed, s.attempt);
  }

  lemma AfterStreamInv(s: State, expired: bool)
    requires Open(s) && !s.keepalive && |s.obtained| == s.attempt + 1 && s.attempt <= RetryBudget(s.cfg)
    requires s.committed <==> s.forwarded != []
    requires !expired && !s.aborted ==> s.forwarded == OutcomeOf(s.received).forwarded && !Marked(s.received)
    ensures Inv(AfterStream(s, expired))
  {
    hide OutcomeOf, Marked, Split, Tracks;
    if s.aborted {
      CloseInv(s, s.attempt + 1, AbortPhase);
    } else if expired && !s.committed {
      ExpireInv(s);
    } else if expired {
      FailWithInv(s, ExpiredAfterOutput, s.attempt + 1);
    } else {
      CloseInv(s, s.attempt + 1, DonePhase);
    }
  }

  lemma NothingReceived()
    ensures OutcomeOf("") == TextOutcome([], false) && !Marked("")
    ensures Tracks(Progress("", [], Framing.Reading), "")
  {
    assert IndexOfBoundary("") == -1;
    MarkerNeverForwarded("");
  }

  lemma FetchOkInv(s: State, hasBody: bool)
    requires Inv(s) && s.phase == Forwarding
    ensures Inv(OnFetchOk(s, hasBody))
  {
    NothingReceived();
    InvMeansDeciding(s);
    var t := s.(committed := false, pending := "", received := "", forwarded := []);
    if !hasBody {
      AfterStreamInv(t, false);
    }
  }

  lemma BodyReadInv(s: State, status: int, body: string)
    requires Deciding(s) && !s.keepalive
    ensures Inv(OnBodyRead(s, status, body))
  {
    hide OutcomeOf, Marked, Split, Tracks;
    if Marked(body) {
      ExpireInv(s);
    } else {
      FailWithInv(s, HttpError(status), s.attempt + 1);
    }
  }

  /** A stream in progress, ready to be left. */
  lemma InvMeansLeaving(s: State)
    requires Inv(s) && InStream(s.phase)
    ensures Open(s) && !s.keepalive && |s.obtained| == s.attempt + 1 && s.attempt <= RetryBudget(s.cfg)
    ensures s.committed <==> s.forwarded != []
  {
    hide OutcomeOf, Marked, Split, Tracks;
  }

  lemma TagKeepsGrammar(out: seq<Item>, a: nat, frames: seq<string>, more: seq<string>)
    requires Grammar(out, a, frames, None)
    ensures Grammar(out + Tag(a, more), a, frames + more, None)
  {
    var k := |out| - |frames|;
    var all := out + Tag(a, more);
    forall i | 0 <= i < |frames + more| ensures all[k + i] == Frame(a, (frames + more)[i]) {
      if i < |frames| {
        assert out[k + i] == Frame(a, frames[i]);
      } else {
        assert all[k + i] == Tag(a, more)[i - |frames|];
      }
    }
  }

  lemma ExtractFrom(forwarded: seq<string>, text: string)
    ensures var e := Extract([], text);
            Extract(forwarded, text) == e.(forwarded := forwarded + e.forwarded)
  {
    ExtractShift(forwarded, [], text);
    assert forwarded + [] == forwarded;
  }

  lemma {:induction false} ExtractShift(a: seq<string>, b: seq<string>, text: string)
    ensures Extract(a + b, text) == Extract(b, text).(forwarded := a + Extract(b, text).forwarded)
    decreases |text|
  {
    var idx := IndexOfBoundary(text);
    if idx >= 0 && !Marked(text[..idx + 2]) {
      var frame := text[..idx + 2];
      ExtractShift(a, b + [frame], text[idx + 2..]);
      assert (a + b) + [frame] == a + (b + [frame]);
    }
  }

  /** What a chunk leaves behind, in the splitter's terms. */
  lemma ChunkTracks(s: State, text: string)
    requires Tracks(Progress(s.pending, s.forwarded, Framing.Reading), s.received)
    requires |s.pending + Normalize(text)| <= MAX_PENDING_FRAME
    ensures var t := OnChunk(s, text);
            !s.aborted ==>
              && Tracks(Progress(t.pending, t.forwarded,
                   if t.phase == Streaming then Framing.Reading else Framing.Expired), t.received)
              && t.phase in {Streaming, Cancelling(OnMarker)}
  {
    var p := Progress(s.pending, s.forwarded, Framing.Reading);
    ReadingTracks(p, s.received, Normalize(text));
    ExtractFrom(s.forwarded, s.pending + Normalize(text));
    ExtractMeansSplit(s.forwarded, s.pending + Normalize(text));
  }

  lemma TracksMeansPrefix(p: Progress, text: string)
    requires Tracks(p, text)
    ensures p.forwarded <= OutcomeOf(text).forwarded
    ensures p.verdict == Framing.Reading && !Marked(p.pending) ==>
              p.forwarded == OutcomeOf(text).forwarded && !Marked(text)
  {
    MarkerNeverForwarded(text);
    var frames := Split(text).frames;
    assert frames[..|frames|] == frames;
  }

  /** Suspended inside the stream. */
  lemma InStreamInv(s: State)
    requires Open(s) && InStream(s.phase) && !s.keepalive
    requires |s.obtained| == s.attempt + 1 && s.attempt <= RetryBudget(s.cfg)
    requires s.committed <==> s.forwarded != []
    requires StreamInv(s)
    ensures Inv(s)
  {
    hide OutcomeOf, Marked, Split, Tracks;
  }

  lemma ChunkInv(s: State, text: string)
    requires Inv(s) && s.phase == Streaming
    ensures Inv(OnChunk(s, text))
  {
    InvMeansLeaving(s);
    if s.aborted {
      AfterStreamInv(s, false);
    } else {
      var p := Progress(s.pending, s.forwarded, Framing.Reading);
      var t := OnChunk(s, text);
      ReadingTracks(p, s.received, Normalize(text));
      if |s.pending + Normalize(text)| > MAX_PENDING_FRAME {
        TracksMeansPrefix(Progress(t.pending, t.forwarded, Framing.TooLong), t.received);
      } else {
        ChunkTracks(s, text);
        TracksMeansPrefix(Progress(t.pending, t.forwarded,
          if t.phase == Streaming then Framing.Reading else Framing.Expired), t.received);
        TagKeepsGrammar(s.out, s.attempt, s.forwarded, Extract([], t.pending).forwarded);
        TagKeepsGrammar(s.out, s.attempt, s.forwarded, Extract([], s.pending + Normalize(text)).forwarded);
      }
      InStreamInv(t);
    }
  }

  /** At the end of the body the leftover never ends a frame: the flush branch is dead. */
  lemma FlushIsDead(s: State)
    requires Inv(s) && s.phase == Streaming
    ensures !EndsFrame(s.pending)
  {
    SplitIsSplit(s.received);
    if EndsFrame(s.pending) {
      EndsFrameHasBoundary(s.pending);
    }
  }

  lemma StreamEndInv(s: State)
    requires Inv(s) && s.phase == Streaming
    ensures Inv(OnStreamEnd(s))
  {
    InvMeansLeaving(s);
    FlushIsDead(s);
    NothingReceived();
    TracksMeansPrefix(Progress(s.pending, s.forwarded, Framing.Reading), s.received);
    if s.aborted || s.pending == "" {
      AfterStreamInv(s, false);
    } else {
      AfterStreamInv(s.(pending := ""), Marked(s.pending));
    }
  }

  lemma TooLongInv(s: State)
    requires Open(s) && s.attempt <= RetryBudget(s.cfg)
    ensures Inv(OnReaderCancelled(s, OnTooLong))
  {
    hide OutcomeOf, Marked, Split, Tracks;
    FailWithInv(s, FrameTooLong, s.attempt + 1);
  }

  lemma ReaderCancelledInv(s: State)
    requires Inv(s) && s.phase.Cancelling?
    ensures Inv(OnReaderCancelled(s, s.phase.why))
  {
    hide OutcomeOf, Marked, Split, Tracks;
    InvMeansLeaving(s);
    match s.phase.why
    case OnAbort => AbandonInv(s);
    case OnMarker => AfterStreamInv(s, true);
    case OnTooLong => TooLongInv(s);
  }

  /** Events that leave the routine suspended where it is. */
  lemma BackgroundInv(s: State, e: Event)
    requires Inv(s) && (e.Tick? || e.ClientAbort? || e.ConsumerCancel? || e.KeepaliveTick?)
    ensures Inv(Step(s, e))
  {
    hide OutcomeOf, Marked, Split, Tracks;
    if e.KeepaliveTick? && s.keepalive && !s.aborted {
      assert s.forwarded == [] && s.terminal.None?;
      assert Grammar(s.out + [Keepalive], s.attempt, [], None);
    }
  }

  lemma StepInv(s: State, e: Event)
    requires Inv(s)
    ensures Inv(Step(s, e))
  {
    hide OutcomeOf, Marked, Split, Tracks, Abandon, FailWith, Catch;
    match e
    case Tick(_) => BackgroundInv(s, e);
    case ClientAbort => BackgroundInv(s, e);
    case ConsumerCancel => BackgroundInv(s, e);
    case KeepaliveTick => BackgroundInv(s, e);
    case PollOk(tickets, next) => if s.phase.Polling? { InvMeansDeciding(s); PollOkInv(s, tickets, next); }
    case PollFail => if s.phase.Polling? { InvMeansDeciding(s); PollFailInv(s, s.phase.failures); }
    case SleepDone =>
      if s.phase.PollBackoff? { InvMeansDeciding(s); BackoffInv(s); }
      else if s.phase.WaitSleep? { WaitSleepInv(s); }
      else if s.phase.DeadlineSleep? { DeadlineSleepInv(s); }
    case TakeOk(ticket) => if s.phase == Taking { TakeInv(s, ticket); }
    case TakeFail => if s.phase == Taking { TakeInv(s, s.ticket); }
    case FetchOk(hasBody) => if s.phase == Forwarding { FetchOkInv(s, hasBody); }
    case FetchHttp(status, body) =>
      if s.phase == Forwarding { InvMeansDeciding(s); SuspendedInv(s.(phase := ErrorBody(status, body))); }
    case FetchFail =>
      if s.phase == Forwarding {
        InvMeansDeciding(s);
        if s.aborted { AbandonInv(s); } else { FailWithInv(s, NetworkError, s.attempt + 1); }
      }
    case BodyRead => if s.phase.ErrorBody? { InvMeansDeciding(s); BodyReadInv(s, s.phase.status, s.phase.body); }
    case Chunk(text) => if s.phase == Streaming { ChunkInv(s, text); }
    case StreamEnd => if s.phase == Streaming { StreamEndInv(s); }
    case ReadFail => if s.phase == Streaming { InvMeansLeaving(s); CatchInv(s); }
    case ReaderCancelled => if s.phase.Cancelling? { ReaderCancelledInv(s); }
  }

  lemma InitInv(cfg: Config, initial: Ticket, now: int, aborted: bool)
    ensures Inv(Init(cfg, initial, now, aborted))
  {
    NothingReceived();
    var s := State(cfg, now, now + cfg.maxWaitMs, aborted, false, initial, 0, false, Forwarding,
                   "", false, [], [], None, "", [], [initial.id], None);
    TopInv(s);
  }

  lemma {:induction false} RunInv(s: State, events: seq<Event>)
    requires Inv(s)
    ensures Inv(Run(s, events))
  {
    if events == [] {
    } else {
      RunInv(s, events[..|events| - 1]);
      StepInv(Run(s, events[..|events| - 1]), events[|events| - 1]);
    }
  }

  // ---------------------------------------------------------------------------
  // What every run promises
  // ---------------------------------------------------------------------------

  function Keepalives(n: nat): seq<Item> {
    seq(n, i => Keepalive)
  }

  function Errors(terminal: Option<ErrorKind>): seq<Item> {
    if terminal.Some? then [ErrorEvent(terminal.value)] else []
  }

  /** A state some run from some configuration reaches. */
  ghost predicate Reachable(s: State) {
    exists cfg, initial, now, aborted, events ::
      s == Run(Init(cfg, initial, now, aborted), events)
  }

  lemma InitReachable(cfg: Config, initial: Ticket, now: int, aborted: bool)
    ensures Reachable(Init(cfg, initial, now, aborted))
  {
    assert Run(Init(cfg, initial, now, aborted), []) == Init(cfg, initial, now, aborted);
  }

  lemma ReachableStep(s: State, e: Event)
    requires Reachable(s)
    ensures Reachable(Step(s, e))
  {
    hide Init, Step;
    var cfg, initial, now, aborted, events :| s == Run(Init(cfg, initial, now, aborted), events);
    assert (events + [e])[..|events|] == events;
    assert Step(s, e) == Run(Init(cfg, initial, now, aborted), events + [e]);
  }

  lemma ReachableInv(s: State)
    requires Reachable(s)
    ensures Inv(s)
  {
    var cfg, initial, now, aborted, events :| s == Run(Init(cfg, initial, now, aborted), events);
    InitInv(cfg, initial, now, aborted);
    RunInv(Init(cfg, initial, now, aborted), events);
  }

  lemma GrammarShape(out: seq<Item>, attempt: nat, frames: seq<string>, terminal: Option<ErrorKind>) returns (n: nat)
    requires Grammar(out, attempt, frames, terminal)
    ensures out == Keepalives(n) + Tag(attempt, frames) + Errors(terminal)
  {
    var errors := Errors(terminal);
    n := |out| - |frames| - |errors|;
    var whole := Keepalives(n) + Tag(attempt, frames) + errors;
    forall i | 0 <= i < |out| ensures out[i] == whole[i] {
      if n <= i < n + |frames| {
        assert out[n + (i - n)] == Frame(attempt, frames[i - n]);
      }
    }
  }

  /**
   * The output grammar: keepalives, then frames of the last attempt only, then at most
   * one terminal error.  The frames are the first frames of what that attempt received,
   * stop before the first one carrying the marker, and never carry it themselves.
   */
  lemma OutputGrammar(s: State)
    requires Reachable(s)
    ensures exists n: nat :: s.out == Keepalives(n) + Tag(s.attempt, s.forwarded) + Errors(s.terminal)
    ensures s.forwarded <= OutcomeOf(s.received).forwarded
    ensures !Marked(Concat(s.forwarded)) && Concat(s.forwarded) <= s.received
    ensures s.terminal.Some? ==> s.phase == Closed
  {
    ReachableInv(s);
    var n := GrammarShape(s.out, s.attempt, s.forwarded, s.terminal);
    PrefixUnmarked(s.received, s.forwarded);
  }

  lemma PrefixUnmarked(text: string, fs: seq<string>)
    requires fs <= OutcomeOf(text).forwarded
    ensures !Marked(Concat(fs)) && Concat(fs) <= text
  {
    var p := Split(text);
    SplitIsSplit(text);
    MarkerNeverForwarded(text);
    var all := OutcomeOf(text).forwarded;
    assert all == fs + all[|fs|..];
    ConcatAppend(fs, all[|fs|..]);
    MarkedFrames(fs, "");
    assert Concat(fs) + "" == Concat(fs) && !Marked("");
  }

  /** Once the client is gone nothing more is enqueued, whatever happens. */
  lemma {:induction false} SilentAfterAbort(s: State, events: seq<Event>)
    requires s.aborted
    ensures Run(s, events).aborted && Run(s, events).out == s.out
  {
    if events == [] {
    } else {
      SilentAfterAbort(s, events[..|events| - 1]);
      SilentStep(Run(s, events[..|events| - 1]), events[|events| - 1]);
    }
  }

  /** `t` came from `s` with the client gone and nothing enqueued; the routine is that close to closed. */
  ghost predicate Quiet(s: State, t: State, steps: nat) {
    s.aborted ==> t.aborted && t.out == s.out && StepsToClose(t.phase) <= steps
  }

  lemma QuietEndings(s: State, kind: ErrorKind, attempts: nat, expired: bool)
    ensures Quiet(s, FailWith(s, kind, attempts), 0)
    ensures Quiet(s, Abandon(s), 0)
    ensures Quiet(s, AfterStream(s, expired), 0)
    ensures Quiet(s, Top(s), 0)
    ensures Quiet(s, Expire(s), 1)
  {
    hide OutcomeOf, Marked, Split, Tracks;
  }

  lemma QuietPolls(s: State, tickets: seq<TicketState>, next: Option<nat>, failures: nat)
    ensures Quiet(s, OnPollOk(s, tickets, next), 0)
    ensures Quiet(s, OnPollFail(s, failures), 0)
    ensures Waiting(s.phase) && !s.phase.Polling? ==> Quiet(s, OnSleepDone(s), 0)
  {
    hide OutcomeOf, Marked, Split, Tracks;
    QuietEndings(s, InternalError, s.attempt + 1, false);
  }

  lemma QuietStream(s: State, hasBody: bool, text: string, why: CancelReason, status: int)
    ensures Quiet(s, OnFetchOk(s, hasBody), 1)
    ensures Quiet(s, OnBodyRead(s, status, text), 1)
    ensures Quiet(s, OnChunk(s, text), 0)
    ensures Quiet(s, OnStreamEnd(s), 0)
    ensures Quiet(s, OnReaderCancelled(s, why), 0)
  {
    hide FailWith, Abandon, Top;
    QuietEndings(s, FrameTooLong, s.attempt + 1, false);
    QuietEndings(s, HttpError(status), s.attempt + 1, true);
    var t := s.(committed := false, pending := "", received := "", forwarded := []);
    QuietEndings(t, InternalError, 1, false);
  }

  /** One section with the client gone: nothing enqueued, and an answer brings the end closer. */
  ghost predicate QuietStep(s: State, e: Event) {
    var t := Step(s, e);
    s.aborted ==>
      t.aborted && t.out == s.out && (Resumes(s, e) ==> StepsToClose(t.phase) < StepsToClose(s.phase))
  }

  lemma QuietSleepStep(s: State)
    ensures QuietStep(s, SleepDone)
  {
    QuietPolls(s, [], None, 0);
  }

  lemma QuietTop(s: State, ticket: Ticket)
    ensures QuietStep(s, TakeOk(ticket))
  {
    QuietEndings(s.(ticket := ticket, obtained := s.obtained + [ticket.id]), RetakeFailed, 0, false);
  }

  lemma QuietWaitStep(s: State, e: Event)
    requires e.PollOk? || e.PollFail? || e.SleepDone? || e.TakeOk? || e.TakeFail?
    ensures QuietStep(s, e)
  {
    hide OnPollOk, OnPollFail, FailWith;
    match e
    case PollOk(tickets, next) => QuietPolls(s, tickets, next, 0);
    case PollFail => if s.phase.Polling? { QuietPolls(s, [], None, s.phase.failures); }
    case SleepDone => QuietSleepStep(s);
    case TakeOk(ticket) => QuietTop(s, ticket);
    case TakeFail => QuietEndings(s, RetakeFailed, s.attempt, false);
  }

  lemma QuietForwardStep(s: State, e: Event)
    requires e.FetchOk? || e.FetchHttp? || e.FetchFail? || e.BodyRead?
    ensures QuietStep(s, e)
  {
    match e
    case FetchOk(hasBody) => QuietStream(s, hasBody, "", OnAbort, 0);
    case FetchHttp(_, _) =>
    case FetchFail => QuietEndings(s, NetworkError, s.attempt + 1, false);
    case BodyRead => if s.phase.ErrorBody? { QuietStream(s, false, s.phase.body, OnAbort, s.phase.status); }
  }

  lemma QuietReadStep(s: State, e: Event)
    requires e.Chunk? || e.StreamEnd? || e.ReadFail? || e.ReaderCancelled?
    ensures QuietStep(s, e)
  {
    hide OnChunk, OnStreamEnd, OnReaderCancelled, FailWith;
    match e
    case Chunk(text) => QuietStream(s, false, text, OnAbort, 0);
    case StreamEnd => QuietStream(s, false, "", OnAbort, 0);
    case ReadFail => QuietEndings(s, InternalError, s.attempt + 1, false);
    case ReaderCancelled => if s.phase.Cancelling? { QuietStream(s, false, "", s.phase.why, 0); }
  }

  lemma SilentStep(s: State, e: Event)
    ensures QuietStep(s, e)
  {
    if e.PollOk? || e.PollFail? || e.SleepDone? || e.TakeOk? || e.TakeFail? {
      QuietWaitStep(s, e);
    } else if e.FetchOk? || e.FetchHttp? || e.FetchFail? || e.BodyRead? {
      QuietForwardStep(s, e);
    } else if e.Chunk? || e.StreamEnd? || e.ReadFail? || e.ReaderCancelled? {
      QuietReadStep(s, e);
    }
  }

  /**
   * Conservation of tickets: every ticket obtained is settled at most once, and exactly
   * once when the bridge has closed; retakes stay within the retry budget.
   */
  lemma TicketsSettledOnce(s: State)
    requires Reachable(s)
    ensures NoDuplicates(s.settled)
    ensures forall id :: id in s.settled ==> id in s.obtained
    ensures s.phase == Closed ==> forall id :: id in s.obtained <==> id in s.settled
    ensures forall id :: id in s.obtained && id !in s.settled ==> id == s.ticket.id
    ensures |s.obtained| - 1 <= RetryBudget(s.cfg)
  {
    hide OutcomeOf, Marked, Split, Tracks;
    ReachableInv(s);
  }

  /** The outcome is there exactly when the bridge has closed, and never changes afterwards. */
  lemma OutcomeResolvedOnce(s: State, later: seq<Event>)
    requires Reachable(s)
    ensures s.outcome.Some? <==> s.phase == Closed
    ensures s.outcome.Some? ==> 1 <= s.outcome.value.attempts <= 1 + RetryBudget(s.cfg)
    ensures s.outcome.Some? ==> Run(s, later).outcome == s.outcome && Run(s, later).out == s.out
                                && Run(s, later).settled == s.settled
  {
    ReachableInv(s);
    if s.outcome.Some? {
      ClosedForever(s, later);
    }
  }

  lemma {:induction false} ClosedForever(s: State, later: seq<Event>)
    requires s.phase == Closed && !s.keepalive
    ensures var t := Run(s, later);
            && t.phase == Closed && !t.keepalive
            && t.outcome == s.outcome && t.out == s.out && t.settled == s.settled
  {
    if later == [] {
    } else {
      ClosedForever(s, later[..|later| - 1]);
    }
  }

  /** A `done` outcome means the whole body of the last attempt reached the client, unmarked. */
  lemma DoneMeansWholeBody(s: State)
    requires Reachable(s) && s.outcome.Some? && s.outcome.value.terminal == DonePhase
    ensures exists n: nat :: s.out == Keepalives(n) + Tag(s.attempt, Split(s.received).frames)
    ensures !Marked(s.received)
  {
    hide Reachable, TicketsInv, OutputInv, StreamInv;
    ReachableInv(s);
    OutputGrammar(s);
    MarkerNeverForwarded(s.received);
    var frames := Split(s.received).frames;
    assert OutcomeOf(s.received).forwarded == frames[..FirstMarked(frames)];
    assert frames[..|frames|] == frames;
    var n: nat :| s.out == Keepalives(n) + Tag(s.attempt, s.forwarded) + Errors(s.terminal);
    assert s.out == Keepalives(n) + Tag(s.attempt, frames);
  }

  /** A timeout is reported only once the total wait budget has really passed. */
  lemma TimeoutIsLate(s: State)
    requires Reachable(s) && ErrorEvent(Timeout) in s.out
    ensures s.cfg.maxWaitMs > 0 && s.now >= s.deadlineAt
  {
    hide Reachable, TicketsInv, OutputInv, StreamInv;
    ReachableInv(s);
    OutputGrammar(s);
    var n: nat :| s.out == Keepalives(n) + Tag(s.attempt, s.forwarded) + Errors(s.terminal);
  }

  // ---------------------------------------------------------------------------
  // An aborted bridge closes
  // ---------------------------------------------------------------------------

  /** The event is the answer the suspended routine is waiting for. */
  predicate Resumes(s: State, e: Event) {
    match s.phase
    case Polling(_) => e.PollOk? || e.PollFail?
    case PollBackoff(_) => e.SleepDone?
    case WaitSleep(_) => e.SleepDone?
    case DeadlineSleep(_) => e.SleepDone?
    case Taking => e.TakeOk? || e.TakeFail?
    case Forwarding => e.FetchOk? || e.FetchHttp? || e.FetchFail?
    case ErrorBody(_, _) => e.BodyRead?
    case Streaming => e.Chunk? || e.StreamEnd? || e.ReadFail?
    case Cancelling(_) => e.ReaderCancelled?
    case Closed => false
  }

  function StepsToClose(p: Phase): nat {
    match p
    case Closed => 0
    case Forwarding => 3
    case ErrorBody(_, _) => 2
    case _ => 1
  }

  /** After an abort every answer brings the bridge closer to closed, at most three away. */
  lemma AbortedBridgeCloses(s: State, e: Event)
    requires s.aborted && Resumes(s, e)
    ensures StepsToClose(Step(s, e).phase) < StepsToClose(s.phase) <= 3
  {
    SilentStep(s, e);
  }

  /**
   * The answers on which an aborted bridge still ends as an error: a poll that keeps failing,
   * a failed retake, a failed read, an error body, and a frame over the cap.
   */
  predicate EndsAsError(s: State, e: Event) {
    || e.PollFail? || s.phase.PollBackoff? || e.TakeFail? || e.ReadFail?
    || s.phase.ErrorBody? || s.phase == Cancelling(OnTooLong)
  }

  /** What an aborted bridge `s` has come to, if it has closed. */
  ghost predicate ClosedAs(s: State, t: State, terminal: TerminalPhase) {
    t.phase == Closed ==> t.outcome.Some? && t.out == s.out && t.outcome.value.terminal == terminal
  }

  lemma FailureEnds(s: State, kind: ErrorKind, attempts: nat)
    requires s.aborted && s.outcome.None?
    ensures ClosedAs(s, FailWith(s, kind, attempts), ErrorPhase)
  {
  }

  lemma AbandonEnds(s: State)
    requires s.aborted && s.outcome.None?
    ensures ClosedAs(s, Abandon(s), AbortPhase)
  {
  }

  lemma StreamEnds(s: State, expired: bool)
    requires s.aborted && s.outcome.None?
    ensures ClosedAs(s, AfterStream(s, expired), AbortPhase)
  {
    hide Expire, FailWith;
  }

  lemma ErrorBodyEnds(s: State, status: int, body: string)
    requires s.aborted && s.outcome.None?
    ensures ClosedAs(s, OnBodyRead(s, status, body), ErrorPhase)
  {
    var over := Settle(s, s.ticket.id).(attempt := s.attempt + 1);
    FailureEnds(s, HttpError(status), s.attempt + 1);
    FailureEnds(over, ExhaustedRetries(over.attempt), over.attempt);
    hide FailWith, Marked;
  }

  lemma CancelEnds(s: State, why: CancelReason)
    requires s.aborted && s.outcome.None?
    ensures ClosedAs(s, OnReaderCancelled(s, why), if why == OnTooLong then ErrorPhase else AbortPhase)
  {
    FailureEnds(s, FrameTooLong, s.attempt + 1);
    AbandonEnds(s);
    StreamEnds(s, true);
    hide FailWith, Abandon, AfterStream, ClosedAs;
  }

  lemma ReadEnds(s: State, e: Event)
    requires s.aborted && s.outcome.None? && s.phase == Streaming && (e.Chunk? || e.StreamEnd? || e.ReadFail?)
    ensures ClosedAs(s, Step(s, e), if e.ReadFail? then ErrorPhase else AbortPhase)
  {
    FailureEnds(s, InternalError, s.attempt + 1);
    StreamEnds(s, false);
    hide FailWith, AfterStream, ClosedAs, Marked, Extract, Normalize, Abandon, Expire, Top, OnPollOk;
  }

  lemma FetchEnds(s: State, e: Event)
    requires s.aborted && s.outcome.None? && s.phase == Forwarding && (e.FetchOk? || e.FetchHttp? || e.FetchFail?)
    ensures ClosedAs(s, Step(s, e), AbortPhase)
  {
    AbandonEnds(s);
    StreamEnds(s.(committed := false, pending := "", received := "", forwarded := []), false);
    hide FailWith, AfterStream, Abandon, Marked, Extract, Normalize, Expire, Top, OnPollOk;
  }

  lemma TakeEnds(s: State, e: Event)
    requires s.aborted && s.outcome.None? && s.phase == Taking && (e.TakeOk? || e.TakeFail?)
    ensures ClosedAs(s, Step(s, e), if e.TakeFail? then ErrorPhase else AbortPhase)
  {
    FailureEnds(s, RetakeFailed, s.attempt);
    if e.TakeOk? {
      AbandonEnds(s.(ticket := e.ticket, obtained := s.obtained + [e.ticket.id]));
    }
    hide FailWith, AfterStream, Abandon, Marked, Extract, Normalize, Expire, OnPollOk;
  }

  lemma WaitEnds(s: State, e: Event)
    requires s.aborted && s.outcome.None? && Resumes(s, e)
    requires s.phase.Polling? || s.phase.PollBackoff? || s.phase.WaitSleep? || s.phase.DeadlineSleep?
    ensures ClosedAs(s, Step(s, e), if e.PollFail? || s.phase.PollBackoff? then ErrorPhase else AbortPhase)
  {
    FailureEnds(s, InternalError, s.attempt + 1);
    AbandonEnds(s);
    hide FailWith, AfterStream, Abandon, ClosedAs, Marked, Extract, Normalize, Expire, Top;
  }

  /** Anything that is not the awaited answer leaves the routine suspended where it is. */
  lemma OnlyAnswersResume(s: State, e: Event)
    requires !Resumes(s, e)
    ensures Step(s, e).phase == s.phase
  {
  }

  /**
   * How an aborted bridge ends, in whatever phase: the event that closes it makes the
   * outcome an abort exactly when it is not one of those that end it as an error.
   */
  lemma AbortedEndsIff(s: State, e: Event)
    requires Reachable(s) && s.aborted && s.phase != Closed && Step(s, e).phase == Closed
    ensures var t := Step(s, e);
            && t.outcome.Some? && t.out == s.out
            && (t.outcome.value.terminal == AbortPhase <==> !EndsAsError(s, e))
            && (t.outcome.value.terminal == ErrorPhase <==> EndsAsError(s, e))
  {
    OutcomeResolvedOnce(s, []);
    hide Reachable, Run;
    if !Resumes(s, e) {
      OnlyAnswersResume(s, e);
    }
    match s.phase
    case Taking => TakeEnds(s, e);
    case Forwarding => FetchEnds(s, e);
    case ErrorBody(status, body) => ErrorBodyEnds(s, status, body);
    case Streaming => ReadEnds(s, e);
    case Cancelling(why) => CancelEnds(s, why);
    case _ => WaitEnds(s, e);
    hide FailWith, AfterStream, Abandon, OnBodyRead, OnReaderCancelled, Expire, Top, OnChunk, OnStreamEnd, OnPollOk, OnPollFail, OnSleepDone, OnTakeOk, OnFetchOk, OnFetchFail, Catch;
  }

  /** Two runs that end so: the client leaves while a poll is failing, and while the body is read. */
  lemma AbortReportedAsError(cfg: Config, ticket: Ticket, now: int)
    ensures var s := Init(cfg, ticket, now, false);
            var t := if IsTicketReady(ticket.state) then Step(Step(Step(s, FetchOk(true)), ClientAbort), ReadFail)
                     else Step(Step(Step(s, PollFail), ClientAbort), SleepDone);
            t.aborted && t.outcome.Some? && t.outcome.value.terminal == ErrorPhase
  {
    var s := Init(cfg, ticket, now, false);
    hide Marked, Extract, Normalize, Expire, AfterStream;
    if IsTicketReady(ticket.state) {
      FailureEnds(Step(Step(s, FetchOk(true)), ClientAbort), InternalError, 1);
    } else {
      FailureEnds(Step(Step(s, PollFail), ClientAbort), InternalError, 1);
    }
  }
}
