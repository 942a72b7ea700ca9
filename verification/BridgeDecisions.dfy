/**
 * What every answer leads to in the off-peak bridge (async/bridge.ts:115-501): for a bridge
 * that a run reaches and whose client is still there, each decision with its exact condition,
 * and what a cooperating upstream brings about.
 */
module BridgeDecisions {
  import opened Util
  import opened Framing
  import opened Bridge

  // ---------------------------------------------------------------------------
  // What is looked for in the text
  // ---------------------------------------------------------------------------

  predicate ReadsExpired(s: string, i: int) {
    0 <= i <= |s| - 23 && s[i..i + 23] == "off-peak-ticket-expired"
  }

  /** A text is marked exactly if the marker stands somewhere in it. */
  lemma MarkedIff(s: string)
    ensures Marked(s) <==> exists i :: ReadsExpired(s, i)
  {
    assert |EXPIRED_MARKER| == 23;
    if Marked(s) {
      var i :| 0 <= i <= |s| && OccursAt(s, EXPIRED_MARKER, i);
      assert ReadsExpired(s, i);
    }
    if i :| ReadsExpired(s, i) {
      assert OccursAt(s, EXPIRED_MARKER, i);
    }
  }

  /** Every line ending, whichever of the three it is, becomes one line feed; everything else stands. */
  lemma LineEndingsBecomeOne(s: string)
    ensures Normalize("") == ""
    ensures s != "" ==>
              if s[0] != '\r' then Normalize(s) == [s[0]] + Normalize(s[1..])
              else if |s| >= 2 && s[1] == '\n' then Normalize(s) == "\n" + Normalize(s[2..])
              else Normalize(s) == "\n" + Normalize(s[1..])
  {
  }

  // ---------------------------------------------------------------------------
  // The ways on
  // ---------------------------------------------------------------------------

  ghost predicate SettlesItsTicket(s: State, t: State) {
    forall id :: id in t.settled <==> id in s.settled || id == s.ticket.id
  }

  /** The bridge has closed with this outcome, and told the client of this error if there is one. */
  ghost predicate Ends(s: State, t: State, error: Option<ErrorKind>, attempts: nat, terminal: TerminalPhase) {
    && t.phase == Closed && !t.keepalive && t.outcome == Some(Outcome(attempts, s.ticket.id, terminal))
    && t.out == s.out + (match error case Some(kind) => [ErrorEvent(kind)] case None => [])
    && SettlesItsTicket(s, t)
  }

  /** The ticket is used up: settled, and another one is taken while the budget lasts. */
  ghost predicate UsesUpTicket(s: State, t: State) {
    if s.attempt + 1 <= s.cfg.maxRetries
    then t.phase == Taking && t.attempt == s.attempt + 1 && !t.keepalive && t.out == s.out && t.outcome.None? && SettlesItsTicket(s, t)
    else Ends(s, t, Some(ExhaustedRetries(s.attempt + 1)), s.attempt + 1, ErrorPhase)
  }

  /** Nothing but the phase and the keepalive timer has changed. */
  predicate Moves(s: State, t: State, phase: Phase, keepalive: bool) {
    t == s.(phase := phase, keepalive := keepalive)
  }

  ghost predicate Attended(s: State) {
    Reachable(s) && !s.aborted
  }

  /** What is needed of a reachable state. */
  lemma AttendedFacts(s: State)
    requires Attended(s)
    ensures !s.cancelled && (s.outcome.Some? <==> s.phase == Closed)
    ensures InStream(s.phase) ==> (s.committed <==> s.forwarded != [])
    ensures s.keepalive ==> s.phase.Polling? || s.phase.PollBackoff? || s.phase.WaitSleep? || s.phase.DeadlineSleep?
  {
    ReachableInv(s);
    hide Split, Marked, Tracks, Grammar;
  }

  lemma FailureEnds(s: State, kind: ErrorKind, attempts: nat)
    requires !s.aborted && !s.cancelled && s.outcome.None?
    ensures Ends(s, FailWith(s, kind, attempts), Some(kind), attempts, ErrorPhase)
  {
  }

  lemma ExpiryUsesUp(s: State)
    requires !s.aborted && !s.cancelled && s.outcome.None? && !s.keepalive
    ensures UsesUpTicket(s, Expire(s))
  {
    var over := Settle(s, s.ticket.id).(attempt := s.attempt + 1);
    FailureEnds(over, ExhaustedRetries(over.attempt), over.attempt);
    hide FailWith;
  }

  // ---------------------------------------------------------------------------
  // Waiting for the ticket
  // ---------------------------------------------------------------------------

  predicate PastDeadline(s: State) {
    s.cfg.maxWaitMs > 0 && s.now >= s.deadlineAt
  }

  /** A ticket that is neither queued nor ready is used up, or is a timeout once the budget has passed. */
  lemma UnusableDecides(s: State)
    requires !s.aborted && !s.cancelled && s.outcome.None?
    ensures var t := ExpiredInQueue(s);
            if PastDeadline(s) then Ends(s, t, Some(Timeout), s.attempt + 1, ErrorPhase) else UsesUpTicket(s, t)
  {
    ExpiryUsesUp(s.(keepalive := false));
    FailureEnds(s.(keepalive := false), Timeout, s.attempt + 1);
    hide FailWith, Expire;
  }

  /**
   * What a poll answer leads to: the fetch if the first ticket is ready or active; a sleep if
   * it is queued, out the wait budget if the next poll would come too late; anything else
   * uses the ticket up, or is a timeout once the budget has passed.
   */
  ghost predicate PollLeadsTo(s: State, t: State, tickets: seq<TicketState>, delay: nat) {
    if |tickets| > 0 && (tickets[0] == Ready || tickets[0] == Active) then Moves(s, t, Forwarding, false)
    else if |tickets| > 0 && tickets[0] == Queued then
      if s.cfg.maxWaitMs > 0 && s.now + delay > s.deadlineAt
      then Moves(s, t, DeadlineSleep(if s.now > s.deadlineAt then s.now else s.deadlineAt), s.keepalive)
      else Moves(s, t, WaitSleep(s.now + delay), s.keepalive)
    else if PastDeadline(s) then Ends(s, t, Some(Timeout), s.attempt + 1, ErrorPhase)
    else UsesUpTicket(s, t)
  }

  lemma PollOkLeads(s: State, tickets: seq<TicketState>, next: Option<nat>)
    requires !s.aborted && !s.cancelled && s.outcome.None?
    ensures PollLeadsTo(s, OnPollOk(s, tickets, next), tickets, if next.Some? then next.value else s.cfg.pollIntervalMs)
  {
    UnusableDecides(s);
    hide Ends, UsesUpTicket, ExpiredInQueue;
  }

  lemma PollDecides(s: State, tickets: seq<TicketState>, nextPollAfterMs: Option<nat>)
    requires Attended(s) && s.phase.Polling?
    ensures PollLeadsTo(s, Step(s, PollOk(tickets, nextPollAfterMs)), tickets,
                        if nextPollAfterMs.Some? then nextPollAfterMs.value else s.cfg.pollIntervalMs)
  {
    AttendedFacts(s);
    PollOkLeads(s, tickets, nextPollAfterMs);
    hide Reachable, PollLeadsTo, OnPollOk;
  }

  /** A failed poll is repeated after a backoff; the third in a row ends the bridge. */
  lemma PollFailureDecides(s: State)
    requires Attended(s) && s.phase.Polling?
    ensures var t := Step(s, PollFail);
            if s.phase.failures < 2 then Moves(s, t, PollBackoff(s.phase.failures + 1), s.keepalive)
            else Ends(s, t, Some(InternalError), s.attempt + 1, ErrorPhase)
  {
    AttendedFacts(s);
    hide Reachable, Marked, AfterStream, OnChunk, OnStreamEnd, OnFetchOk, Top, Expire;
  }

  /** Waking up: a backoff polls with its failures remembered, a wait with none, and the end of the budget is a timeout. */
  lemma WakeDecides(s: State)
    requires Attended(s)
    ensures var t := Step(s, SleepDone);
            match s.phase
            case PollBackoff(failures) => Moves(s, t, Polling(failures), s.keepalive)
            case WaitSleep(until) => if s.now >= until then Moves(s, t, Polling(0), s.keepalive) else t == s
            case DeadlineSleep(until) => if s.now >= until then Ends(s, t, Some(Timeout), s.attempt + 1, ErrorPhase) else t == s
            case _ => t == s
  {
    AttendedFacts(s);
    hide Reachable, Marked, AfterStream, OnChunk, OnStreamEnd, OnFetchOk, Top, Expire;
  }

  // ---------------------------------------------------------------------------
  // Keepalives
  // ---------------------------------------------------------------------------

  /** The keepalive timer runs exactly while the bridge waits for its ticket. */
  ghost predicate TimerRuns(s: State) {
    s.keepalive <==> s.phase.Polling? || s.phase.PollBackoff? || s.phase.WaitSleep? || s.phase.DeadlineSleep?
  }

  lemma TimerStops(s: State, kind: ErrorKind, attempts: nat)
    ensures TimerRuns(FailWith(s, kind, attempts)) && TimerRuns(Abandon(s))
  {
  }

  lemma TimerAfterExpiry(s: State)
    requires !s.keepalive
    ensures TimerRuns(Expire(s))
  {
    var over := Settle(s, s.ticket.id).(attempt := s.attempt + 1);
    TimerStops(over, ExhaustedRetries(over.attempt), over.attempt);
    hide FailWith;
  }

  lemma TimerAfterStream(s: State, expired: bool)
    requires !s.keepalive
    ensures TimerRuns(AfterStream(s, expired))
  {
    TimerAfterExpiry(s);
    TimerStops(s, ExpiredAfterOutput, s.attempt + 1);
    hide FailWith, Expire;
  }

  lemma TimerAfterQueue(s: State)
    ensures TimerRuns(ExpiredInQueue(s))
  {
    TimerStops(s.(keepalive := false), Timeout, s.attempt + 1);
    TimerAfterExpiry(s.(keepalive := false));
    hide FailWith, Expire;
  }

  lemma TimerAfterPoll(s: State, tickets: seq<TicketState>, next: Option<nat>)
    requires TimerRuns(s) && s.phase.Polling?
    ensures TimerRuns(OnPollOk(s, tickets, next)) && TimerRuns(OnPollFail(s, s.phase.failures))
  {
    TimerStops(s, InternalError, s.attempt + 1);
    TimerAfterQueue(s);
    hide FailWith, Abandon, ExpiredInQueue;
  }

  lemma TimerAfterSleep(s: State)
    requires TimerRuns(s)
    ensures TimerRuns(OnSleepDone(s))
  {
    TimerStops(s, InternalError, s.attempt + 1);
    TimerStops(s.(keepalive := false), Timeout, s.attempt + 1);
    hide FailWith, Abandon;
  }

  lemma TimerAfterTop(s: State)
    ensures TimerRuns(Top(s))
  {
    TimerStops(s, InternalError, 0);
    hide Abandon;
  }

  lemma TimerAfterFetch(s: State, hasBody: bool)
    requires !s.keepalive && s.phase == Forwarding
    ensures TimerRuns(OnFetchOk(s, hasBody)) && TimerRuns(OnFetchFail(s))
  {
    TimerStops(s, NetworkError, s.attempt + 1);
    TimerAfterStream(s.(committed := false, pending := "", received := "", forwarded := []), false);
    hide FailWith, Abandon, AfterStream;
  }

  lemma TimerAfterBody(s: State, status: int, body: string)
    requires !s.keepalive
    ensures TimerRuns(OnBodyRead(s, status, body))
  {
    TimerStops(s, HttpError(status), s.attempt + 1);
    TimerAfterExpiry(s);
    hide FailWith, Expire, Marked;
  }

  lemma TimerAfterChunk(s: State, text: string)
    requires !s.keepalive
    ensures TimerRuns(OnChunk(s, text))
  {
    TimerAfterStream(s, false);
    hide AfterStream, Marked, Extract, Normalize, Tag;
  }

  lemma TimerAfterEnd(s: State)
    requires !s.keepalive
    ensures TimerRuns(OnStreamEnd(s))
  {
    TimerAfterStream(s, false);
    TimerAfterStream(s.(pending := ""), true);
    TimerAfterStream(s.(pending := ""), false);
    TimerAfterStream(s.(pending := "", forwarded := s.forwarded + [s.pending], out := s.out + [Frame(s.attempt, s.pending)]), false);
    hide AfterStream, Marked, EndsFrame;
  }

  lemma TimerAfterCancel(s: State, why: CancelReason)
    requires !s.keepalive
    ensures TimerRuns(OnReaderCancelled(s, why))
  {
    TimerStops(s, FrameTooLong, s.attempt + 1);
    TimerAfterStream(s, true);
    hide FailWith, Abandon, AfterStream;
  }

  lemma TimerStep(s: State, e: Event)
    requires TimerRuns(s)
    ensures TimerRuns(Step(s, e))
  {
    match e {
      case PollOk(tickets, next) =>
        if s.phase.Polling? {
          TimerAfterPoll(s, tickets, next);
        }
      case PollFail =>
        if s.phase.Polling? {
          TimerAfterPoll(s, [], None);
        }
      case SleepDone => TimerAfterSleep(s);
      case TakeOk(ticket) => TimerAfterTop(s.(ticket := ticket, obtained := s.obtained + [ticket.id]));
      case TakeFail => TimerStops(s, RetakeFailed, s.attempt);
      case FetchOk(hasBody) =>
        if s.phase == Forwarding {
          TimerAfterFetch(s, hasBody);
        }
      case FetchFail =>
        if s.phase == Forwarding {
          TimerAfterFetch(s, false);
        }
      case BodyRead =>
        if s.phase.ErrorBody? {
          TimerAfterBody(s, s.phase.status, s.phase.body);
        }
      case Chunk(text) =>
        if s.phase == Streaming {
          TimerAfterChunk(s, text);
        }
      case ReaderCancelled =>
        if s.phase.Cancelling? {
          TimerAfterCancel(s, s.phase.why);
        }
      case StreamEnd =>
        if s.phase == Streaming {
          TimerAfterEnd(s);
        }
      case ReadFail => TimerStops(s, InternalError, s.attempt + 1);
      case _ =>
    }
    hide OnPollOk, OnPollFail, OnSleepDone, Top, OnFetchOk, OnFetchFail, OnBodyRead, OnChunk, OnStreamEnd, OnReaderCancelled, FailWith;
  }

  lemma {:induction false} TimerRun(cfg: Config, initial: Ticket, now: int, aborted: bool, events: seq<Event>)
    ensures TimerRuns(Run(Init(cfg, initial, now, aborted), events))
  {
    hide Step;
    if events == [] {
    } else {
      TimerRun(cfg, initial, now, aborted, events[..|events| - 1]);
      TimerStep(Run(Init(cfg, initial, now, aborted), events[..|events| - 1]), events[|events| - 1]);
    }
  }

  /** A keepalive is sent exactly when one is due while the bridge waits for its ticket. */
  lemma KeepaliveWhileWaiting(s: State)
    requires Attended(s)
    ensures var t := Step(s, KeepaliveTick);
            if s.phase.Polling? || s.phase.PollBackoff? || s.phase.WaitSleep? || s.phase.DeadlineSleep?
            then t == s.(out := s.out + [Keepalive]) else t == s
  {
    var cfg, initial, now, aborted, events :| s == Run(Init(cfg, initial, now, aborted), events);
    TimerRun(cfg, initial, now, aborted, events);
    hide Run, Init;
  }

  // ---------------------------------------------------------------------------
  // Taking another ticket
  // ---------------------------------------------------------------------------

  /** The new ticket replaces the old one: fetched at once if it is ready, polled otherwise. */
  lemma TakeDecides(s: State, ticket: Ticket)
    requires Attended(s) && s.phase == Taking
    ensures Step(s, TakeOk(ticket)) ==
              if ticket.state == Ready || ticket.state == Active
              then s.(ticket := ticket, obtained := s.obtained + [ticket.id], phase := Forwarding, keepalive := false)
              else s.(ticket := ticket, obtained := s.obtained + [ticket.id], phase := Polling(0), keepalive := true)
    ensures Ends(s, Step(s, TakeFail), Some(RetakeFailed), s.attempt, ErrorPhase)
  {
    AttendedFacts(s);
    hide Reachable, Marked, AfterStream, OnChunk, OnStreamEnd, OnFetchOk, Expire;
  }

  /** The bridge starts like this, too. */
  lemma StartDecides(cfg: Config, initial: Ticket, now: int)
    ensures var s := Init(cfg, initial, now, false);
            && s.phase == (if initial.state == Ready || initial.state == Active then Forwarding else Polling(0))
            && s.keepalive == (initial.state != Ready && initial.state != Active)
            && s.deadlineAt == now + cfg.maxWaitMs && s.now == now && s.cfg == cfg && s.ticket == initial && s.attempt == 0
            && s.out == [] && s.settled == [] && s.obtained == [initial.id] && s.outcome.None?
    ensures var s := Init(cfg, initial, now, true);
            s.phase == Closed && s.out == [] && s.settled == [initial.id] && s.outcome == Some(Outcome(1, initial.id, AbortPhase))
  {
  }

  // ---------------------------------------------------------------------------
  // The fetch
  // ---------------------------------------------------------------------------

  lemma EmptyBodyEnds(s: State)
    requires !s.aborted && !s.cancelled && s.outcome.None? && !s.keepalive
    ensures Ends(s, OnFetchOk(s, false), None, s.attempt + 1, DonePhase)
  {
    StreamDecides(s.(committed := false, pending := "", received := "", forwarded := []), false);
    hide AfterStream;
  }

  lemma FailedFetchEnds(s: State)
    requires !s.aborted && !s.cancelled && s.outcome.None?
    ensures Ends(s, OnFetchFail(s), Some(NetworkError), s.attempt + 1, ErrorPhase)
  {
    FailureEnds(s, NetworkError, s.attempt + 1);
    hide FailWith, Ends;
  }

  /** A response streams from an empty buffer, and an error status reads its body first. */
  lemma ResponseDecides(s: State, status: int, body: string)
    requires Attended(s) && s.phase == Forwarding
    ensures Step(s, FetchOk(true)) == s.(phase := Streaming, committed := false, pending := "", received := "", forwarded := [])
    ensures Step(s, FetchHttp(status, body)) == s.(phase := ErrorBody(status, body))
  {
    hide Reachable, AfterStream;
  }

  /** A response that comes after the client has left is not read: its reader is cancelled. */
  lemma LateResponseIsCancelled(s: State)
    requires s.aborted && s.phase == Forwarding
    ensures Step(s, FetchOk(true)) == s.(phase := Cancelling(OnAbort), committed := false, pending := "", received := "", forwarded := [])
  {
    hide AfterStream;
  }

  /** A response without a body is done. */
  lemma EmptyBodyDecides(s: State)
    requires Attended(s) && s.phase == Forwarding
    ensures Ends(s, Step(s, FetchOk(false)), None, s.attempt + 1, DonePhase)
  {
    AttendedFacts(s);
    EmptyBodyEnds(s);
    hide Reachable, OnFetchOk, Ends, InStream;
  }

  /** A failed fetch is a network error. */
  lemma FetchFailureDecides(s: State)
    requires Attended(s) && s.phase == Forwarding
    ensures Ends(s, Step(s, FetchFail), Some(NetworkError), s.attempt + 1, ErrorPhase)
  {
    AttendedFacts(s);
    FailedFetchEnds(s);
    hide Reachable, OnFetchFail, Ends, InStream;
  }

  lemma BodyLeads(s: State, status: int, body: string)
    requires !s.aborted && !s.cancelled && s.outcome.None? && !s.keepalive
    ensures if Marked(body) then UsesUpTicket(s, OnBodyRead(s, status, body))
            else Ends(s, OnBodyRead(s, status, body), Some(HttpError(status)), s.attempt + 1, ErrorPhase)
  {
    ExpiryUsesUp(s);
    FailureEnds(s, HttpError(status), s.attempt + 1);
    hide Marked, Expire, FailWith, Ends, UsesUpTicket;
  }

  /** An error response: with the expiry marker it uses the ticket up, without it its status is reported. */
  lemma ErrorBodyDecides(s: State)
    requires Attended(s) && s.phase.ErrorBody?
    ensures var t := Step(s, BodyRead);
            if Marked(s.phase.body) then UsesUpTicket(s, t)
            else Ends(s, t, Some(HttpError(s.phase.status)), s.attempt + 1, ErrorPhase)
  {
    AttendedFacts(s);
    BodyLeads(s, s.phase.status, s.phase.body);
    hide Reachable, Marked, OnBodyRead, Ends, UsesUpTicket;
  }

  // ---------------------------------------------------------------------------
  // The stream
  // ---------------------------------------------------------------------------

  /** An expired stream uses the ticket up if nothing was forwarded, and is an error after output. */
  ghost predicate Expires(s: State, t: State, output: bool) {
    if output then Ends(s, t, Some(ExpiredAfterOutput), s.attempt + 1, ErrorPhase) else UsesUpTicket(s, t)
  }

  /** While streaming, every complete frame of what was received has been forwarded, and none is marked. */
  lemma StreamingIsUpToDate(s: State)
    requires Reachable(s) && s.phase == Streaming
    ensures s.forwarded == Split(s.received).frames && s.pending == Split(s.received).tail
    ensures forall i :: 0 <= i < |s.forwarded| ==> !Marked(s.forwarded[i])
  {
    ReachableInv(s);
  }

  /** `k` frames of this text are forwarded: all of them, or those before the first marked one. */
  ghost predicate ForwardsUpTo(s: State, t: State, frames: seq<string>, k: nat) {
    && |s.forwarded| <= k <= |frames| && t.forwarded == frames[..k] && t.out == s.out + Tag(s.attempt, frames[|s.forwarded|..k])
    && (forall i :: 0 <= i < k ==> !Marked(frames[i]))
    && (k < |frames| ==> Marked(frames[k]))
    && t.phase == (if k < |frames| then Cancelling(OnMarker) else Streaming)
  }

  lemma OnChunkForwards(s: State, text: string)
    requires !s.aborted && s.outcome.None? && s.phase == Streaming
    requires s.forwarded == Split(s.received).frames && s.pending == Split(s.received).tail
    requires forall i :: 0 <= i < |s.forwarded| ==> !Marked(s.forwarded[i])
    ensures var t := OnChunk(s, text);
            && t.received == s.received + Normalize(text) && t.settled == s.settled && t.outcome.None? && t.attempt == s.attempt && t.ticket == s.ticket
            && if |s.pending| + |Normalize(text)| > 1024 * 1024 then t.phase == Cancelling(OnTooLong) && t.out == s.out
               else exists k: nat :: ForwardsUpTo(s, t, Split(s.received + Normalize(text)).frames, k)
  {
    hide Marked, Extract, FirstMarked, ForwardsUpTo, Normalize, AfterStream, IndexOfBoundary;
    var more := s.pending + Normalize(text);
    if |more| <= 1024 * 1024 {
      SplitAppend(s.received, Normalize(text));
      ExtractMeansSplit([], more);
      hide Split;
      ForwardsMore(s, OnChunk(s, text), Split(more).frames, FirstMarked(Split(more).frames));
    }
  }

  /**
   * A chunk: over the cap it stops the reader; otherwise every frame it completes before the
   * first marked one is forwarded, and a marked one stops the reader.
   */
  lemma ChunkDecides(s: State, text: string)
    requires Attended(s) && s.phase == Streaming
    ensures var t := Step(s, Chunk(text));
            && t.received == s.received + Normalize(text) && t.settled == s.settled && t.outcome.None? && t.attempt == s.attempt && t.ticket == s.ticket
            && if |Split(s.received).tail| + |Normalize(text)| > 1024 * 1024 then t.phase == Cancelling(OnTooLong) && t.out == s.out
               else exists k: nat :: ForwardsUpTo(s, t, Split(s.received + Normalize(text)).frames, k)
  {
    AttendedFacts(s);
    StreamingIsUpToDate(s);
    OnChunkForwards(s, text);
    hide Reachable, Split, Marked, Normalize, OnChunk, ForwardsUpTo;
  }

  lemma ForwardsMore(s: State, t: State, more: seq<string>, k: nat)
    requires k == FirstMarked(more) && forall i :: 0 <= i < |s.forwarded| ==> !Marked(s.forwarded[i])
    requires t.forwarded == s.forwarded + more[..k] && t.out == s.out + Tag(s.attempt, more[..k])
    requires t.phase == (if k < |more| then Cancelling(OnMarker) else Streaming)
    ensures ForwardsUpTo(s, t, s.forwarded + more, |s.forwarded| + k)
  {
    hide Marked;
    var frames, n := s.forwarded + more, |s.forwarded| + k;
    assert frames[..n] == s.forwarded + more[..k] && frames[|s.forwarded|..n] == more[..k];
    assert k < |more| ==> frames[n] == more[k];
  }

  ghost predicate BodyEndsIn(s: State, t: State) {
    if Marked(Split(s.received).tail) then Expires(s, t, s.forwarded != []) else Ends(s, t, None, s.attempt + 1, DonePhase)
  }

  lemma StreamEndDecides(s: State)
    requires !s.aborted && !s.cancelled && s.outcome.None? && !s.keepalive && (s.committed <==> s.forwarded != [])
    requires !EndsFrame(s.pending) && !Marked("") && s.pending == Split(s.received).tail
    ensures BodyEndsIn(s, OnStreamEnd(s))
  {
    hide Split, EndsFrame;
    StreamDecides(s, false);
    StreamDecides(s.(pending := ""), true);
    StreamDecides(s.(pending := ""), false);
    hide AfterStream, Marked;
  }

  /** The end of the body: with nothing marked left over it is done, else the stream has expired. */
  lemma EndDecides(s: State)
    requires Attended(s) && s.phase == Streaming
    ensures BodyEndsIn(s, Step(s, StreamEnd))
  {
    AttendedFacts(s);
    StreamingIsUpToDate(s);
    LeftoverIsDropped(s);
    StreamEndDecides(s);
    hide Reachable, OnStreamEnd, BodyEndsIn, Split, Marked;
  }

  lemma LeftoverIsDropped(s: State)
    requires Attended(s) && s.phase == Streaming
    ensures !EndsFrame(s.pending) && !Marked("")
  {
    StreamingIsUpToDate(s);
    SplitIsSplit(s.received);
    if EndsFrame(s.pending) {
      EndsFrameHasBoundary(s.pending);
    }
  }

  lemma StreamDecides(s: State, expired: bool)
    requires !s.aborted && !s.cancelled && s.outcome.None? && !s.keepalive && (s.committed <==> s.forwarded != [])
    ensures var t := AfterStream(s, expired);
            if expired then Expires(s, t, s.forwarded != []) else Ends(s, t, None, s.attempt + 1, DonePhase)
  {
    ExpiryUsesUp(s);
    FailureEnds(s, ExpiredAfterOutput, s.attempt + 1);
    hide FailWith, Expire;
  }

  /** A failing read is an internal error. */
  lemma ReadFailureEnds(s: State)
    requires Attended(s) && s.phase == Streaming
    ensures Ends(s, Step(s, ReadFail), Some(InternalError), s.attempt + 1, ErrorPhase)
  {
    AttendedFacts(s);
    FailureEnds(s, InternalError, s.attempt + 1);
    hide Reachable, FailWith, Ends;
  }

  lemma StopLeads(s: State, why: CancelReason)
    requires !s.aborted && !s.cancelled && s.outcome.None? && !s.keepalive && (s.committed <==> s.forwarded != [])
    ensures why == OnTooLong ==> Ends(s, OnReaderCancelled(s, why), Some(FrameTooLong), s.attempt + 1, ErrorPhase)
    ensures why == OnMarker ==> Expires(s, OnReaderCancelled(s, why), s.forwarded != [])
  {
    FailureEnds(s, FrameTooLong, s.attempt + 1);
    StreamDecides(s, true);
    hide FailWith, AfterStream, Ends, Expires;
  }

  /** A reader that was stopped ends by the reason: the cap is an error, the marker an expired stream. */
  lemma StopDecides(s: State)
    requires Attended(s) && s.phase.Cancelling? && s.phase.why != OnAbort
    ensures var t := Step(s, ReaderCancelled);
            if s.phase.why == OnTooLong then Ends(s, t, Some(FrameTooLong), s.attempt + 1, ErrorPhase)
            else Expires(s, t, s.forwarded != [])
  {
    AttendedFacts(s);
    StopLeads(s, s.phase.why);
    hide Reachable, OnReaderCancelled, Ends, Expires;
  }

  // ---------------------------------------------------------------------------
  // A cooperating upstream
  // ---------------------------------------------------------------------------

  function Chunks(texts: seq<string>): seq<Event> {
    seq(|texts|, i requires 0 <= i < |texts| => Chunk(texts[i]))
  }

  /** The stream `s` has been read on as the chunk loop reads it. */
  ghost predicate ReadOn(s: State, t: State, p: Progress, received: string) {
    t == s.(pending := p.pending, forwarded := p.forwarded, received := received,
            out := s.out + Tag(s.attempt, p.forwarded), committed := p.forwarded != [])
  }

  lemma ReadOneMore(s: State, t: State, p: Progress, received: string, text: string)
    requires s.phase == Streaming && !s.aborted && ReadOn(s, t, p, received) && p.verdict == Framing.Reading
    requires Feed(p, text, 1024 * 1024).verdict == Framing.Reading
    ensures ReadOn(s, Step(t, Chunk(text)), Feed(p, text, 1024 * 1024), received + Normalize(text))
  {
    hide Marked, IndexOfBoundary, Split, FirstMarked, Extract, Normalize;
    var more := p.pending + Normalize(text);
    ExtractMeansSplit([], more);
    ExtractMeansSplit(p.forwarded, more);
    var added := Extract([], more).forwarded;
    assert s.out + Tag(s.attempt, p.forwarded) + Tag(s.attempt, added) == s.out + Tag(s.attempt, p.forwarded + added);
    assert Step(t, Chunk(text)) == OnChunk(t, text);
    hide Step, Tag;
  }

  lemma {:induction false} ReadsOn(s: State, texts: seq<string>)
    requires s.phase == Streaming && !s.aborted && s.pending == "" && s.received == "" && s.forwarded == [] && !s.committed
    requires FeedAll(texts, 1024 * 1024).verdict == Framing.Reading
    ensures ReadOn(s, Run(s, Chunks(texts)), FeedAll(texts, 1024 * 1024), NormalizeEach(texts))
  {
    hide Step, Tag, ReadOn, Normalize, Feed;
    if texts == [] {
      ReadsNothing(s);
      assert Chunks(texts) == [];
    } else {
      var before, last := texts[..|texts| - 1], texts[|texts| - 1];
      FeedStops(FeedAll(before, 1024 * 1024), last);
      ReadsOn(s, before);
      ReadOneMore(s, Run(s, Chunks(before)), FeedAll(before, 1024 * 1024), NormalizeEach(before), last);
      assert Chunks(texts)[..|texts| - 1] == Chunks(before);
      NormalizeEachSnoc(before, last);
      assert before + [last] == texts;
      hide NormalizeEach;
    }
  }

  lemma ReadsNothing(s: State)
    requires s.pending == "" && s.received == "" && s.forwarded == [] && !s.committed
    ensures ReadOn(s, s, Progress("", [], Framing.Reading), "")
  {
    assert s.out + Tag(s.attempt, []) == s.out;
  }

  lemma UnmarkedEnd(s: State)
    requires s.phase == Streaming && !s.aborted && !s.cancelled && s.outcome.None? && !s.keepalive
    requires (s.committed <==> s.forwarded != []) && !Marked(s.pending) && !EndsFrame(s.pending)
    ensures Ends(s, Step(s, StreamEnd), None, s.attempt + 1, DonePhase)
  {
    StreamDecides(s, false);
    StreamDecides(s.(pending := ""), false);
    hide AfterStream, Marked, EndsFrame;
  }

  lemma SettledOnly(s: State, t: State)
    requires s.settled == [] && t == Step(s, StreamEnd) && s.phase == Streaming && !s.aborted && !Marked(s.pending) && !EndsFrame(s.pending)
    ensures t.settled == [s.ticket.id]
  {
    hide Marked, EndsFrame;
  }

  lemma FeedStops(p: Progress, text: string)
    requires Feed(p, text, 1024 * 1024).verdict == Framing.Reading
    ensures p.verdict == Framing.Reading
  {
  }

  /**
   * When the ticket is ready, the upstream answers and its body has no marker and trips no
   * cap, the client gets exactly the complete frames of the body, however it was chunked.
   */
  lemma WholeBodyArrives(cfg: Config, ticket: Ticket, now: int, texts: seq<string>)
    requires ticket.state == Ready || ticket.state == Active
    requires FeedAll(texts, 1024 * 1024).verdict == Framing.Reading && !Marked(Split(NormalizeEach(texts)).tail)
    ensures var t := Step(Run(Step(Init(cfg, ticket, now, false), FetchOk(true)), Chunks(texts)), StreamEnd);
            && t.out == Tag(0, Split(NormalizeEach(texts)).frames)
            && t.outcome == Some(Outcome(1, ticket.id, DonePhase)) && t.settled == [ticket.id] && t.phase == Closed
  {
    var s := Step(Init(cfg, ticket, now, false), FetchOk(true));
    assert s.phase == Streaming && s.settled == [] && s.out == [] && s.ticket == ticket && s.attempt == 0 && s.outcome.None?;
    assert !s.aborted && !s.cancelled && !s.keepalive && s.pending == "" && s.received == "" && s.forwarded == [] && !s.committed;
    hide Init, Step;
    ReadsOn(s, texts);
    FeedAllInvariant(texts, 1024 * 1024);
    var u := Run(s, Chunks(texts));
    SplitIsSplit(NormalizeEach(texts));
    hide Run;
    if EndsFrame(u.pending) {
      EndsFrameHasBoundary(u.pending);
    }
    UnmarkedEnd(u);
    SettledOnly(u, Step(u, StreamEnd));
    hide Split, Marked, EndsFrame, FirstMarked, FeedAll, NormalizeEach;
  }

  /** Time passes, and nothing else; both ways of leaving count as an abort, and cancelling the stream ends its output too. */
  lemma EventsOfTheClient(s: State, ms: nat)
    ensures Step(s, Tick(ms)) == s.(now := s.now + ms)
    ensures Step(s, ClientAbort) == s.(aborted := true)
    ensures Step(s, ConsumerCancel) == s.(aborted := true, cancelled := true)
  {
  }
}
