/**
 * The bridge in the source's own form: an object whose callbacks update its fields.
 *
 * Each callback is one run-to-completion section, proved to be one step of module `Bridge`
 * and to keep the object in a state that a run of that module reaches; the other methods
 * are the parts these sections share.
 */
module BridgeRuntime {
  import opened Util
  import opened Framing
  import Bridge
  import opened B = Bridge

  class AsyncBridge {
    const cfg: Config
    const deadlineAt: int
    var now: int
    var aborted: bool
    var cancelled: bool
    var currentTicket: Ticket
    var attempt: nat
    var keepAliveTimer: bool
    var phase: Phase
    var pending: string
    var committed: bool
    var stream: seq<Item>
    var settledTickets: seq<string>
    var outcome: Option<B.Outcome>
    ghost var received: string
    ghost var forwarded: seq<string>
    ghost var obtained: seq<string>
    ghost var terminal: Option<ErrorKind>

    ghost function State(): State
      reads this
    {
      B.State(cfg, now, deadlineAt, aborted, cancelled, currentTicket, attempt, keepAliveTimer, phase,
              pending, committed, stream, settledTickets, outcome, received, forwarded, obtained, terminal)
    }

    /** Some run of module `Bridge` gives this state, so what is proved of all runs holds here. */
    ghost predicate Valid()
      reads this
    {
      Reachable(State())
    }

    constructor (cfg: Config, initial: Ticket, now: int, aborted: bool)
      ensures Valid() && State() == Init(cfg, initial, now, aborted)
    {
      this.cfg := cfg;
      this.deadlineAt := now + cfg.maxWaitMs;
      this.now := now;
      this.aborted := aborted;
      cancelled := false;
      currentTicket := initial;
      attempt := 0;
      keepAliveTimer := false;
      phase := Forwarding;
      pending := "";
      committed := false;
      stream := [];
      settledTickets := [];
      outcome := None;
      received := "";
      forwarded := [];
      obtained := [initial.id];
      terminal := None;
      new;
      InitReachable(cfg, initial, now, aborted);
      LoopHead();
    }

    // -------------------------------------------------------------------------
    // Helpers of the original closure
    // -------------------------------------------------------------------------

    method SettleOnce()
      modifies this
      ensures State() == Settle(old(State()), old(currentTicket.id))
    {
      if currentTicket.id in settledTickets {
        return;
      }
      settledTickets := settledTickets + [currentTicket.id];
    }

    method EmitTerminalError(kind: ErrorKind)
      modifies this
      ensures State() == EmitError(old(State()), kind)
    {
      if aborted {
        return;
      }
      if !cancelled {
        stream := stream + [ErrorEvent(kind)];
        terminal := Some(kind);
      }
    }

    method ResolveOutcome(attempts: nat, final: TerminalPhase)
      modifies this
      ensures State() == Resolve(old(State()), attempts, final)
    {
      if outcome.Some? {
        return;
      }
      outcome := Some(B.Outcome.Outcome(attempts, currentTicket.id, final));
    }

    /** The `finally` block: stop the timer, close the stream, resolve the fallback outcome. */
    method Finally()
      modifies this
      ensures State() == Close(old(State()))
    {
      keepAliveTimer := false;
      phase := Closed;
      ResolveOutcome(attempt + 1, if aborted then AbortPhase else ErrorPhase);
    }

    method SettleAndReturn()
      modifies this
      ensures State() == Abandon(old(State()))
    {
      SettleOnce();
      Finally();
    }

    method ReportAndReturn(kind: ErrorKind, attempts: nat)
      modifies this
      ensures State() == FailWith(old(State()), kind, attempts)
    {
      SettleOnce();
      EmitTerminalError(kind);
      ResolveOutcome(attempts, ErrorPhase);
      Finally();
    }

    method Retake()
      modifies this
      ensures State() == Expire(old(State()))
    {
      hide FailWith;
      SettleOnce();
      attempt := attempt + 1;
      if attempt > cfg.maxRetries {
        ReportAndReturn(ExhaustedRetries(attempt), attempt);
      } else {
        phase := Taking;
      }
    }

    method LoopHead()
      modifies this
      ensures State() == Top(old(State()))
    {
      if aborted {
        SettleAndReturn();
      } else if !IsTicketReady(currentTicket.state) {
        keepAliveTimer := true;
        phase := Polling(0);
      } else {
        StartForward();
      }
    }

    method StartForward()
      modifies this
      ensures State() == Forward(old(State()))
    {
      keepAliveTimer := false;
      phase := Forwarding;
    }

    method QueueExpiry()
      modifies this
      ensures State() == ExpiredInQueue(old(State()))
    {
      keepAliveTimer := false;
      if cfg.maxWaitMs > 0 && now >= deadlineAt {
        ReportAndReturn(Timeout, attempt + 1);
      } else {
        Retake();
      }
    }

    method LeaveStream(expired: bool)
      modifies this
      ensures State() == AfterStream(old(State()), expired)
    {
      if expired && !committed && !aborted {
        Retake();
        return;
      }
      if expired && !aborted {
        ReportAndReturn(ExpiredAfterOutput, attempt + 1);
        return;
      }
      SettleOnce();
      ResolveOutcome(attempt + 1, if aborted then AbortPhase else DonePhase);
      Finally();
    }

    // -------------------------------------------------------------------------
    // Callbacks
    // -------------------------------------------------------------------------

    method Advance(ms: nat)
      requires Valid()
      modifies this
      ensures Valid() && State() == Step(old(State()), Tick(ms))
    {
      hide Reachable, Run;
      ReachableStep(State(), Tick(ms));
      now := now + ms;
    }

    method OnSignalAbort()
      requires Valid()
      modifies this
      ensures Valid() && State() == Step(old(State()), ClientAbort)
    {
      hide Reachable, Run;
      ReachableStep(State(), ClientAbort);
      aborted := true;
    }

    method OnConsumerCancel()
      requires Valid()
      modifies this
      ensures Valid() && State() == Step(old(State()), ConsumerCancel)
    {
      hide Reachable, Run;
      ReachableStep(State(), ConsumerCancel);
      aborted := true;
      cancelled := true;
    }

    method EmitKeepalive()
      requires Valid()
      modifies this
      ensures Valid() && State() == Step(old(State()), KeepaliveTick)
    {
      hide Reachable, Run;
      ReachableStep(State(), KeepaliveTick);
      if keepAliveTimer && !aborted {
        stream := stream + [Keepalive];
      }
    }

    method PollAnswered(tickets: seq<TicketState>, nextPollAfterMs: Option<nat>)
      requires Valid() && phase.Polling?
      modifies this
      ensures Valid() && State() == Step(old(State()), PollOk(tickets, nextPollAfterMs))
    {
      hide Reachable, Run;
      ReachableStep(State(), PollOk(tickets, nextPollAfterMs));
      if aborted {
        SettleAndReturn();
        return;
      }
      if tickets == [] {
        QueueExpiry();
        return;
      }
      if IsTicketReady(tickets[0]) {
        StartForward();
        return;
      }
      if tickets[0] != Queued {
        QueueExpiry();
        return;
      }
      var delay := nextPollAfterMs.GetOr(cfg.pollIntervalMs);
      if cfg.maxWaitMs > 0 && now + delay > deadlineAt {
        phase := DeadlineSleep(Max(now, deadlineAt));
      } else {
        phase := WaitSleep(now + delay);
      }
    }

    method PollFailed()
      requires Valid() && phase.Polling?
      modifies this
      ensures Valid() && State() == Step(old(State()), PollFail)
    {
      hide Reachable, Run;
      ReachableStep(State(), PollFail);
      if aborted || phase.failures + 1 >= POLL_RETRY_LIMIT {
        ReportAndReturn(InternalError, attempt + 1);
      } else {
        phase := PollBackoff(phase.failures + 1);
      }
    }

    method WokeFromBackoff()
      requires Valid() && phase.PollBackoff?
      modifies this
      ensures Valid() && State() == Step(old(State()), SleepDone)
    {
      hide Reachable, Run;
      ReachableStep(State(), SleepDone);
      if aborted {
        ReportAndReturn(InternalError, attempt + 1);
      } else {
        phase := Polling(phase.failures);
      }
    }

    method WokeFromWait()
      requires Valid() && phase.WaitSleep? && (now >= phase.until || aborted)
      modifies this
      ensures Valid() && State() == Step(old(State()), SleepDone)
    {
      hide Reachable, Run;
      ReachableStep(State(), SleepDone);
      if aborted {
        SettleAndReturn();
      } else {
        phase := Polling(0);
      }
    }

    method WokeAtDeadline()
      requires Valid() && phase.DeadlineSleep? && (now >= phase.until || aborted)
      modifies this
      ensures Valid() && State() == Step(old(State()), SleepDone)
    {
      hide Reachable, Run;
      ReachableStep(State(), SleepDone);
      assert Step(State(), SleepDone) == OnSleepDone(State());
      hide Step;
      if aborted {
        SettleAndReturn();
      } else {
        keepAliveTimer := false;
        ReportAndReturn(Timeout, attempt + 1);
      }
    }

    method Took(ticket: Ticket)
      requires Valid() && phase == Taking
      modifies this
      ensures Valid() && State() == Step(old(State()), TakeOk(ticket))
    {
      hide Reachable, Run;
      ReachableStep(State(), TakeOk(ticket));
      currentTicket := ticket;
      obtained := obtained + [ticket.id];
      LoopHead();
    }

    method TakeRefused()
      requires Valid() && phase == Taking
      modifies this
      ensures Valid() && State() == Step(old(State()), TakeFail)
    {
      hide Reachable, Run;
      ReachableStep(State(), TakeFail);
      ReportAndReturn(RetakeFailed, attempt);
    }

    method ForgetLastBody()
      modifies this
      ensures State() == old(State()).(committed := false, pending := "", received := "", forwarded := [])
    {
      committed := false;
      pending := "";
      received := "";
      forwarded := [];
    }

    method Fetched(hasBody: bool)
      requires Valid() && phase == Forwarding
      modifies this
      ensures Valid() && State() == Step(old(State()), FetchOk(hasBody))
    {
      hide Reachable, Run, AfterStream;
      ReachableStep(State(), FetchOk(hasBody));
      assert Step(State(), FetchOk(hasBody)) == OnFetchOk(State(), hasBody);
      hide Step;
      ForgetLastBody();
      if !hasBody {
        LeaveStream(false);
      } else if aborted {
        phase := Cancelling(OnAbort);
      } else {
        phase := Streaming;
      }
    }

    method FetchFailed()
      requires Valid() && phase == Forwarding
      modifies this
      ensures Valid() && State() == Step(old(State()), FetchFail)
    {
      hide Reachable, Run;
      ReachableStep(State(), FetchFail);
      if aborted {
        SettleAndReturn();
      } else {
        ReportAndReturn(NetworkError, attempt + 1);
      }
    }

    method FetchRefused(status: int, body: string)
      requires Valid() && phase == Forwarding
      modifies this
      ensures Valid() && State() == Step(old(State()), FetchHttp(status, body))
    {
      hide Reachable, Run;
      ReachableStep(State(), FetchHttp(status, body));
      phase := ErrorBody(status, body);
    }

    method ErrorBodyRead()
      requires Valid() && phase.ErrorBody?
      modifies this
      ensures Valid() && State() == Step(old(State()), BodyRead)
    {
      hide Reachable, Run;
      ReachableStep(State(), BodyRead);
      if Marked(phase.body) {
        Retake();
      } else {
        ReportAndReturn(HttpError(phase.status), attempt + 1);
      }
    }

    /** Cut complete frames off `pending` and forward them, until a marked one or none is left. */
    method ForwardFrames() returns (expired: bool)
      modifies this`pending, this`stream, this`committed, this`forwarded
      ensures var e := Extract([], old(pending));
              && pending == e.pending
              && stream == old(stream) + Tag(attempt, e.forwarded)
              && committed == (old(committed) || e.forwarded != [])
              && forwarded == old(forwarded) + e.forwarded
              && expired == (e.verdict == Framing.Expired)
    {
      ghost var text := pending;
      ghost var sent: seq<string> := [];
      expired := false;
      while true
        invariant Extract([], text) == Extract(sent, pending)
        invariant stream == old(stream) + Tag(attempt, sent)
        invariant committed == (old(committed) || sent != [])
        invariant forwarded == old(forwarded) + sent
        invariant !expired
        decreases |pending|
      {
        var idx := IndexOfBoundary(pending);
        if idx == -1 {
          break;
        }
        var frame := pending[..idx + 2];
        pending := pending[idx + 2..];
        if Marked(frame) {
          expired := true;
          break;
        }
        stream := stream + [Frame(attempt, frame)];
        committed := true;
        assert Tag(attempt, sent) + [Frame(attempt, frame)] == Tag(attempt, sent + [frame]);
        sent := sent + [frame];
        forwarded := forwarded + [frame];
      }
    }

    method AppendChunk(text: string)
      modifies this
      ensures State() == old(State()).(pending := old(pending) + Normalize(text), received := old(received) + Normalize(text))
    {
      pending := pending + Normalize(text);
      received := received + Normalize(text);
    }

    method ChunkRead(text: string)
      requires Valid() && phase == Streaming
      modifies this
      ensures Valid() && State() == Step(old(State()), Chunk(text))
    {
      hide Reachable, Run, AfterStream, Extract, Tag, Normalize;
      ReachableStep(State(), Chunk(text));
      assert Step(State(), Chunk(text)) == OnChunk(State(), text);
      hide Step;
      if aborted {
        LeaveStream(false);
        return;
      }
      AppendChunk(text);
      if |pending| > MAX_PENDING_FRAME {
        phase := Cancelling(OnTooLong);
        return;
      }
      var expired := ForwardFrames();
      if expired {
        phase := Cancelling(OnMarker);
      }
    }

    /** The leftover at the end of the body: inspected, and forwarded only if it ends a frame. */
    method FlushLeftover() returns (expired: bool)
      modifies this`pending, this`stream, this`forwarded
      ensures expired == Marked(old(pending)) && pending == ""
      ensures !expired && EndsFrame(old(pending)) ==>
                stream == old(stream) + [Frame(attempt, old(pending))] && forwarded == old(forwarded) + [old(pending)]
      ensures expired || !EndsFrame(old(pending)) ==> stream == old(stream) && forwarded == old(forwarded)
    {
      expired := Marked(pending);
      if !expired && EndsFrame(pending) {
        stream := stream + [Frame(attempt, pending)];
        forwarded := forwarded + [pending];
      }
      pending := "";
    }

    method BodyEnded()
      requires Valid() && phase == Streaming
      modifies this
      ensures Valid() && State() == Step(old(State()), StreamEnd)
    {
      hide Reachable, Run;
      ReachableStep(State(), StreamEnd);
      if aborted || pending == "" {
        LeaveStream(false);
        return;
      }
      var expired := FlushLeftover();
      LeaveStream(expired);
    }

    method ReadFailed()
      requires Valid() && phase == Streaming
      modifies this
      ensures Valid() && State() == Step(old(State()), ReadFail)
    {
      hide Reachable, Run;
      ReachableStep(State(), ReadFail);
      ReportAndReturn(InternalError, attempt + 1);
    }

    method ReaderReleased()
      requires Valid() && phase.Cancelling?
      modifies this
      ensures Valid() && State() == Step(old(State()), ReaderCancelled)
    {
      hide Reachable, Run;
      ReachableStep(State(), ReaderCancelled);
      match phase.why
      case OnAbort => SettleAndReturn();
      case OnMarker => LeaveStream(true);
      case OnTooLong => ReportAndReturn(FrameTooLong, attempt + 1);
    }
  }
}
