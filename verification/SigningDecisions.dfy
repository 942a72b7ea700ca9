/**
 * What every section of request signing (proxy/client-signing.ts:272-311, 388-406, 485-505,
 * 558-578) leads to, each with its exact condition.
 */
module SigningDecisions {
  import opened Util
  import opened Signing

  /** The key, the epoch, the handshakes and the bypass stand as they were; only this request has moved on. */
  predicate OnlyMoves(s: State, t: State, id: nat, phase: Phase)
    requires id in s.requests
  {
    t == s.(requests := s.requests[id := s.requests[id].(phase := phase)])
  }

  /** The key and the running handshake are forgotten: what they still bring belongs to an epoch that is over. */
  predicate Forgets(s: State, t: State) {
    t.epoch == s.epoch + 1 && t.privKey.None? && t.handshake.None? && t.handshakes == s.handshakes && t.nextHandshake == s.nextHandshake
  }

  ghost predicate LeavesOthers(s: State, t: State, id: nat) {
    t.requests.Keys == s.requests.Keys + {id} && forall other :: other in s.requests && other != id ==> t.requests[other] == s.requests[other]
  }

  /** A new request asks to be signed if it is eligible and signing is not bypassed; else it is sent as it is. */
  lemma BeginDecides(s: State, id: nat, eligible: bool)
    requires id !in s.requests
    ensures Step(s, Begin(id, eligible)) ==
              s.(requests := s.requests[id := Request(eligible, if eligible && !s.bypass then Phase.Signing(Gate) else Sending(false), [], s.bypass)])
  {
  }

  /**
   * Once the gate has answered: not enabled means unsigned; a cached key is used at once; a
   * running handshake is shared; and else a new one is begun, in this epoch.
   */
  lemma GateDecides(s: State, id: nat, enabled: bool)
    requires id in s.requests && s.requests[id].phase == Phase.Signing(Gate)
    ensures var t, h := Step(s, GateAnswered(id, enabled)), s.nextHandshake;
            if !enabled then OnlyMoves(s, t, id, Sending(false))
            else if s.privKey.Some? then OnlyMoves(s, t, id, Phase.Signing(Building(s.privKey.value)))
            else if s.handshake.Some? then OnlyMoves(s, t, id, Phase.Signing(Waiting(s.handshake.value)))
            else
              t == s.(requests := s.requests[id := s.requests[id].(phase := Phase.Signing(Waiting(h)))],
                      handshake := Some(h), handshakes := s.handshakes[h := InFlight(s.epoch)], nextHandshake := h + 1)
  {
  }

  /** A handshake installs its key exactly if it succeeds in the epoch it began in; it no longer runs either way. */
  lemma HandshakeDecides(s: State, h: nat, ok: bool)
    requires h in s.handshakes && s.handshakes[h].InFlight?
    ensures var t := Step(s, HandshakeSettled(h, ok));
            && t.requests == s.requests && t.epoch == s.epoch && t.bypass == s.bypass && t.nextHandshake == s.nextHandshake
            && t.handshake == (if s.handshake == Some(h) then None else s.handshake)
            && if ok && s.handshakes[h].epoch == s.epoch
               then t.privKey == Some(h) && t.handshakes == s.handshakes[h := Installed(s.epoch)]
               else t.privKey == s.privKey && t.handshakes == s.handshakes[h := Failed]
  {
  }

  /** A waiter builds its signature with the key that was installed; after a failure it forgets all keys and is sent unsigned. */
  lemma WaiterDecides(s: State, id: nat, h: nat)
    requires id in s.requests && s.requests[id].phase == Phase.Signing(Waiting(h)) && h in s.handshakes
    ensures var t := Step(s, WaiterResumes(id));
            match s.handshakes[h]
            case InFlight(_) => t == s
            case Installed(_) => OnlyMoves(s, t, id, Phase.Signing(Building(h)))
            case Failed => Forgets(s, t) && t.bypass == s.bypass && t.requests == s.requests[id := s.requests[id].(phase := Sending(false))]
  {
  }

  /** A signature that could be built is sent, and its failure is sent as an unsigned request. */
  lemma BuiltDecides(s: State, id: nat, key: nat, ok: bool)
    requires id in s.requests && s.requests[id].phase == Phase.Signing(Building(key))
    ensures OnlyMoves(s, Step(s, Built(id, ok)), id, Sending(ok))
  {
  }

  /**
   * An answer ends the request unless it rejects a signature. The first rejection forgets the
   * key and signs once more; the second bypasses signing for good and sends unsigned.
   */
  lemma AnswerDecides(s: State, id: nat, rejected: bool)
    requires Reachable(s) && id in s.requests && s.requests[id].phase.Sending?
    ensures var t, r := Step(s, Answered(id, rejected)), s.requests[id];
            var sends := r.sends + [Send(r.phase.signed, rejected)];
            && LeavesOthers(s, t, id) && t.requests[id].sends == sends && t.requests[id].eligible == r.eligible
            && if !(rejected && r.phase.signed) then
                 t.requests[id].phase == Done && t == s.(requests := t.requests)
               else if |r.sends| == 0 then
                 Forgets(s, t) && t.bypass == s.bypass && t.requests[id].phase == (if r.eligible && !s.bypass then Phase.Signing(Gate) else Sending(false))
               else
                 |r.sends| == 1 && Forgets(s, t) && t.bypass && t.requests[id].phase == Sending(false)
  {
    ReachableInv(s);
    assert RequestInv(s, s.requests[id]);
    hide Reachable;
  }

  /** A send that throws ends the request, and nothing else changes. */
  lemma ThrowEnds(s: State, id: nat)
    requires id in s.requests && s.requests[id].phase.Sending?
    ensures OnlyMoves(s, Step(s, SendThrew(id)), id, Done)
  {
  }

  /** Answers nobody waits for change nothing. */
  lemma StrayAnswersAreIgnored(s: State, e: Event)
    requires match e
             case Begin(id, _) => id in s.requests
             case GateAnswered(id, _) => id !in s.requests || s.requests[id].phase != Phase.Signing(Gate)
             case HandshakeSettled(h, _) => h !in s.handshakes || !s.handshakes[h].InFlight?
             case WaiterResumes(id) => id !in s.requests || !s.requests[id].phase.Signing? || !s.requests[id].phase.stage.Waiting?
             case Built(id, _) => id !in s.requests || !s.requests[id].phase.Signing? || !s.requests[id].phase.stage.Building?
             case Answered(id, _) => id !in s.requests || !s.requests[id].phase.Sending?
             case SendThrew(id) => id !in s.requests || !s.requests[id].phase.Sending?
    ensures Step(s, e) == s
  {
  }
}
