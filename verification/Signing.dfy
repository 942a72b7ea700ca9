/**
 * Request signing for one origin and credential (proxy/client-signing.ts:272-311, 377-415,
 * 485-505, 558-578): a signing key obtained by handshake, invalidated by epochs, and the
 * retry ladder of each request. Many requests run at once; one event is one section.
 */
module Signing {
  import opened Util
  import opened Accounts

  /** A handshake promise: running since this epoch, resolved with its key, or rejected. */
  datatype Handshake = InFlight(epoch: nat) | Installed(epoch: nat) | Failed

  /** Where a request's signing call stands; a key is named by the handshake it came from. */
  datatype SignStage = Gate | Waiting(handshake: nat) | Building(key: nat)

  datatype Phase =
    | Signing(stage: SignStage)
    | Sending(signed: bool)
    | Done

  /** One send: was it signed, and did the answer reject the signature? */
  datatype Send = Send(signed: bool, rejected: bool)

  datatype Request = Request(
    eligible: bool,
    phase: Phase,
    /** Sends already answered. */
    sends: seq<Send>,
    /** The current signing call began after a bypass. */
    begunBypassed: bool)

  datatype State = State(
    epoch: nat,
    privKey: Option<nat>,
    handshake: Option<nat>,
    bypass: bool,
    handshakes: map<nat, Handshake>,
    nextHandshake: nat,
    requests: map<nat, Request>)

  datatype Event =
    | Begin(id: nat, eligible: bool)
    | GateAnswered(id: nat, enabled: bool)
    | HandshakeSettled(handshake: nat, ok: bool)
    | WaiterResumes(id: nat)
    | Built(id: nat, ok: bool)
    | Answered(id: nat, rejected: bool)
    | SendThrew(id: nat)

  const INIT: State := State(0, None, None, false, map[], 0, map[])

  // ---------------------------------------------------------------------------
  // Sections
  // ---------------------------------------------------------------------------

  function Invalidate(s: State): State {
    s.(epoch := s.epoch + 1, privKey := None, handshake := None)
  }

  function Put(s: State, id: nat, r: Request): State {
    s.(requests := s.requests[id := r])
  }

  /** `signWithStatus` up to the gate, and the unsigned send if it ends there. */
  function BeginSign(s: State, id: nat, r: Request): State {
    Put(s, id, r.(phase := if !r.eligible || s.bypass then Sending(false) else Signing(Gate), begunBypassed := s.bypass))
  }

  function OnBegin(s: State, id: nat, eligible: bool): State {
    if id in s.requests then s else BeginSign(s, id, Request(eligible, Done, [], false))
  }

  /** `ensurePrivateKey` up to its await. */
  function OnGateAnswered(s: State, id: nat, enabled: bool): State {
    if id !in s.requests || s.requests[id].phase != Signing(Gate) then s
    else
      var r := s.requests[id];
      if !enabled then Put(s, id, r.(phase := Sending(false)))
      else if s.privKey.Some? then Put(s, id, r.(phase := Signing(Building(s.privKey.value))))
      else if s.handshake.Some? then Put(s, id, r.(phase := Signing(Waiting(s.handshake.value))))
      else
        var h := s.nextHandshake;
        Put(s, id, r.(phase := Signing(Waiting(h)))).(
          handshake := Some(h), handshakes := s.handshakes[h := InFlight(s.epoch)], nextHandshake := h + 1)
  }

  /** The handshake answers: its key counts only if the epoch is still the one it began in. */
  function OnHandshakeSettled(s: State, h: nat, ok: bool): State {
    if h !in s.handshakes || !s.handshakes[h].InFlight? then s
    else
      var installs := ok && s.handshakes[h].epoch == s.epoch;
      s.(handshakes := s.handshakes[h := if installs then Installed(s.epoch) else Failed],
         privKey := if installs then Some(h) else s.privKey,
         handshake := if s.handshake == Some(h) then None else s.handshake)
  }

  function OnWaiterResumes(s: State, id: nat): State {
    if id !in s.requests || !s.requests[id].phase.Signing? || !s.requests[id].phase.stage.Waiting? then s
    else
      var r, h := s.requests[id], s.requests[id].phase.stage.handshake;
      if h !in s.handshakes || s.handshakes[h].InFlight? then s
      else if s.handshakes[h].Failed? then Put(Invalidate(s), id, r.(phase := Sending(false)))
      else Put(s, id, r.(phase := Signing(Building(h))))
  }

  function OnBuilt(s: State, id: nat, ok: bool): State {
    if id !in s.requests || !s.requests[id].phase.Signing? || !s.requests[id].phase.stage.Building? then s
    else Put(s, id, s.requests[id].(phase := Sending(ok)))
  }

  /** The ladder of `sendWithClientSigning` after an answer. */
  function OnAnswered(s: State, id: nat, rejected: bool): State {
    if id !in s.requests || !s.requests[id].phase.Sending? then s
    else
      var r := s.requests[id].(sends := s.requests[id].sends + [Send(s.requests[id].phase.signed, rejected)]);
      if |r.sends| >= 3 || !r.phase.signed || !rejected then Put(s, id, r.(phase := Done))
      else if |r.sends| == 1 then BeginSign(Invalidate(s), id, r)
      else Put(Invalidate(s.(bypass := true)), id, r.(phase := Sending(false)))
  }

  function OnSendThrew(s: State, id: nat): State {
    if id !in s.requests || !s.requests[id].phase.Sending? then s
    else Put(s, id, s.requests[id].(phase := Done))
  }

  function Step(s: State, e: Event): State {
    match e
    case Begin(id, eligible) => OnBegin(s, id, eligible)
    case GateAnswered(id, enabled) => OnGateAnswered(s, id, enabled)
    case HandshakeSettled(h, ok) => OnHandshakeSettled(s, h, ok)
    case WaiterResumes(id) => OnWaiterResumes(s, id)
    case Built(id, ok) => OnBuilt(s, id, ok)
    case Answered(id, rejected) => OnAnswered(s, id, rejected)
    case SendThrew(id) => OnSendThrew(s, id)
  }

  function Run(s: State, events: seq<Event>): State {
    if events == [] then s else Step(Run(s, events[..|events| - 1]), events[|events| - 1])
  }

  ghost predicate Reachable(s: State) {
    exists events: seq<Event> :: s == Run(INIT, events)
  }

  lemma InitReachable()
    ensures Reachable(INIT)
  {
    assert Run(INIT, []) == INIT;
  }

  lemma ReachableStep(s: State, e: Event)
    requires Reachable(s)
    ensures Reachable(Step(s, e))
  {
    hide Step;
    var events: seq<Event> :| s == Run(INIT, events);
    assert (events + [e])[..|events|] == events;
    assert Step(s, e) == Run(INIT, events + [e]);
  }

  // ---------------------------------------------------------------------------
  // The invariant
  // ---------------------------------------------------------------------------

  /** Every send but the last was a signed one that was rejected. */
  ghost predicate Ladder(sends: seq<Send>) {
    forall i :: 0 <= i < |sends| - 1 ==> sends[i] == Send(true, true)
  }

  /** A request that has climbed to its third, unsigned send. */
  predicate AtTheTop(r: Request) {
    |r.sends| >= 2 && r.sends[0] == Send(true, true) && r.sends[1] == Send(true, true)
  }

  ghost predicate RequestInv(s: State, r: Request) {
    && |r.sends| <= 3 && Ladder(r.sends)
    && (!r.phase.Done? ==> |r.sends| <= 2 && (forall i :: 0 <= i < |r.sends| ==> r.sends[i] == Send(true, true)))
    && (r.phase.Signing? ==> |r.sends| <= 1 && !r.begunBypassed)
    && (r.phase.Sending? && r.phase.signed ==> |r.sends| <= 1 && !r.begunBypassed)
    && (|r.sends| == 3 ==> !r.sends[2].signed)
    && (|r.sends| >= 2 && r.sends[1] == Send(true, true) ==> s.bypass)
    && (r.phase.Signing? && r.phase.stage.Waiting? ==> r.phase.stage.handshake in s.handshakes)
    && (r.phase.Signing? && r.phase.stage.Building? ==> Installs(s, r.phase.stage.key))
  }

  predicate Installs(s: State, h: nat) {
    h in s.handshakes && s.handshakes[h].Installed?
  }

  ghost predicate Inv(s: State) {
    && (forall h :: h in s.handshakes ==> h < s.nextHandshake && (s.handshakes[h].Failed? || s.handshakes[h].epoch <= s.epoch))
    && (s.privKey.Some? ==> Installs(s, s.privKey.value) && s.handshakes[s.privKey.value].epoch == s.epoch)
    && (s.handshake.Some? ==> s.handshake.value in s.handshakes && s.handshakes[s.handshake.value] == InFlight(s.epoch))
    && (forall id :: id in s.requests ==> RequestInv(s, s.requests[id]))
    && (s.bypass ==> exists id :: id in s.requests && AtTheTop(s.requests[id]))
  }

  lemma StepInv(s: State, e: Event)
    requires Inv(s)
    ensures Inv(Step(s, e))
  {
    hide Inv, OnBegin, OnGateAnswered, OnHandshakeSettled, OnWaiterResumes, OnBuilt, OnAnswered, OnSendThrew;
    match e
    case Begin(id, eligible) => BeginInv(s, id, eligible);
    case GateAnswered(id, enabled) => GateAnsweredInv(s, id, enabled);
    case HandshakeSettled(h, ok) => HandshakeSettledInv(s, h, ok);
    case WaiterResumes(id) => WaiterResumesInv(s, id);
    case Built(id, ok) => BuiltInv(s, id, ok);
    case SendThrew(id) => SendThrewInv(s, id);
    case Answered(id, rejected) => AnsweredInv(s, id, rejected);
  }

  lemma BeginInv(s: State, id: nat, eligible: bool)
    requires Inv(s)
    ensures Inv(OnBegin(s, id, eligible))
  {
    KeepInv(s, OnBegin(s, id, eligible), id);
  }

  lemma GateAnsweredInv(s: State, id: nat, enabled: bool)
    requires Inv(s)
    ensures Inv(OnGateAnswered(s, id, enabled))
  {
    KeepInv(s, OnGateAnswered(s, id, enabled), id);
  }

  lemma HandshakeSettledInv(s: State, h: nat, ok: bool)
    requires Inv(s)
    ensures Inv(OnHandshakeSettled(s, h, ok))
  {
    KeepInv(s, OnHandshakeSettled(s, h, ok), 0);
  }

  lemma WaiterResumesInv(s: State, id: nat)
    requires Inv(s)
    ensures Inv(OnWaiterResumes(s, id))
  {
    KeepInv(s, OnWaiterResumes(s, id), id);
  }

  lemma BuiltInv(s: State, id: nat, ok: bool)
    requires Inv(s)
    ensures Inv(OnBuilt(s, id, ok))
  {
    KeepInv(s, OnBuilt(s, id, ok), id);
  }

  lemma SendThrewInv(s: State, id: nat)
    requires Inv(s)
    ensures Inv(OnSendThrew(s, id))
  {
    KeepInv(s, OnSendThrew(s, id), id);
  }

  /** Requests other than `id` carry over; so does whoever earned the bypass. */
  lemma KeepInv(s: State, t: State, id: nat)
    requires Inv(s)
    requires forall i :: i in s.requests && i != id ==> i in t.requests && t.requests[i] == s.requests[i]
    requires forall i :: i in t.requests && i != id ==> i in s.requests
    requires id in t.requests ==> RequestInv(t, t.requests[id])
    requires id in s.requests ==> id in t.requests && s.requests[id].sends == t.requests[id].sends
    requires s.bypass == t.bypass
    requires forall h :: h in s.handshakes ==> h in t.handshakes && (s.handshakes[h].Installed? ==> t.handshakes[h] == s.handshakes[h])
    requires forall h :: h in t.handshakes ==> h < t.nextHandshake && (t.handshakes[h].Failed? || t.handshakes[h].epoch <= t.epoch)
    requires t.privKey.Some? ==> Installs(t, t.privKey.value) && t.handshakes[t.privKey.value].epoch == t.epoch
    requires t.handshake.Some? ==> t.handshake.value in t.handshakes && t.handshakes[t.handshake.value] == InFlight(t.epoch)
    ensures Inv(t)
  {
    if s.bypass {
      var top :| top in s.requests && AtTheTop(s.requests[top]);
      assert top in t.requests && AtTheTop(t.requests[top]);
    }
    forall i | i in t.requests ensures RequestInv(t, t.requests[i]) {
      if i != id {
        assert RequestInv(s, s.requests[i]);
      }
    }
  }

  /** The answered request itself, one rung further. */
  lemma ClimbInv(s: State, id: nat, rejected: bool)
    requires id in s.requests && s.requests[id].phase.Sending? && RequestInv(s, s.requests[id])
    ensures var t := OnAnswered(s, id, rejected);
            && id in t.requests && RequestInv(t, t.requests[id])
            && (t.bypass && !s.bypass ==> AtTheTop(t.requests[id]))
            && (AtTheTop(s.requests[id]) ==> AtTheTop(t.requests[id]))
  {
    var r := s.requests[id];
    assert OnAnswered(s, id, rejected).requests[id].sends == r.sends + [Send(r.phase.signed, rejected)];
  }

  lemma AnsweredInv(s: State, id: nat, rejected: bool)
    requires Inv(s)
    ensures Inv(OnAnswered(s, id, rejected))
  {
    var t := OnAnswered(s, id, rejected);
    if id in s.requests && s.requests[id].phase.Sending? {
      ClimbInv(s, id, rejected);
      forall i | i in t.requests && i != id ensures RequestInv(t, t.requests[i]) {
        assert RequestInv(s, s.requests[i]);
      }
      if s.bypass {
        var top :| top in s.requests && AtTheTop(s.requests[top]);
        assert top in t.requests && AtTheTop(t.requests[top]);
      } else if t.bypass {
        assert AtTheTop(t.requests[id]);
      }
    }
  }

  lemma {:induction false} RunInv(events: seq<Event>)
    ensures Inv(Run(INIT, events))
  {
    hide Step, Inv;
    if events == [] {
      InitInv();
    } else {
      RunInv(events[..|events| - 1]);
      StepInv(Run(INIT, events[..|events| - 1]), events[|events| - 1]);
    }
  }

  lemma InitInv()
    ensures Inv(INIT)
  {
  }

  lemma ReachableInv(s: State)
    requires Reachable(s)
    ensures Inv(s)
  {
    var events: seq<Event> :| s == Run(INIT, events);
    RunInv(events);
  }

  // ---------------------------------------------------------------------------
  // The ladder
  // ---------------------------------------------------------------------------

  /** A request makes at most three sends; a third is unsigned and follows two signed rejections. */
  lemma LadderIsShort(s: State, id: nat)
    requires Reachable(s) && id in s.requests
    ensures var sends := s.requests[id].sends;
            && |sends| <= 3
            && (forall i :: 0 <= i < |sends| - 1 ==> sends[i] == Send(true, true))
            && (|sends| == 3 ==> !sends[2].signed)
  {
    ReachableInv(s);
  }

  /** Signing is bypassed for good exactly from the moment some request was rejected twice, signed. */
  lemma BypassIff(s: State)
    requires Reachable(s)
    ensures s.bypass <==> exists id :: id in s.requests && AtTheTop(s.requests[id])
  {
    ReachableInv(s);
  }

  lemma BypassIsForGood(s: State, e: Event)
    requires s.bypass
    ensures Step(s, e).bypass
  {
  }

  /** A signing call that begins after the bypass never signs. */
  lemma NeverSignsOnceBypassed(s: State, id: nat)
    requires Reachable(s) && id in s.requests && s.requests[id].begunBypassed
    ensures !s.requests[id].phase.Signing?
    ensures s.requests[id].phase.Sending? ==> !s.requests[id].phase.signed
  {
    ReachableInv(s);
  }

  // ---------------------------------------------------------------------------
  // Which calls can still sign after a bypass
  // ---------------------------------------------------------------------------

  /** The call is under way, and the handshake it waits on, if any, is not overtaken. */
  predicate CanStillSign(s: State, id: nat) {
    && id in s.requests && s.requests[id].phase.Signing?
    && (s.requests[id].phase.stage.Waiting? ==> !Overtaken(s, s.requests[id].phase.stage.handshake))
  }

  predicate SendsSigned(s: State, id: nat) {
    id in s.requests && s.requests[id].phase == Sending(true)
  }

  lemma Snoc(s: State, events: seq<Event>, e: Event) returns (all: seq<Event>)
    ensures all == events + [e]
    ensures Run(s, all) == Step(Run(s, events), e)
  {
    all := events + [e];
    assert all[..|all| - 1] == events;
  }

  lemma EmptyRun(s: State)
    ensures Run(s, []) == s
  {
  }

  /** A call that can still sign does so in some continuation. */
  lemma SigningContinues(s: State, id: nat) returns (events: seq<Event>)
    requires Inv(s) && CanStillSign(s, id)
    ensures SendsSigned(Run(s, events), id)
  {
    assert RequestInv(s, s.requests[id]);
    events := [];
    EmptyRun(s);
    hide Run, Step, Inv, RequestInv, Overtaken;
    if s.requests[id].phase.stage.Gate? {
      events := Snoc(s, events, GateAnswered(id, true));
      GateContinues(s, id);
    } else if s.requests[id].phase.stage.Waiting? {
      NotOvertaken(s, id);
    }
    var t := Run(s, events);
    if t.requests[id].phase.stage.Waiting? {
      WaitContinues(t, id);
      var h := t.requests[id].phase.stage.handshake;
      if t.handshakes[h].InFlight? {
        events := Snoc(s, events, HandshakeSettled(h, true));
      }
      events := Snoc(s, events, WaiterResumes(id));
    }
    BuiltSends(Run(s, events), id);
    events := Snoc(s, events, Built(id, true));
  }

  lemma NotOvertaken(s: State, id: nat)
    requires Inv(s) && CanStillSign(s, id) && s.requests[id].phase.stage.Waiting?
    ensures var h := s.requests[id].phase.stage.handshake;
            h in s.handshakes && (s.handshakes[h].Installed? || s.handshakes[h] == InFlight(s.epoch))
  {
    assert RequestInv(s, s.requests[id]);
  }

  lemma BuiltSends(s: State, id: nat)
    requires id in s.requests && s.requests[id].phase.Signing? && s.requests[id].phase.stage.Building?
    ensures SendsSigned(Step(s, Built(id, true)), id)
  {
  }

  lemma GateContinues(s: State, id: nat)
    requires Inv(s) && id in s.requests && s.requests[id].phase == Signing(Gate)
    ensures var t := Step(s, GateAnswered(id, true));
            && id in t.requests && t.requests[id].phase.Signing? && !t.requests[id].phase.stage.Gate?
            && (t.requests[id].phase.stage.Waiting? ==>
                  var h := t.requests[id].phase.stage.handshake; h in t.handshakes && t.handshakes[h] == InFlight(t.epoch))
  {
  }

  lemma WaitContinues(s: State, id: nat)
    requires id in s.requests && s.requests[id].phase.Signing? && s.requests[id].phase.stage.Waiting?
    requires var h := s.requests[id].phase.stage.handshake;
             h in s.handshakes && (s.handshakes[h].Installed? || s.handshakes[h] == InFlight(s.epoch))
    ensures var h := s.requests[id].phase.stage.handshake;
            var t := if s.handshakes[h].InFlight? then Step(s, HandshakeSettled(h, true)) else s;
            var u := Step(t, WaiterResumes(id));
            id in u.requests && u.requests[id].phase == Signing(Building(h))
  {
  }

  /** Bypassed, and this request neither signs now nor can still do so. */
  ghost predicate DoneSigning(s: State, id: nat) {
    Inv(s) && s.bypass && !SendsSigned(s, id) && !CanStillSign(s, id)
  }

  lemma DoneSigningStep(s: State, e: Event, id: nat)
    requires DoneSigning(s, id)
    ensures DoneSigning(Step(s, e), id)
  {
    StepInv(s, e);
    BypassIsForGood(s, e);
    if id in s.requests {
      assert RequestInv(s, s.requests[id]);
      if s.requests[id].phase.Signing? {
        OvertakenStep(s, e, s.requests[id].phase.stage.handshake);
      }
    }
    hide Inv;
  }

  lemma {:induction false} DoneSigningRun(s: State, events: seq<Event>, id: nat)
    requires DoneSigning(s, id)
    ensures DoneSigning(Run(s, events), id)
  {
    hide Step, DoneSigning;
    if events == [] {
      EmptyRun(s);
    } else {
      DoneSigningRun(s, events[..|events| - 1], id);
      DoneSigningStep(Run(s, events[..|events| - 1]), events[|events| - 1], id);
    }
  }

  /**
   * After a bypass a request is still sent signed in some continuation exactly when it is
   * being sent so now, or its call is under way on a handshake that is not overtaken: a
   * call that began before the bypass never looks at it again.
   */
  lemma SignsAfterBypassIff(s: State, id: nat)
    requires Reachable(s) && s.bypass
    ensures (exists events: seq<Event> :: SendsSigned(Run(s, events), id)) <==> SendsSigned(s, id) || CanStillSign(s, id)
  {
    ReachableInv(s);
    if SendsSigned(s, id) {
      EmptyRun(s);
      assert SendsSigned(Run(s, []), id);
    } else if CanStillSign(s, id) {
      var events := SigningContinues(s, id);
    } else {
      forall events: seq<Event> ensures !SendsSigned(Run(s, events), id) {
        DoneSigningRun(s, events, id);
      }
    }
  }

  /** Four sections in which a request at the gate gets a new key and is sent signed. */
  lemma NewKeyRound(s: State, before: seq<Event>, id: nat) returns (events: seq<Event>)
    requires var t := Run(s, before);
             id in t.requests && t.requests[id].phase == Signing(Gate) && t.privKey.None? && t.handshake.None?
    ensures var t, u := Run(s, before), Run(s, events);
            && u == Put(t, id, t.requests[id].(phase := Sending(true))).(
                      privKey := Some(t.nextHandshake), nextHandshake := t.nextHandshake + 1,
                      handshakes := t.handshakes[t.nextHandshake := Installed(t.epoch)])
  {
    var t := Run(s, before);
    hide Run;
    events := Snoc(s, before, GateAnswered(id, true));
    events := Snoc(s, events, HandshakeSettled(t.nextHandshake, true));
    events := Snoc(s, events, WaiterResumes(id));
    events := Snoc(s, events, Built(id, true));
    NewKeySteps(t, id);
  }

  lemma NewKeySteps(t: State, id: nat)
    requires id in t.requests && t.requests[id].phase == Signing(Gate) && t.privKey.None? && t.handshake.None?
    ensures var w := Step(Step(t, GateAnswered(id, true)), HandshakeSettled(t.nextHandshake, true));
            Step(Step(w, WaiterResumes(id)), Built(id, true))
            == Put(t, id, t.requests[id].(phase := Sending(true))).(
                 privKey := Some(t.nextHandshake), nextHandshake := t.nextHandshake + 1,
                 handshakes := t.handshakes[t.nextHandshake := Installed(t.epoch)])
  {
    var h := t.nextHandshake;
    var waiting := Step(t, GateAnswered(id, true));
    assert waiting == Put(t, id, t.requests[id].(phase := Signing(Waiting(h)))).(
                        handshake := Some(h), handshakes := t.handshakes[h := InFlight(t.epoch)], nextHandshake := h + 1);
    var settled := Step(waiting, HandshakeSettled(h, true));
    assert settled.handshakes == t.handshakes[h := Installed(t.epoch)];
    var building := Step(settled, WaiterResumes(id));
    assert building.requests[id] == t.requests[id].(phase := Signing(Building(h)));
    assert Step(building, Built(id, true)).requests == t.requests[id := t.requests[id].(phase := Sending(true))];
  }

  /** Such a call is reachable: one request is rejected twice while another stands at the gate. */
  lemma EarlierCallStillSigns() returns (events: seq<Event>)
    ensures var s := Run(INIT, events);
            Reachable(s) && s.bypass && 1 in s.requests && s.requests[1].phase == Signing(Gate) && CanStillSign(s, 1)
  {
    EmptyRun(INIT);
    hide Run;
    events := Snoc(INIT, [], Begin(1, true));
    events := Snoc(INIT, events, Begin(0, true));
    var s2 := Run(INIT, events);
    assert s2.requests[0] == Request(true, Signing(Gate), [], false) && s2.requests[1].phase == Signing(Gate);
    events := NewKeyRound(INIT, events, 0);
    events := Snoc(INIT, events, Answered(0, true));
    var s3 := Run(INIT, events);
    assert s3.requests[0] == Request(true, Signing(Gate), [Send(true, true)], false) && s3.requests[1] == s2.requests[1];
    events := NewKeyRound(INIT, events, 0);
    events := Snoc(INIT, events, Answered(0, true));
  }

  // ---------------------------------------------------------------------------
  // Epochs
  // ---------------------------------------------------------------------------

  /** A key is installed exactly when its handshake succeeds in the epoch it began in. */
  lemma InstalledIff(s: State, e: Event, h: nat)
    requires Reachable(s) && s.privKey != Some(h)
    ensures Step(s, e).privKey == Some(h) <==>
              e == HandshakeSettled(h, true) && h in s.handshakes && s.handshakes[h] == InFlight(s.epoch)
  {
    ReachableInv(s);
  }

  /** The cached key always belongs to the current epoch. */
  lemma KeyIsCurrent(s: State)
    requires Reachable(s) && s.privKey.Some?
    ensures s.privKey.value in s.handshakes && s.handshakes[s.privKey.value] == Installed(s.epoch)
  {
    ReachableInv(s);
  }

  /** A handshake that was overtaken by an invalidation, or rejected. */
  predicate Overtaken(s: State, h: nat) {
    h in s.handshakes && (s.handshakes[h].Failed? || (s.handshakes[h].InFlight? && s.handshakes[h].epoch < s.epoch))
  }

  lemma OvertakenStep(s: State, e: Event, h: nat)
    requires Inv(s) && Overtaken(s, h)
    ensures Overtaken(Step(s, e), h)
  {
  }

  /** The key of an overtaken handshake is never installed, nor given to any request, in any later run. */
  lemma {:induction false} StaleKeyIsNeverUsed(s: State, events: seq<Event>, h: nat, id: nat)
    requires Reachable(s) && Overtaken(s, h)
    ensures var t := Run(s, events);
            && Inv(t) && Overtaken(t, h)
            && t.privKey != Some(h)
            && (id in t.requests ==> t.requests[id].phase != Signing(Building(h)))
  {
    hide Step;
    if events == [] {
      ReachableInv(s);
    } else {
      StaleKeyIsNeverUsed(s, events[..|events| - 1], h, id);
      var t := Run(s, events[..|events| - 1]);
      OvertakenStep(t, events[|events| - 1], h);
      StepInv(t, events[|events| - 1]);
    }
    var t := Run(s, events);
    assert id in t.requests ==> RequestInv(t, t.requests[id]);
  }

  /** The section fails or invalidates whatever handshake runs. */
  predicate Overtakes(s: State, e: Event, running: nat) {
    || e == HandshakeSettled(running, false)
    || (e.WaiterResumes? && WaitsOnFailed(s, e.id))
    || (e.Answered? && e.rejected && SendsSigned(s, e.id))
  }

  /** The request waits on a handshake that failed. */
  predicate WaitsOnFailed(s: State, id: nat) {
    && id in s.requests && s.requests[id].phase.Signing? && s.requests[id].phase.stage.Waiting?
    && s.requests[id].phase.stage.handshake in s.handshakes
    && s.handshakes[s.requests[id].phase.stage.handshake].Failed?
  }

  /**
   * A running handshake is overtaken exactly by its own failure, by a rejected signature,
   * and by a waiter on some other failed handshake.
   */
  lemma OvertakesIff(s: State, e: Event, running: nat)
    requires Reachable(s) && s.handshake == Some(running)
    ensures Overtaken(Step(s, e), running) <==> Overtakes(s, e, running)
  {
    ReachableInv(s);
    if e.Answered? && SendsSigned(s, e.id) {
      assert RequestInv(s, s.requests[e.id]);
    }
  }

  /** No event of the run overtakes or settles the handshake. */
  ghost predicate Undisturbed(s: State, events: seq<Event>, running: nat) {
    forall i :: 0 <= i < |events| ==>
      !Overtakes(Run(s, events[..i]), events[i], running) && events[i] != HandshakeSettled(running, true)
  }

  /** A handshake that nothing overtakes installs its key, however long it runs. */
  lemma {:induction false} UndisturbedHandshakeInstalls(s: State, events: seq<Event>, running: nat)
    requires Reachable(s) && s.handshake == Some(running) && Undisturbed(s, events, running)
    ensures Reachable(Run(s, events)) && Run(s, events).handshake == Some(running)
    ensures Step(Run(s, events), HandshakeSettled(running, true)).privKey == Some(running)
  {
    hide Overtakes, Step;
    if events == [] {
      EmptyRun(s);
    } else {
      var last := |events| - 1;
      var before := events[..last];
      assert Undisturbed(s, before, running) by {
        forall i | 0 <= i < last
          ensures !Overtakes(Run(s, before[..i]), before[i], running) && before[i] != HandshakeSettled(running, true)
        {
          assert before[..i] == events[..i];
        }
      }
      UndisturbedHandshakeInstalls(s, before, running);
      KeepsRunning(Run(s, before), events[last], running);
      ReachableStep(Run(s, before), events[last]);
    }
    RunningInstalls(Run(s, events), running);
  }

  lemma RunningInstalls(s: State, running: nat)
    requires Reachable(s) && s.handshake == Some(running)
    ensures Step(s, HandshakeSettled(running, true)).privKey == Some(running)
  {
    ReachableInv(s);
  }

  lemma KeepsRunning(s: State, e: Event, running: nat)
    requires Reachable(s) && s.handshake == Some(running)
    requires !Overtakes(s, e, running) && e != HandshakeSettled(running, true)
    ensures Step(s, e).handshake == Some(running)
  {
    ReachableInv(s);
  }

  /** A late waiter really does it: a run to a state where one waits on a failed handshake while a newer one runs. */
  lemma LateFailureOvertakesNewHandshake() returns (events: seq<Event>)
    ensures var s := Run(INIT, events);
            && Reachable(s) && WaitsOnFailed(s, 0) && s.handshake == Some(2) && 2 in s.handshakes && s.handshakes[2] == InFlight(s.epoch)
            && Overtaken(Step(s, WaiterResumes(0)), 2)
  {
    EmptyRun(INIT);
    hide Run;
    events := Snoc(INIT, [], Begin(0, true));
    events := NewKeyRound(INIT, events, 0);
    events := Snoc(INIT, events, Begin(1, true));
    events := Snoc(INIT, events, GateAnswered(1, true));
    events := Snoc(INIT, events, Built(1, true));
    var s1 := Run(INIT, events);
    assert s1.requests[0] == Request(true, Sending(true), [], false) && s1.requests[1] == Request(true, Sending(true), [], false);
    events := Snoc(INIT, events, Answered(0, true));
    events := Snoc(INIT, events, GateAnswered(0, true));
    var s2 := Run(INIT, events);
    assert s2.requests[0].phase == Signing(Waiting(1)) && s2.handshakes[1] == InFlight(1) && s2.requests[1] == s1.requests[1];
    events := Snoc(INIT, events, Answered(1, true));
    events := Snoc(INIT, events, GateAnswered(1, true));
    var s3 := Run(INIT, events);
    assert s3.handshake == Some(2) && s3.epoch == 2 && s3.handshakes[2] == InFlight(2) && s3.handshakes[1] == InFlight(1);
    assert s3.requests[0].phase == Signing(Waiting(1));
    events := Snoc(INIT, events, HandshakeSettled(1, true));
    var s := Run(INIT, events);
    assert s.handshakes[1] == Failed && s.handshake == Some(2);
  }

  // ---------------------------------------------------------------------------
  // Credentials
  // ---------------------------------------------------------------------------

  /** First position of a dot, or the length. */
  function FirstDot(s: string): (i: nat)
    ensures i <= |s| && (i < |s| ==> s[i] == '.') && forall k :: 0 <= k < i ==> s[k] != '.'
  {
    if s == "" || s[0] == '.' then 0 else 1 + FirstDot(s[1..])
  }

  /** `parseSigningCredential`: key id and secret. */
  function ParseCredential(s: string): Option<(string, string)> {
    var dot := FirstDot(s);
    if dot == 0 || dot == |s| || FirstDot(s[dot + 1..]) < |s| - dot - 1 then None
    else if IsBlank(s[..dot]) || IsBlank(s[dot + 1..]) then None
    else Some((s[..dot], s[dot + 1..]))
  }

  predicate Plain(part: string) {
    !IsBlank(part) && forall k :: 0 <= k < |part| ==> part[k] != '.'
  }

  /** A credential is accepted exactly when it is two plain parts around one dot. */
  lemma ParsedIff(s: string, id: string, secret: string)
    ensures ParseCredential(s) == Some((id, secret)) <==> s == id + "." + secret && Plain(id) && Plain(secret)
  {
    var dot := FirstDot(s);
    if s == id + "." + secret && Plain(id) && Plain(secret) {
      assert s[|id|] == '.';
      assert forall k :: 0 <= k < |id| ==> s[k] == id[k];
      assert dot == |id|;
      assert s[dot + 1..] == secret && s[..dot] == id;
    }
    if ParseCredential(s) == Some((id, secret)) {
      assert s == s[..dot] + "." + s[dot + 1..];
      assert forall k :: 0 <= k < |secret| ==> secret[k] != '.' by {
        assert FirstDot(secret) == |secret|;
      }
    }
  }

  // ---------------------------------------------------------------------------
  // Proof of work
  // ---------------------------------------------------------------------------

  /** Bit `k` of a digest, counted from its most significant end, is there and zero. */
  predicate ZeroBit(bytes: seq<bv8>, k: nat) {
    k / 8 < |bytes| && bytes[k / 8] & Mask1(k % 8) == 0
  }

  function Mask1(bit: nat): bv8
    requires bit < 8
  {
    match bit
    case 0 => 0x80
    case 1 => 0x40
    case 2 => 0x20
    case 3 => 0x10
    case 4 => 0x08
    case 5 => 0x04
    case 6 => 0x02
    case _ => 0x01
  }

  /** The top `remainder` bits of a byte. */
  function HighMask(remainder: nat): bv8
    requires 0 < remainder < 8
  {
    match remainder
    case 1 => 0x80
    case 2 => 0xc0
    case 3 => 0xe0
    case 4 => 0xf0
    case 5 => 0xf8
    case 6 => 0xfc
    case _ => 0xfe
  }

  /** It is what `(255 << (8 - remainder)) & 255` computes. */
  lemma HighMaskIsShift(remainder: nat)
    requires 0 < remainder < 8
    ensures ((0xff as bv16) << (8 - remainder)) & 0xff == HighMask(remainder) as bv16
  {
    match remainder
    case 1 =>
    case 2 =>
    case 3 =>
    case 4 =>
    case 5 =>
    case 6 =>
    case 7 =>
  }

  lemma OneMoreBit(b: bv8, remainder: nat)
    requires 0 < remainder < 7
    ensures b & HighMask(remainder + 1) == 0 <==> b & HighMask(remainder) == 0 && b & Mask1(remainder) == 0
  {
    match remainder
    case 1 =>
    case 2 =>
    case 3 =>
    case 4 =>
    case 5 =>
    case 6 =>
  }

  lemma {:induction false} HighMaskBits(b: bv8, remainder: nat)
    requires 0 < remainder < 8
    ensures b & HighMask(remainder) == 0 <==> forall bit :: 0 <= bit < remainder ==> b & Mask1(bit) == 0
  {
    if remainder == 1 {
      assert Mask1(0) == HighMask(1);
    } else {
      HighMaskBits(b, remainder - 1);
      OneMoreBit(b, remainder - 1);
    }
  }

  lemma ZeroByte(b: bv8)
    ensures b == 0 <==> forall bit :: 0 <= bit < 8 ==> b & Mask1(bit) == 0
  {
    HighMaskBits(b, 7);
    assert Mask1(7) == 0x01;
    assert b == 0 <==> b & 0xfe == 0 && b & 0x01 == 0;
  }

  /** All bits of the first `n` bytes. */
  lemma WholeBytes(bytes: seq<bv8>, n: nat)
    ensures (n <= |bytes| && forall i :: 0 <= i < n ==> bytes[i] == 0) <==> forall k :: 0 <= k < 8 * n ==> ZeroBit(bytes, k)
  {
    if forall k :: 0 <= k < 8 * n ==> ZeroBit(bytes, k) {
      if n > 0 {
        assert ZeroBit(bytes, 8 * n - 1);
      }
      forall i | 0 <= i < n ensures bytes[i] == 0 {
        forall bit | 0 <= bit < 8 ensures bytes[i] & Mask1(bit) == 0 {
          assert ZeroBit(bytes, 8 * i + bit);
        }
        ZeroByte(bytes[i]);
      }
    }
    if n <= |bytes| && forall i :: 0 <= i < n ==> bytes[i] == 0 {
      forall k | 0 <= k < 8 * n ensures ZeroBit(bytes, k) {
        ZeroByte(bytes[k / 8]);
      }
    }
  }
}
