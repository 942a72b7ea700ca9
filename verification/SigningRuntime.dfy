/**
 * Request signing in the source's own form: the fields of one signer state and the requests
 * that share it, changed section by section; and the two small computations, as loops.
 */
module SigningRuntime {
  import opened Util
  import opened Accounts
  import opened S = Signing

  /** `hasLeadingZeroBits`: the first `bits` bits are there and zero. */
  method HasLeadingZeroBits(bytes: seq<bv8>, bits: nat) returns (r: bool)
    ensures r <==> forall k :: 0 <= k < bits ==> ZeroBit(bytes, k)
  {
    var fullBytes := bits / 8;
    for i := 0 to fullBytes
      invariant i <= |bytes| && forall j :: 0 <= j < i ==> bytes[j] == 0
    {
      if i >= |bytes| || bytes[i] != 0 {
        WholeBytes(bytes, fullBytes);
        return false;
      }
    }
    WholeBytes(bytes, fullBytes);
    var remainder := bits % 8;
    if remainder == 0 {
      return true;
    }
    var mask := ((0xff as bv16) << (8 - remainder)) & 0xff;
    HighMaskIsShift(remainder);
    var last := if fullBytes < |bytes| then bytes[fullBytes] else 0xff;
    r := last & (mask as bv8) == 0;
    HighMaskBits(last, remainder);
    LastBits(bytes, bits, last, r);
  }

  lemma LastBits(bytes: seq<bv8>, bits: nat, last: bv8, r: bool)
    requires bits % 8 > 0 && last == if bits / 8 < |bytes| then bytes[bits / 8] else 0xff
    requires r <==> forall bit :: 0 <= bit < bits % 8 ==> last & Mask1(bit) == 0
    requires forall k :: 0 <= k < 8 * (bits / 8) ==> ZeroBit(bytes, k)
    ensures r <==> forall k :: 0 <= k < bits ==> ZeroBit(bytes, k)
  {
    var n := bits / 8;
    if r {
      LastBitsAreZero(bytes, bits, last);
    }
    hide Mask1;
    if forall k :: 0 <= k < bits ==> ZeroBit(bytes, k) {
      forall bit | 0 <= bit < bits % 8 ensures last & Mask1(bit) == 0 {
        assert ZeroBit(bytes, 8 * n + bit);
      }
    }
  }

  lemma LastBitsAreZero(bytes: seq<bv8>, bits: nat, last: bv8)
    requires bits % 8 > 0 && last == if bits / 8 < |bytes| then bytes[bits / 8] else 0xff
    requires forall bit :: 0 <= bit < bits % 8 ==> last & Mask1(bit) == 0
    requires forall k :: 0 <= k < 8 * (bits / 8) ==> ZeroBit(bytes, k)
    ensures forall k :: 0 <= k < bits ==> ZeroBit(bytes, k)
  {
    var n := bits / 8;
    assert n < |bytes| by { assert 0xff & Mask1(0) != 0; }
    hide Mask1;
    forall k | 0 <= k < bits ensures ZeroBit(bytes, k) {
      if k >= 8 * n {
        assert k / 8 == n && last & Mask1(k % 8) == 0;
      }
    }
  }

  method IndexOfDot(s: string) returns (i: nat)
    ensures i == FirstDot(s)
  {
    i := 0;
    while i < |s| && s[i] != '.'
      invariant i <= |s|
      invariant forall k :: 0 <= k < i ==> s[k] != '.'
    {
      i := i + 1;
    }
  }

  method ParseSigningCredential(credential: string) returns (parsed: Option<(string, string)>)
    ensures parsed == ParseCredential(credential)
  {
    var dot := IndexOfDot(credential);
    if dot == 0 || dot == |credential| {
      return None;
    }
    var next := IndexOfDot(credential[dot + 1..]);
    if next < |credential| - dot - 1 {
      return None;
    }
    var id, secret := credential[..dot], credential[dot + 1..];
    parsed := if IsBlank(id) || IsBlank(secret) then None else Some((id, secret));
  }

  class ClientSigner {
    var epoch: nat
    var privKey: Option<nat>
    var handshake: Option<nat>
    var bypass: bool
    var handshakes: map<nat, Handshake>
    var nextHandshake: nat
    var requests: map<nat, Request>

    ghost function State(): S.State
      reads this
    {
      S.State(epoch, privKey, handshake, bypass, handshakes, nextHandshake, requests)
    }

    /** Some run of module `Signing` gives this state. */
    ghost predicate Valid()
      reads this
    {
      Reachable(State())
    }

    constructor ()
      ensures Valid() && State() == INIT
    {
      epoch, privKey, handshake, bypass := 0, None, None, false;
      handshakes, nextHandshake, requests := map[], 0, map[];
      new;
      InitReachable();
    }

    method InvalidateState()
      modifies `epoch, `privKey, `handshake
      ensures State() == Invalidate(old(State()))
    {
      epoch := epoch + 1;
      privKey := None;
      handshake := None;
    }

    method SetBypass()
      modifies `bypass, `epoch, `privKey, `handshake
      ensures State() == Invalidate(old(State()).(bypass := true))
    {
      bypass := true;
      InvalidateState();
    }

    method SetPhase(id: nat, phase: Phase)
      requires id in requests
      modifies `requests
      ensures State() == Put(old(State()), id, old(requests)[id].(phase := phase))
    {
      requests := requests[id := requests[id].(phase := phase)];
    }

    /** `signWithStatus` up to its first await. */
    method SignWithStatus(id: nat, r: Request)
      modifies `requests
      ensures State() == BeginSign(old(State()), id, r)
    {
      var next := r.(begunBypassed := bypass, phase := Signing(Gate));
      if !r.eligible || bypass {
        next := next.(phase := Sending(false));
      }
      requests := requests[id := next];
    }

    method SendWithClientSigning(id: nat, eligible: bool)
      requires Valid() && id !in requests
      modifies this
      ensures Valid() && State() == Step(old(State()), Begin(id, eligible))
    {
      hide Reachable, Run;
      ReachableStep(State(), Begin(id, eligible));
      SignWithStatus(id, Request(eligible, Done, [], false));
    }

    /** The gate is known; `ensurePrivateKey` up to its await. */
    method EnsurePrivateKey(id: nat, enabled: bool)
      requires Valid() && id in requests && requests[id].phase == Signing(Gate)
      modifies this
      ensures Valid() && State() == Step(old(State()), GateAnswered(id, enabled))
    {
      hide Reachable, Run;
      ReachableStep(State(), GateAnswered(id, enabled));
      if !enabled {
        SetPhase(id, Sending(false));
        return;
      }
      if privKey.Some? {
        SetPhase(id, Signing(Building(privKey.value)));
        return;
      }
      if handshake.None? {
        handshakes := handshakes[nextHandshake := InFlight(epoch)];
        handshake := Some(nextHandshake);
        nextHandshake := nextHandshake + 1;
      }
      SetPhase(id, Signing(Waiting(handshake.value)));
    }

    /** The two reactions of a settled handshake: install the key, clear the promise. */
    method HandshakeDone(h: nat, ok: bool)
      requires Valid() && h in handshakes && handshakes[h].InFlight?
      modifies this
      ensures Valid() && State() == Step(old(State()), HandshakeSettled(h, ok))
    {
      hide Reachable, Run;
      ReachableStep(State(), HandshakeSettled(h, ok));
      if ok && epoch == handshakes[h].epoch {
        privKey := Some(h);
        handshakes := handshakes[h := Installed(epoch)];
      } else {
        handshakes := handshakes[h := Failed];
      }
      if handshake == Some(h) {
        handshake := None;
      }
    }

    /** `signWithStatus` after its wait for the key. */
    method KeyAwaited(id: nat)
      requires Valid() && id in requests && requests[id].phase.Signing? && requests[id].phase.stage.Waiting?
      requires requests[id].phase.stage.handshake in handshakes && !handshakes[requests[id].phase.stage.handshake].InFlight?
      modifies this
      ensures Valid() && State() == Step(old(State()), WaiterResumes(id))
    {
      hide Reachable, Run;
      ReachableStep(State(), WaiterResumes(id));
      var h := requests[id].phase.stage.handshake;
      if handshakes[h].Failed? {
        InvalidateState();
        SetPhase(id, Sending(false));
      } else {
        SetPhase(id, Signing(Building(h)));
      }
    }

    method BuildSignedPairs(id: nat, ok: bool)
      requires Valid() && id in requests && requests[id].phase.Signing? && requests[id].phase.stage.Building?
      modifies this
      ensures Valid() && State() == Step(old(State()), Built(id, ok))
    {
      hide Reachable, Run;
      ReachableStep(State(), Built(id, ok));
      SetPhase(id, Sending(ok));
    }

    /** One rung of the retry ladder. */
    method SendAnswered(id: nat, rejected: bool)
      requires Valid() && id in requests && requests[id].phase.Sending?
      modifies this
      ensures Valid() && State() == Step(old(State()), Answered(id, rejected))
    {
      hide Reachable, Run;
      ReachableStep(State(), Answered(id, rejected));
      var r := requests[id];
      r := r.(sends := r.sends + [Send(r.phase.signed, rejected)]);
      requests := requests[id := r];
      ghost var before, after := old(requests), requests;
      assert forall v: Request {:trigger before[id := v]} {:trigger after[id := v]} :: after[id := v] == before[id := v];
      if |r.sends| >= 3 || !r.phase.signed || !rejected {
        SetPhase(id, Done);
      } else if |r.sends| == 1 {
        InvalidateState();
        SignWithStatus(id, r);
      } else {
        SetBypass();
        SetPhase(id, Sending(false));
      }
    }

    method SendFailed(id: nat)
      requires Valid() && id in requests && requests[id].phase.Sending?
      modifies this
      ensures Valid() && State() == Step(old(State()), SendThrew(id))
    {
      hide Reachable, Run;
      ReachableStep(State(), SendThrew(id));
      SetPhase(id, Done);
    }
  }
}
