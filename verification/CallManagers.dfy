/** The call manager as the object it is: fields changed in place by every method, proved
    to do what the step functions of `CallPhone` say. */
module CallManagers {
  import opened Common
  import opened CallPhone

  class CallManager {
    const me: User
    const deviceId: Device
    var state: CallState
    var pc: Option<Peer>
    var peerDevice: Option<Device>
    var pendingOffer: Option<Signal>
    var pendingIce: seq<Candidate>
    var remoteSet: bool
    var timeout: Option<nat>
    var endTimer: Option<nat>
    // The browser's timers and clock, and what went out on the socket.
    var timers: map<nat, Timer>
    var nextTimer: nat
    var clock: real
    var sent: seq<Signal>
    ghost var history: History

    ghost function Now(): Phone
      reads this
    {
      Phone(me, deviceId, state, pc, peerDevice, pendingOffer, pendingIce, remoteSet,
            timers, nextTimer, timeout, endTimer, clock, sent, history)
    }

    constructor (me: User, deviceId: Device)
      ensures Now() == NewPhone(me, deviceId)
    {
      this.me, this.deviceId := me, deviceId;
      state, pc, peerDevice, pendingOffer, pendingIce, remoteSet := INITIAL, None, None, None, [], false;
      timeout, endTimer, timers, nextTimer, clock, sent := None, None, map[], 0, 0.0, [];
      history := History(0.0, false, false, false, []);
    }

    predicate Busy()
      reads this
    {
      state.phase != Idle && state.phase != Ended
    }

    method ClearTimer(id: Option<nat>)
      modifies this`timers
      ensures timers == Cleared(old(timers), id)
    {
      if id.Some? {
        timers := timers - {id.value};
      }
    }

    method SetTimer(kind: TimerKind) returns (id: nat)
      modifies this`timers, this`nextTimer
      ensures id == old(nextTimer) && nextTimer == id + 1
      ensures timers == old(timers)[id := Timer(kind, clock + Span(kind))]
    {
      id := nextTimer;
      timers := timers[id := Timer(kind, clock + Span(kind))];
      nextTimer := nextTimer + 1;
    }

    method Emit(kind: Kind, candidate: Option<Candidate>)
      modifies this`sent
      ensures Now() == Send(old(Now()), kind, candidate)
    {
      if state.chat.None? || state.call.None? {
        return;
      }
      sent := sent + [Signal(kind, state.chat.value, state.call.value, Some(deviceId), None, candidate)];
    }

    method ArmConnectTimeout()
      modifies this
      ensures Now() == ArmTimeout(ClearTimeout(old(Now())), Connect)
    {
      ClearTimer(timeout);
      StartTimeout(Connect);
    }

    method FlushPending()
      modifies this
      ensures Now() == FlushIce(old(Now()))
    {
      for i := 0 to |pendingIce|
        invariant pendingIce == old(pendingIce)
        invariant Now() == old(Now()).(pc := pc)
        invariant pc.Some? <==> old(pc).Some?
        invariant pc.Some? ==> pc.value == Peer(old(pc).value.remote, old(pc).value.handed + pendingIce[..i])
      {
        if pc.Some? {
          assert pendingIce[..i + 1] == pendingIce[..i] + [pendingIce[i]];
          pc := Some(pc.value.(handed := pc.value.handed + [pendingIce[i]]));
        }
      }
      assert pendingIce[..|pendingIce|] == pendingIce;
      pendingIce := [];
    }

    method FinishCall(reason: Reason)
      modifies this
      ensures Now() == Finish(old(Now()), reason)
    {
      if !Busy() {
        return;
      }
      ClearTimer(timeout);
      StartEndTimer();
      pc := None;
      state := state.(phase := Ended, reason := Some(reason), minimized := false);
      history := history.(ended := true);
    }

    method StartEndTimer()
      modifies `timers, `nextTimer, `endTimer
      ensures timers == old(timers)[old(nextTimer) := Timer(Clear, clock + Span(Clear))]
      ensures endTimer == Some(old(nextTimer)) && nextTimer == old(nextTimer) + 1
    {
      var id := SetTimer(Clear);
      endTimer := Some(id);
    }

    method ResetCall()
      modifies this
      ensures Now() == Reset(old(Now()))
    {
      ClearTimer(endTimer);
      ClearTimer(timeout);
      pc, peerDevice, pendingOffer, pendingIce, remoteSet := None, None, None, [], false;
      history := History(clock, false, false, false, []);
    }

    method StartCall(chat: ChatId, peer: User, call: CallId, setup: Setup)
      modifies this
      ensures Now() == Step(old(Now()), Start(chat, peer, call, setup))
    {
      if Busy() {
        state := state.(minimized := false);
        return;
      }
      ResetCall();
      state := INITIAL.(phase := Outgoing, call := Some(call), chat := Some(chat), peer := Some(peer), outgoing := true);
      PlaceCall(setup);
    }

    /** What follows the microphone prompt. */
    method PlaceCall(setup: Setup)
      requires state.phase == Outgoing
      modifies this
      ensures Now() ==
        if setup.Ready? then
          ArmTimeout(Send(old(Now()).(pc := Some(Peer(false, []))), Offer, None), RingOut)
        else Finish(Send(old(Now()), End, None), SetupReason(setup))
    {
      if !setup.Ready? {
        GiveUp(SetupReason(setup));
        return;
      }
      pc := Some(Peer(false, []));
      Emit(Offer, None);
      StartTimeout(RingOut);
    }

    method StartTimeout(kind: TimerKind)
      modifies this
      ensures Now() == ArmTimeout(old(Now()), kind)
    {
      var id := SetTimer(kind);
      timeout := Some(id);
    }

    method AcceptCall(setup: Setup)
      modifies this
      ensures Now() == Step(old(Now()), Accept(setup))
    {
      if state.phase != Incoming || pendingOffer.None? {
        return;
      }
      state := state.(phase := Connecting);
      if !setup.Ready? {
        GiveUp(SetupReason(setup));
        return;
      }
      TakeCall();
    }

    /** What follows the microphone prompt. */
    method TakeCall()
      modifies this
      ensures Now() ==
        ArmTimeout(ClearTimeout(Send(FlushIce(old(Now()).(pc := Some(Peer(true, [])), remoteSet := true)), Answer, None)), Connect)
    {
      pc := Some(Peer(true, []));
      remoteSet := true;
      FlushPending();
      Emit(Answer, None);
      ArmConnectTimeout();
    }

    /** The prompt or the connection failed. */
    method GiveUp(reason: Reason)
      modifies this
      ensures Now() == Finish(Send(old(Now()), End, None), reason)
    {
      Emit(End, None);
      FinishCall(reason);
    }

    method DeclineCall()
      modifies this
      ensures Now() == Step(old(Now()), Decline)
    {
      if state.phase != Incoming {
        return;
      }
      Emit(Reject, None);
      FinishCall(Declined);
    }

    method HangUpCall()
      modifies this
      ensures Now() == Step(old(Now()), HangUp)
    {
      if !Busy() {
        return;
      }
      if state.phase == Incoming {
        DeclineCall();
        return;
      }
      Emit(End, None);
      FinishCall(if state.outgoing && !state.connected then Cancelled else Hangup);
    }

    method HandleOffer(msg: Signal)
      modifies this
      ensures Now() == OnOffer(old(Now()), msg)
    {
      if Busy() {
        sent := sent + [Signal(Kind.Busy, msg.chat, msg.call, Some(deviceId), None, None)];
        return;
      }
      ResetCall();
      peerDevice, pendingOffer := msg.device, Some(msg);
      state := INITIAL.(phase := Incoming, call := Some(msg.call), chat := Some(msg.chat), peer := msg.from);
      Emit(RingingSignal, None);
      StartTimeout(RingIn);
    }

    method HandleAnswer(msg: Signal, applied: bool)
      modifies this
      ensures Now() == OnAnswer(old(Now()), msg, applied)
    {
      if !state.outgoing || remoteSet {
        return;
      }
      BeginConnecting(msg.device);
      if pc.Some? {
        if !applied {
          history := history.(rejected := true);
          return;
        }
        pc := Some(pc.value.(remote := true));
      }
      remoteSet := true;
      FlushAndArm();
    }

    method BeginConnecting(device: Option<Device>)
      modifies `peerDevice, `timers, `state
      ensures Now() == ClearTimeout(old(Now())).(peerDevice := device, state := old(state).(phase := Connecting))
    {
      peerDevice := device;
      ClearTimer(timeout);
      state := state.(phase := Connecting);
    }

    method FlushAndArm()
      modifies this
      ensures Now() == ArmTimeout(ClearTimeout(FlushIce(old(Now()))), Connect)
    {
      FlushPending();
      ArmConnectTimeout();
    }

    method HandleIce(msg: Signal)
      modifies this
      ensures Now() == OnIce(old(Now()), msg)
    {
      if peerDevice.Some? && msg.device != peerDevice {
        return;
      }
      if msg.candidate.None? {
        return;
      }
      var c := msg.candidate.value;
      history := history.(heard := history.heard + [c]);
      if remoteSet {
        if pc.Some? {
          pc := Some(pc.value.(handed := pc.value.handed + [c]));
        }
      } else {
        pendingIce := pendingIce + [c];
      }
    }

    method HandleSignal(msg: Signal, applied: bool)
      modifies this
      ensures Now() == Step(old(Now()), OnSocket(msg, applied))
      ensures old(Busy()) && old(state).call == Some(msg.call) && msg.device != Some(deviceId) ==>
        (state.phase.Ended? <==> Ends(old(Now()), msg)) && (state.phase.Ended? ==> pc.None?)
    {
      if Busy() && state.call == Some(msg.call) && msg.device != Some(deviceId) {
        SignalPhaseExactly(Now(), msg, applied);
      }
      if msg.device == Some(deviceId) {
        return;
      }
      var mine := msg.from == Some(me);
      if msg.kind.Offer? && !mine {
        HandleOffer(msg);
        return;
      }
      if state.call != Some(msg.call) {
        return;
      }
      if mine {
        if state.phase == Incoming && (msg.kind.Answer? || msg.kind.Reject?) {
          FinishCall(AnsweredElsewhere);
        }
        return;
      }
      match msg.kind
      case RingingSignal =>
        if state.phase == Outgoing {
          state := state.(phase := Ringing);
        }
      case Answer => HandleAnswer(msg, applied);
      case Ice => HandleIce(msg);
      case Reject =>
        if state.outgoing {
          FinishCall(Declined);
        }
      case Busy =>
        if state.outgoing {
          FinishCall(BusyThere);
        }
      case Unavailable =>
        if state.outgoing {
          FinishCall(Unreachable);
        }
      case End => FinishCall(if state.phase == Incoming then Cancelled else RemoteHangup);
      case Offer =>
    }

    /** The browser runs a due timer's callback. */
    method RunTimer(id: nat)
      requires id in timers
      modifies this
      ensures Now() == Step(old(Now()), Fire(id))
    {
      var kind := timers[id].kind;
      timers := timers - {id};
      match kind
      case RingOut =>
        if state.phase == Outgoing || state.phase == Ringing {
          Emit(End, None);
          FinishCall(NoAnswer);
        }
      case RingIn =>
        if state.phase == Incoming {
          FinishCall(NoAnswer);
        }
      case Connect =>
        if state.phase == Connecting {
          Emit(End, None);
          FinishCall(Broken);
        }
      case Clear =>
        if state.phase == Ended {
          state := INITIAL;
        }
    }
  }
}
