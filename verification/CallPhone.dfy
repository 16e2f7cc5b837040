/** One device's call manager (`calls.js`).

    Every handler is one step: its awaits are not interleaved with other handlers. Promises
    that may be rejected are outcomes given with the event. Timers fire no later than the
    clock passes their due time. */
module CallPhone {
  import opened Common

  type User = string
  type Device = nat
  type CallId = nat
  type ChatId = string
  type Candidate = string

  datatype Kind = Offer | RingingSignal | Answer | Ice | Reject | Busy | End | Unavailable

  /** A signalling message. `from` is written by the server; only what the device sends
      carries a device id. */
  datatype Signal = Signal(kind: Kind, chat: ChatId, call: CallId, device: Option<Device>,
                           from: Option<User>, candidate: Option<Candidate>)

  datatype Phase = Idle | Outgoing | Ringing | Incoming | Connecting | Active | Ended

  datatype Reason = NoAnswer | MicDenied | Broken | Declined | Cancelled | Hangup | AnsweredElsewhere
                  | BusyThere | Unreachable | RemoteHangup

  datatype CallState = CallState(
    phase: Phase, reason: Option<Reason>, call: Option<CallId>, chat: Option<ChatId>, peer: Option<User>,
    outgoing: bool, muted: bool, connected: bool, minimized: bool)

  const INITIAL := CallState(Idle, None, None, None, None, false, false, false, false)

  /** The browser's peer connection: whether it has a remote description, and the remote
      candidates it was handed. */
  datatype Peer = Peer(remote: bool, handed: seq<Candidate>)

  datatype TimerKind = RingOut | RingIn | Connect | Clear

  datatype Timer = Timer(kind: TimerKind, due: real)

  function Span(kind: TimerKind): real {
    match kind
    case RingOut => 45.0
    case RingIn => 50.0
    case Connect => 30.0
    case Clear => 2.5
  }

  /** What the properties speak of and the code does not keep: when the call began, whether
      it was ever active, whether it has ended, whether the connection has rejected the
      description in an answer to it, and the remote candidates it let through. */
  datatype History = History(began: real, active: bool, ended: bool, rejected: bool, heard: seq<Candidate>)

  datatype Phone = Phone(
    user: User, device: Device,
    state: CallState,
    pc: Option<Peer>,
    peerDevice: Option<Device>,
    pendingOffer: Option<Signal>,
    pendingIce: seq<Candidate>,
    remoteSet: bool,
    timers: map<nat, Timer>,        // armed timers, by the id setTimeout gave
    nextTimer: nat,
    timeout: Option<nat>,
    endTimer: Option<nat>,
    now: real,
    sent: seq<Signal>,
    history: History)

  function NewPhone(user: User, device: Device): Phone {
    Phone(user, device, INITIAL, None, None, None, [], false, map[], 0, None, None, 0.0, [], History(0.0, false, false, false, []))
  }

  predicate IsBusy(p: Phone) { p.state.phase != Idle && p.state.phase != Ended }

  // ------------------------------------------------------------ small helpers

  function Cleared(timers: map<nat, Timer>, id: Option<nat>): map<nat, Timer> {
    if id.Some? then timers - {id.value} else timers
  }

  function ArmTimeout(p: Phone, kind: TimerKind): Phone {
    p.(timers := p.timers[p.nextTimer := Timer(kind, p.now + Span(kind))],
       timeout := Some(p.nextTimer), nextTimer := p.nextTimer + 1)
  }

  function ClearTimeout(p: Phone): Phone { p.(timers := Cleared(p.timers, p.timeout)) }

  function Send(p: Phone, kind: Kind, candidate: Option<Candidate>): Phone {
    if p.state.chat.None? || p.state.call.None? then p else
      p.(sent := p.sent + [Signal(kind, p.state.chat.value, p.state.call.value, Some(p.device), None, candidate)])
  }

  /** The previous `endTimer` is not cleared here. */
  function Finish(p: Phone, reason: Reason): Phone {
    if !IsBusy(p) then p else
      p.(timers := Cleared(p.timers, p.timeout)[p.nextTimer := Timer(Clear, p.now + Span(Clear))],
         endTimer := Some(p.nextTimer), nextTimer := p.nextTimer + 1,
         pc := None,
         state := p.state.(phase := Ended, reason := Some(reason), minimized := false),
         history := p.history.(ended := true))
  }

  function Reset(p: Phone): Phone {
    p.(timers := Cleared(Cleared(p.timers, p.endTimer), p.timeout),
       pc := None, peerDevice := None, pendingOffer := None, pendingIce := [], remoteSet := false,
       history := History(p.now, false, false, false, []))
  }

  /** Every queued candidate is handed to the peer connection, if there is one. */
  function FlushIce(p: Phone): Phone {
    p.(pendingIce := [],
       pc := if p.pc.Some? then Some(p.pc.value.(handed := p.pc.value.handed + p.pendingIce)) else None)
  }

  // ------------------------------------------------------------------- events

  /** How asking for the microphone and building the connection went. */
  datatype Setup = Ready | Denied | SetupFailed

  datatype Event =
    | Start(chat: ChatId, peer: User, call: CallId, setup: Setup)
    | Accept(setup: Setup)
    | Decline
    | HangUp
    | ToggleMute
    | SetMinimized(on: bool)
    | OnSocket(msg: Signal, applied: bool)   // `applied`: the connection took an answer's description
    | PeerConnected
    | PeerFailed
    | LocalCandidate(candidate: Candidate)
    | Fire(timer: nat)
    | Tick(to: real)

  function SetupReason(setup: Setup): Reason { if setup.Denied? then MicDenied else Broken }

  function OnStart(p: Phone, chat: ChatId, peer: User, call: CallId, setup: Setup): Phone {
    if IsBusy(p) then p.(state := p.state.(minimized := false)) else
      var q := Reset(p).(state := INITIAL.(phase := Outgoing, call := Some(call), chat := Some(chat), peer := Some(peer),
                                           outgoing := true));
      if setup.Ready? then ArmTimeout(Send(q.(pc := Some(Peer(false, []))), Offer, None), RingOut)
      else Finish(Send(q, End, None), SetupReason(setup))
  }

  function OnAccept(p: Phone, setup: Setup): Phone {
    if !p.state.phase.Incoming? || p.pendingOffer.None? then p else
      var q := p.(state := p.state.(phase := Connecting));
      if setup.Ready? then
        var ready := FlushIce(q.(pc := Some(Peer(true, [])), remoteSet := true));
        ArmTimeout(ClearTimeout(Send(ready, Answer, None)), Connect)
      else Finish(Send(q, End, None), SetupReason(setup))
  }

  function OnDecline(p: Phone): Phone {
    if !p.state.phase.Incoming? then p else Finish(Send(p, Reject, None), Declined)
  }

  function OnHangUp(p: Phone): Phone {
    if !IsBusy(p) then p
    else if p.state.phase.Incoming? then OnDecline(p)
    else Finish(Send(p, End, None), if p.state.outgoing && !p.state.connected then Cancelled else Hangup)
  }

  function OnOffer(p: Phone, msg: Signal): Phone {
    if IsBusy(p) then
      p.(sent := p.sent + [Signal(Busy, msg.chat, msg.call, Some(p.device), None, None)])
    else
      var q := Reset(p).(peerDevice := msg.device, pendingOffer := Some(msg),
                         state := INITIAL.(phase := Incoming, call := Some(msg.call), chat := Some(msg.chat), peer := msg.from));
      ArmTimeout(Send(q, RingingSignal, None), RingIn)
  }

  /** A description that the connection rejects ends the handler where it stands. */
  function OnAnswer(p: Phone, msg: Signal, applied: bool): Phone {
    if !p.state.outgoing || p.remoteSet then p else
      var q := ClearTimeout(p).(peerDevice := msg.device, state := p.state.(phase := Connecting));
      if p.pc.Some? && !applied then q.(history := p.history.(rejected := true)) else
        var pc := if p.pc.Some? then Some(p.pc.value.(remote := true)) else None;
        ArmTimeout(ClearTimeout(FlushIce(q.(pc := pc, remoteSet := true))), Connect)
  }

  function OnIce(p: Phone, msg: Signal): Phone {
    if (p.peerDevice.Some? && msg.device != p.peerDevice) || msg.candidate.None? then p else
      var c := msg.candidate.value;
      var q := p.(history := p.history.(heard := p.history.heard + [c]));
      if p.remoteSet then
        q.(pc := if p.pc.Some? then Some(p.pc.value.(handed := p.pc.value.handed + [c])) else None)
      else q.(pendingIce := p.pendingIce + [c])
  }

  function OnSignal(p: Phone, msg: Signal, applied: bool): Phone {
    if msg.device == Some(p.device) then p else
    var mine := msg.from == Some(p.user);
    if msg.kind.Offer? && !mine then OnOffer(p, msg)
    else if p.state.call != Some(msg.call) then p
    else if mine then
      if p.state.phase.Incoming? && (msg.kind.Answer? || msg.kind.Reject?) then Finish(p, AnsweredElsewhere) else p
    else
      match msg.kind
      case RingingSignal => if p.state.phase.Outgoing? then p.(state := p.state.(phase := Ringing)) else p
      case Answer => OnAnswer(p, msg, applied)
      case Ice => OnIce(p, msg)
      case Reject => if p.state.outgoing then Finish(p, Declined) else p
      case Busy => if p.state.outgoing then Finish(p, BusyThere) else p
      case Unavailable => if p.state.outgoing then Finish(p, Unreachable) else p
      case End => Finish(p, if p.state.phase.Incoming? then Cancelled else RemoteHangup)
      case Offer => p
  }

  function OnConnected(p: Phone): Phone {
    if p.pc.None? || p.state.phase.Active? then p else
      ClearTimeout(p).(state := p.state.(phase := Active, connected := true), history := p.history.(active := true))
  }

  function OnFire(p: Phone, id: nat): Phone {
    if id !in p.timers then p else
      var q := p.(timers := p.timers - {id});
      match p.timers[id].kind
      case RingOut =>
        if p.state.phase.Outgoing? || p.state.phase.Ringing? then Finish(Send(q, End, None), NoAnswer) else q
      case RingIn => if p.state.phase.Incoming? then Finish(q, NoAnswer) else q
      case Connect => if p.state.phase.Connecting? then Finish(Send(q, End, None), Broken) else q
      case Clear => if p.state.phase.Ended? then q.(state := INITIAL) else q
  }

  function Step(p: Phone, e: Event): Phone {
    match e
    case Start(chat, peer, call, setup) => OnStart(p, chat, peer, call, setup)
    case Accept(setup) => OnAccept(p, setup)
    case Decline => OnDecline(p)
    case HangUp => OnHangUp(p)
    case ToggleMute => p.(state := p.state.(muted := !p.state.muted))
    case SetMinimized(on) => p.(state := p.state.(minimized := on))
    case OnSocket(msg, applied) => OnSignal(p, msg, applied)
    case PeerConnected => OnConnected(p)
    case PeerFailed => if p.pc.None? then p else Finish(Send(p, End, None), Broken)
    case LocalCandidate(c) => Send(p, Ice, Some(c))
    case Fire(id) => OnFire(p, id)
    case Tick(to) => p.(now := to)
  }

  /** A connection is reported only where there is one with a remote description; a timer
      fires once due; the clock does not run past an armed timer. */
  ghost predicate Enabled(p: Phone, e: Event) {
    match e
    case PeerConnected => p.pc.Some? && p.pc.value.remote
    case PeerFailed => p.pc.Some?
    case Fire(id) => id in p.timers && p.timers[id].due <= p.now
    case Tick(to) => p.now <= to && forall id :: id in p.timers ==> to <= p.timers[id].due
    case _ => true
  }

  function Run(p: Phone, es: seq<Event>): Phone {
    if es == [] then p else Step(Run(p, Init(es)), Last(es))
  }

  ghost predicate Legal(p: Phone, es: seq<Event>) {
    es != [] ==> Legal(p, Init(es)) && Enabled(Run(p, Init(es)), Last(es))
  }

  // --------------------------------------------------------- watchdog timers

  ghost predicate Armed(p: Phone, id: Option<nat>, kind: TimerKind) {
    id.Some? && id.value in p.timers && p.timers[id.value].kind == kind
  }

  /** A phase that must not last holds an armed timer that ends it. */
  ghost predicate Watched(p: Phone) {
    match p.state.phase
    case Outgoing => Armed(p, p.timeout, RingOut)
    case Ringing => Armed(p, p.timeout, RingOut)
    case Incoming => Armed(p, p.timeout, RingIn)
    case Connecting => Armed(p, p.timeout, Connect)
    case Ended => Armed(p, p.endTimer, Clear)
    case _ => true
  }

  ghost predicate TimersSound(p: Phone) {
    && (forall id :: id in p.timers ==> id < p.nextTimer && p.now <= p.timers[id].due <= p.now + Span(p.timers[id].kind))
    && (forall id :: id in p.timers && !p.timers[id].kind.Clear? ==> p.timeout == Some(id))
    && (p.timeout.Some? ==> p.timeout.value < p.nextTimer)
  }

  ghost predicate StateSound(p: Phone) {
    && (p.state.phase.Idle? <==> p.state.call.None?)
    && (p.state.phase.Ended? ==> p.history.ended)
    && (p.state.phase.Outgoing? || p.state.phase.Ringing? ==> p.state.outgoing && p.pc.Some?)
    && (p.state.phase.Incoming? ==>
          !p.state.outgoing && p.pc.None? && !p.remoteSet && !p.history.ended)
    && (p.state.phase.Active? ==> p.history.active)
    && (IsBusy(p) && !p.state.phase.Incoming? && !p.history.ended ==> p.pc.Some?)
    && (p.pc.Some? ==> IsBusy(p) && !p.history.ended && (p.pc.value.remote <==> p.remoteSet))
  }

  /** When a call that never becomes active is gone at the latest. An ended call whose
      answer is still to come may be connecting for a while once more. */
  ghost function GoneBy(p: Phone): real
    requires Watched(p)
  {
    match p.state.phase
    case Outgoing => p.timers[p.timeout.value].due + Span(Clear) + Span(Connect) + Span(Clear)
    case Ringing => p.timers[p.timeout.value].due + Span(Clear) + Span(Connect) + Span(Clear)
    case Incoming => p.timers[p.timeout.value].due + Span(Connect) + Span(Clear)
    case Connecting => p.timers[p.timeout.value].due + Span(Clear)
    case Ended =>
      p.timers[p.endTimer.value].due + if p.state.outgoing && !p.remoteSet then Span(Connect) + Span(Clear) else 0.0
    case _ => p.now
  }

  const CALL_BUDGET: real := 82.5

  /** Connecting, with a connection that has no remote description. */
  ghost predicate Stranded(p: Phone) { p.state.phase.Connecting? && !p.remoteSet }

  ghost predicate OnlyClearTimers(p: Phone) {
    forall id :: id in p.timers ==> p.timers[id].kind.Clear?
  }

  /** A phase is watched unless a rejected answer has left it stranded, with no timer. */
  ghost predicate WatchSound(p: Phone) {
    && (Stranded(p) ==> p.history.rejected && p.pc.Some? && OnlyClearTimers(p))
    && (!Stranded(p) ==> Watched(p))
  }

  ghost predicate OnBudget(p: Phone) {
    && WatchSound(p)
    && p.history.began <= p.now
    && (!p.history.rejected && !p.history.active && !p.state.phase.Idle? ==> GoneBy(p) <= p.history.began + CALL_BUDGET)
  }

  ghost predicate Inv(p: Phone) { TimersSound(p) && StateSound(p) && OnBudget(p) }

  lemma FinishKeeps(p: Phone, reason: Reason)
    requires Inv(p)
    ensures Inv(Finish(p, reason))
  {
  }

  lemma SendKeeps(p: Phone, kind: Kind, candidate: Option<Candidate>)
    requires Inv(p)
    ensures Inv(Send(p, kind, candidate))
  {
  }

  /** Ending a call and telling the other side. */
  lemma SendFinishKeeps(p: Phone, kind: Kind, reason: Reason)
    requires Inv(p)
    ensures Inv(Finish(Send(p, kind, None), reason))
  {
    SendKeeps(p, kind, None);
    FinishKeeps(Send(p, kind, None), reason);
  }

  lemma StartReadySound(p: Phone, chat: ChatId, peer: User, call: CallId)
    requires Inv(p)
    ensures TimersSound(OnStart(p, chat, peer, call, Ready)) && StateSound(OnStart(p, chat, peer, call, Ready))
  {
  }

  lemma StartReadyOnBudget(p: Phone, chat: ChatId, peer: User, call: CallId)
    requires Inv(p)
    ensures OnBudget(OnStart(p, chat, peer, call, Ready))
  {
  }

  lemma StartReadyKeeps(p: Phone, chat: ChatId, peer: User, call: CallId)
    requires Inv(p)
    ensures Inv(OnStart(p, chat, peer, call, Ready))
  {
    StartReadySound(p, chat, peer, call);
    StartReadyOnBudget(p, chat, peer, call);
  }

  lemma StartFailsTimers(p: Phone, chat: ChatId, peer: User, call: CallId, setup: Setup)
    requires Inv(p) && !setup.Ready?
    ensures TimersSound(OnStart(p, chat, peer, call, setup))
  {
  }

  lemma StartFailsState(p: Phone, chat: ChatId, peer: User, call: CallId, setup: Setup)
    requires Inv(p) && !setup.Ready?
    ensures StateSound(OnStart(p, chat, peer, call, setup))
  {
  }

  lemma StartFailsOnBudget(p: Phone, chat: ChatId, peer: User, call: CallId, setup: Setup)
    requires Inv(p) && !setup.Ready?
    ensures OnBudget(OnStart(p, chat, peer, call, setup))
  {
  }

  lemma StartFailsKeeps(p: Phone, chat: ChatId, peer: User, call: CallId, setup: Setup)
    requires Inv(p) && !setup.Ready?
    ensures Inv(OnStart(p, chat, peer, call, setup))
  {
    StartFailsTimers(p, chat, peer, call, setup);
    StartFailsState(p, chat, peer, call, setup);
    StartFailsOnBudget(p, chat, peer, call, setup);
  }

  lemma AcceptSound(p: Phone, setup: Setup)
    requires Inv(p)
    ensures TimersSound(OnAccept(p, setup)) && StateSound(OnAccept(p, setup))
  {
  }

  lemma AcceptOnBudget(p: Phone, setup: Setup)
    requires Inv(p)
    ensures OnBudget(OnAccept(p, setup))
  {
  }

  lemma AcceptKeeps(p: Phone, setup: Setup)
    requires Inv(p)
    ensures Inv(OnAccept(p, setup))
  {
    AcceptSound(p, setup);
    AcceptOnBudget(p, setup);
  }

  lemma OfferSound(p: Phone, msg: Signal)
    requires Inv(p)
    ensures TimersSound(OnOffer(p, msg)) && StateSound(OnOffer(p, msg))
  {
  }

  lemma OfferOnBudget(p: Phone, msg: Signal)
    requires Inv(p)
    ensures OnBudget(OnOffer(p, msg))
  {
  }

  lemma OfferKeeps(p: Phone, msg: Signal)
    requires Inv(p)
    ensures Inv(OnOffer(p, msg))
  {
    OfferSound(p, msg);
    OfferOnBudget(p, msg);
  }

  lemma AnswerKeeps(p: Phone, msg: Signal, applied: bool)
    requires Inv(p) && !p.state.phase.Idle?
    ensures Inv(OnAnswer(p, msg, applied))
  {
  }

  lemma IceKeeps(p: Phone, msg: Signal)
    requires Inv(p)
    ensures Inv(OnIce(p, msg))
  {
  }

  lemma RingingKeeps(p: Phone)
    requires Inv(p) && p.state.phase.Outgoing?
    ensures Inv(p.(state := p.state.(phase := Ringing)))
  {
  }

  /** Whatever a signal does is one of these. */
  lemma SignalOutcomes(p: Phone, msg: Signal, applied: bool)
    ensures var q := OnSignal(p, msg, applied);
      || q == p
      || (q == OnOffer(p, msg) && msg.kind.Offer?)
      || (p.state.call == Some(msg.call) &&
          ( || (exists r :: q == Finish(p, r))
            || (p.state.phase.Outgoing? && q == p.(state := p.state.(phase := Ringing)))
            || (q == OnAnswer(p, msg, applied) && msg.kind.Answer? && msg.from != Some(p.user))
            || q == OnIce(p, msg)))
  {
  }

  lemma SignalKeeps(p: Phone, msg: Signal, applied: bool)
    requires Inv(p)
    ensures Inv(OnSignal(p, msg, applied))
  {
    SignalOutcomes(p, msg, applied);
    var q := OnSignal(p, msg, applied);
    if q == OnOffer(p, msg) {
      OfferKeeps(p, msg);
    } else if q == OnIce(p, msg) {
      IceKeeps(p, msg);
    } else if q == OnAnswer(p, msg, applied) && p.state.call == Some(msg.call) {
      AnswerKeeps(p, msg, applied);
    } else if r :| q == Finish(p, r) {
      FinishKeeps(p, r);
    } else if p.state.phase.Outgoing? {
      RingingKeeps(p);
    }
  }

  lemma ForgetTimerKeeps(p: Phone, id: nat)
    requires Inv(p) && id in p.timers
    requires match p.timers[id].kind
      case RingOut => !p.state.phase.Outgoing? && !p.state.phase.Ringing?
      case RingIn => !p.state.phase.Incoming?
      case Connect => !p.state.phase.Connecting?
      case Clear => !p.state.phase.Ended?
    ensures Inv(p.(timers := p.timers - {id}))
  {
  }

  lemma FinishForgets(p: Phone, id: nat, reason: Reason)
    requires IsBusy(p) && p.timeout == Some(id)
    ensures Finish(p.(timers := p.timers - {id}), reason) == Finish(p, reason)
  {
    assert Cleared(p.timers - {id}, p.timeout) == Cleared(p.timers, p.timeout);
  }

  lemma SendFinishForgets(p: Phone, id: nat, kind: Kind, reason: Reason)
    requires IsBusy(p) && p.timeout == Some(id)
    ensures Finish(Send(p.(timers := p.timers - {id}), kind, None), reason) == Finish(Send(p, kind, None), reason)
  {
    assert Send(p.(timers := p.timers - {id}), kind, None) == Send(p, kind, None).(timers := p.timers - {id});
    FinishForgets(Send(p, kind, None), id, reason);
  }

  /** A timer that is due ends the phase it watches just as a hang-up now would. */
  lemma DueTimerEnds(p: Phone, id: nat, kind: Kind, reason: Reason)
    requires Inv(p) && id in p.timers && IsBusy(p) && p.timeout == Some(id)
    ensures Inv(Finish(p.(timers := p.timers - {id}), reason))
    ensures Inv(Finish(Send(p.(timers := p.timers - {id}), kind, None), reason))
  {
    FinishForgets(p, id, reason);
    SendFinishForgets(p, id, kind, reason);
    FinishKeeps(p, reason);
    SendFinishKeeps(p, kind, reason);
  }

  lemma FireKeeps(p: Phone, id: nat)
    requires Inv(p) && Enabled(p, Fire(id))
    ensures Inv(OnFire(p, id))
  {
    match p.timers[id].kind
    case RingOut =>
      if p.state.phase.Outgoing? || p.state.phase.Ringing? {
        DueTimerEnds(p, id, End, NoAnswer);
      } else {
        ForgetTimerKeeps(p, id);
      }
    case RingIn =>
      if p.state.phase.Incoming? {
        DueTimerEnds(p, id, End, NoAnswer);
      } else {
        ForgetTimerKeeps(p, id);
      }
    case Connect =>
      if p.state.phase.Connecting? {
        DueTimerEnds(p, id, End, Broken);
      } else {
        ForgetTimerKeeps(p, id);
      }
    case Clear =>
      if !p.state.phase.Ended? {
        ForgetTimerKeeps(p, id);
      }
  }

  lemma TickKeeps(p: Phone, to: real)
    requires Inv(p) && Enabled(p, Tick(to))
    ensures Inv(p.(now := to))
  {
  }

  lemma ConnectedKeeps(p: Phone)
    requires Inv(p)
    ensures Inv(OnConnected(p))
  {
  }

  lemma StepKeepsInv(p: Phone, e: Event)
    requires Inv(p) && Enabled(p, e)
    ensures Inv(Step(p, e))
  {
    match e
    case Start(chat, peer, call, setup) =>
      if setup.Ready? {
        StartReadyKeeps(p, chat, peer, call);
      } else {
        StartFailsKeeps(p, chat, peer, call, setup);
      }
    case Accept(setup) => AcceptKeeps(p, setup);
    case Decline => SendFinishKeeps(p, Reject, Declined);
    case HangUp => HangUpKeeps(p);
    case ToggleMute =>
    case SetMinimized(_) =>
    case OnSocket(msg, applied) => SignalKeeps(p, msg, applied);
    case PeerConnected => ConnectedKeeps(p);
    case PeerFailed => SendFinishKeeps(p, End, Broken);
    case LocalCandidate(c) => SendKeeps(p, Ice, Some(c));
    case Fire(id) => FireKeeps(p, id);
    case Tick(to) => TickKeeps(p, to);
  }

  lemma HangUpKeeps(p: Phone)
    requires Inv(p)
    ensures Inv(OnHangUp(p))
  {
    if p.state.phase.Incoming? {
      SendFinishKeeps(p, Reject, Declined);
    } else {
      SendFinishKeeps(p, End, if p.state.outgoing && !p.state.connected then Cancelled else Hangup);
    }
  }

  lemma {:induction false} RunKeepsInv(user: User, device: Device, es: seq<Event>)
    requires Legal(NewPhone(user, device), es)
    ensures Inv(Run(NewPhone(user, device), es))
  {
    if es != [] {
      RunKeepsInv(user, device, Init(es));
      StepKeepsInv(Run(NewPhone(user, device), Init(es)), Last(es));
    }
  }

  // ------------------------------------------------------------ rejected answers

  /** The step hands the connection an answer to this call, and it rejects the description. */
  ghost predicate Rejects(e: Event, call: Option<CallId>) {
    e.OnSocket? && !e.applied && e.msg.kind.Answer? && call == Some(e.msg.call)
  }

  /** Some step of the run is a rejected answer to this call. */
  ghost predicate RejectedIn(es: seq<Event>, call: Option<CallId>) {
    exists e :: e in es && Rejects(e, call)
  }

  /** The call goes on from `p` to `q`, and what was rejected before still is. */
  ghost predicate SameCall(p: Phone, q: Phone) {
    q.state.phase.Idle? || !q.history.rejected || (p.history.rejected && !p.state.phase.Idle? && q.state.call == p.state.call)
  }

  lemma SignalRejects(p: Phone, msg: Signal, applied: bool)
    requires StateSound(p)
    ensures SameCall(p, OnSignal(p, msg, applied)) || Rejects(OnSocket(msg, applied), OnSignal(p, msg, applied).state.call)
  {
    OfferRejectsNothing(p, msg);
    IceRejectsNothing(p, msg);
    forall r
      ensures SameCall(p, Finish(p, r))
    {
      FinishRejectsNothing(p, r);
    }
    if msg.kind.Answer? && p.state.call == Some(msg.call) {
      AnswerRejects(p, msg, applied);
    }
    SignalOutcomes(p, msg, applied);
  }

  lemma OfferRejectsNothing(p: Phone, msg: Signal)
    ensures SameCall(p, OnOffer(p, msg))
  {
  }

  lemma AnswerRejects(p: Phone, msg: Signal, applied: bool)
    requires StateSound(p) && msg.kind.Answer? && p.state.call == Some(msg.call)
    ensures SameCall(p, OnAnswer(p, msg, applied)) || Rejects(OnSocket(msg, applied), OnAnswer(p, msg, applied).state.call)
  {
  }

  lemma IceRejectsNothing(p: Phone, msg: Signal)
    ensures SameCall(p, OnIce(p, msg))
  {
  }

  lemma FinishRejectsNothing(p: Phone, reason: Reason)
    ensures SameCall(p, Finish(p, reason))
  {
  }

  /** Only a rejected answer marks a call, and a new call is unmarked. */
  lemma StepRejects(p: Phone, e: Event)
    requires StateSound(p)
    ensures SameCall(p, Step(p, e)) || Rejects(e, Step(p, e).state.call)
  {
    match e
    case OnSocket(msg, applied) => SignalRejects(p, msg, applied);
    case Start(_, _, _, _) => StartRejectsNothing(p, e);
    case Fire(_) => FireRejectsNothing(p, e);
    case _ => OthersRejectNothing(p, e);
  }

  lemma StartRejectsNothing(p: Phone, e: Event)
    requires e.Start?
    ensures SameCall(p, Step(p, e))
  {
  }

  lemma FireRejectsNothing(p: Phone, e: Event)
    requires e.Fire? && StateSound(p)
    ensures SameCall(p, Step(p, e))
  {
  }

  lemma OthersRejectNothing(p: Phone, e: Event)
    requires !e.OnSocket? && !e.Start? && !e.Fire? && StateSound(p)
    ensures SameCall(p, Step(p, e))
  {
  }

  lemma {:induction false} MarkedMeansRejected(user: User, device: Device, es: seq<Event>)
    requires Legal(NewPhone(user, device), es)
    ensures var p := Run(NewPhone(user, device), es);
      !p.state.phase.Idle? && p.history.rejected ==> RejectedIn(es, p.state.call)
  {
    if es != [] {
      var p := Run(NewPhone(user, device), Init(es));
      RunKeepsInv(user, device, Init(es));
      MarkedMeansRejected(user, device, Init(es));
      StepRejects(p, Last(es));
      assert forall e :: e in Init(es) ==> e in es;
      assert Last(es) in es;
    }
  }

  // ---------------------------------------------------------------- results

  /** Calls never stick, on every run. A phase that must not last holds an armed timer that
      ends it, exactly unless the call is connecting without a remote description; and that
      only happens to a call one of whose answers was rejected. Every other call that never
      becomes active is over within 82.5 seconds, even when a late answer takes an ended call
      back to connecting, and whatever happened to the calls before it. */
  lemma CallsNeverStick(user: User, device: Device, es: seq<Event>)
    requires Legal(NewPhone(user, device), es)
    ensures var p := Run(NewPhone(user, device), es);
      && (Watched(p) <==> !Stranded(p))
      && (Stranded(p) ==> RejectedIn(es, p.state.call))
      && (!p.state.phase.Idle? && !p.history.active && !RejectedIn(es, p.state.call) ==>
            p.now <= p.history.began + CALL_BUDGET)
  {
    RunKeepsInv(user, device, es);
    MarkedMeansRejected(user, device, es);
  }

  /** The phone is ringing the other side, and this is an answer to its call. */
  ghost predicate Answers(p: Phone, msg: Signal) {
    && (p.state.phase.Outgoing? || p.state.phase.Ringing?) && !p.remoteSet
    && msg.kind.Answer? && p.state.call == Some(msg.call) && msg.device != Some(p.device) && msg.from != Some(p.user)
  }

  lemma RunGrows(p: Phone, es: seq<Event>, e: Event)
    ensures Run(p, es + [e]) == Step(Run(p, es), e)
    ensures Legal(p, es + [e]) <==> Legal(p, es) && Enabled(Run(p, es), e)
  {
    assert Init(es + [e]) == es;
  }

  /** After any run, the answer to a ringing call leaves it watched if and only if the
      connection takes the answer's description. */
  lemma AnswerWatchedExactly(user: User, device: Device, es: seq<Event>, msg: Signal, applied: bool)
    requires Legal(NewPhone(user, device), es) && Answers(Run(NewPhone(user, device), es), msg)
    ensures Legal(NewPhone(user, device), es + [OnSocket(msg, applied)])
    ensures Watched(Run(NewPhone(user, device), es + [OnSocket(msg, applied)])) <==> applied
  {
    RunKeepsInv(user, device, es);
    RunGrows(NewPhone(user, device), es, OnSocket(msg, applied));
    RunKeepsInv(user, device, es + [OnSocket(msg, applied)]);
  }

  ghost predicate OnlyTime(es: seq<Event>) {
    forall e :: e in es ==> e.Fire? || e.Tick?
  }

  lemma {:induction false} TimeStrands(p: Phone, es: seq<Event>)
    requires Stranded(p) && OnlyClearTimers(p) && OnlyTime(es)
    ensures Stranded(Run(p, es)) && OnlyClearTimers(Run(p, es))
  {
    if es != [] {
      assert Last(es) in es && forall e :: e in Init(es) ==> e in es;
      TimeStrands(p, Init(es));
    }
  }

  lemma {:induction false} RunAppends(p: Phone, es: seq<Event>, more: seq<Event>)
    ensures Run(p, es + more) == Run(Run(p, es), more)
  {
    if more == [] {
      assert es + more == es;
    } else {
      RunAppends(p, es, Init(more));
      assert Init(es + more) == es + Init(more) && Last(es + more) == Last(more);
    }
  }

  /** Once the answer to a ringing call is rejected, time alone never ends the call. */
  lemma RejectedAnswerSticks(user: User, device: Device, es: seq<Event>, msg: Signal, more: seq<Event>)
    requires Legal(NewPhone(user, device), es) && Answers(Run(NewPhone(user, device), es), msg) && OnlyTime(more)
    ensures var p := Run(NewPhone(user, device), es + [OnSocket(msg, false)] + more);
      Stranded(p) && OnlyClearTimers(p)
  {
    var answered := es + [OnSocket(msg, false)];
    AnswerWatchedExactly(user, device, es, msg, false);
    RunKeepsInv(user, device, answered);
    TimeStrands(Run(NewPhone(user, device), answered), more);
    RunAppends(NewPhone(user, device), answered, more);
  }

  /** Such runs exist: for any length of time, a call that has been connecting for longer. */
  lemma CallCanStick(user: User, device: Device, peer: User, after: real) returns (es: seq<Event>)
    requires peer != user && after >= 0.0
    ensures Legal(NewPhone(user, device), es)
    ensures var p := Run(NewPhone(user, device), es);
      Stranded(p) && !p.history.active && p.now == p.history.began + after
  {
    var phone := NewPhone(user, device);
    var started := [Start("chat", peer, 0, Ready)];
    var answer := OnSocket(Signal(Answer, "chat", 0, None, Some(peer), None), false);
    RunGrows(phone, [], started[0]);
    assert [] + started == started;
    AnswerWatchedExactly(user, device, started, answer.msg, false);
    RunKeepsInv(user, device, started + [answer]);
    RunGrows(phone, started, answer);
    RunGrows(phone, started + [answer], Tick(after));
    es := started + [answer] + [Tick(after)];
  }

  // ------------------------------------------------------------ ICE candidates

  function Handed(p: Phone): seq<Candidate> {
    if p.pc.Some? then p.pc.value.handed else []
  }

  /** Until a call ends, what the connection was handed and what waits are, in order, the
      candidates that passed the device filter; none is handed over before there is a
      remote description, and none waits after it. */
  ghost predicate IceConserved(p: Phone) {
    && StateSound(p)
    && (IsBusy(p) && !p.history.ended ==> Handed(p) + p.pendingIce == p.history.heard)
    && (p.remoteSet ==> p.pendingIce == [])
    && (p.pc.Some? && !p.pc.value.remote ==> p.pc.value.handed == [])
  }

  lemma AnswerConservesIce(p: Phone, msg: Signal, applied: bool)
    requires IceConserved(p) && !p.state.phase.Idle?
    ensures IceConserved(OnAnswer(p, msg, applied))
  {
  }

  lemma CandidateConservesIce(p: Phone, msg: Signal)
    requires IceConserved(p)
    ensures IceConserved(OnIce(p, msg))
  {
    var q := OnIce(p, msg);
    if q != p {
      var c := [msg.candidate.value];
      assert (Handed(p) + p.pendingIce) + c == Handed(p) + (p.pendingIce + c);
      assert p.pendingIce == [] ==> Handed(p) + c == (Handed(p) + p.pendingIce) + c;
    }
  }

  lemma AcceptConservesIce(p: Phone, setup: Setup)
    requires IceConserved(p)
    ensures IceConserved(OnAccept(p, setup))
  {
  }

  lemma FinishConservesIce(p: Phone, reason: Reason)
    requires IceConserved(p)
    ensures IceConserved(Finish(p, reason))
  {
  }

  lemma SignalConservesIce(p: Phone, msg: Signal, applied: bool)
    requires IceConserved(p)
    ensures IceConserved(OnSignal(p, msg, applied))
  {
    SignalOutcomes(p, msg, applied);
    var q := OnSignal(p, msg, applied);
    if q == OnOffer(p, msg) {
    } else if q == OnIce(p, msg) {
      CandidateConservesIce(p, msg);
    } else if q == OnAnswer(p, msg, applied) && p.state.call == Some(msg.call) {
      AnswerConservesIce(p, msg, applied);
    } else if r :| q == Finish(p, r) {
      FinishConservesIce(p, r);
    }
  }

  lemma StartConservesIce(p: Phone, chat: ChatId, peer: User, call: CallId, setup: Setup)
    requires IceConserved(p)
    ensures IceConserved(OnStart(p, chat, peer, call, setup))
  {
  }

  lemma FireConservesIce(p: Phone, id: nat)
    requires IceConserved(p)
    ensures IceConserved(OnFire(p, id))
  {
    if id in p.timers {
      var q := p.(timers := p.timers - {id});
      assert IceConserved(q);
      FinishConservesIce(Send(q, End, None), NoAnswer);
      FinishConservesIce(Send(q, End, None), Broken);
      FinishConservesIce(q, NoAnswer);
    }
  }

  lemma StepConservesIce(p: Phone, e: Event)
    requires IceConserved(p) && Enabled(p, e)
    ensures IceConserved(Step(p, e))
  {
    match e
    case Start(chat, peer, call, setup) => StartConservesIce(p, chat, peer, call, setup);
    case Accept(setup) => AcceptConservesIce(p, setup);
    case Decline => FinishConservesIce(Send(p, Reject, None), Declined);
    case HangUp =>
      FinishConservesIce(Send(p, Reject, None), Declined);
      FinishConservesIce(Send(p, End, None), if p.state.outgoing && !p.state.connected then Cancelled else Hangup);
    case OnSocket(msg, applied) => SignalConservesIce(p, msg, applied);
    case PeerFailed => FinishConservesIce(Send(p, End, None), Broken);
    case Fire(id) => FireConservesIce(p, id);
    case PeerConnected =>
    case ToggleMute =>
    case SetMinimized(_) =>
    case LocalCandidate(_) =>
    case Tick(_) =>
  }

  /** On every run, whether or not descriptions are rejected. */
  lemma {:induction false} IceAlwaysConserved(user: User, device: Device, es: seq<Event>)
    requires Legal(NewPhone(user, device), es)
    ensures IceConserved(Run(NewPhone(user, device), es))
  {
    if es != [] {
      IceAlwaysConserved(user, device, Init(es));
      StepConservesIce(Run(NewPhone(user, device), Init(es)), Last(es));
    }
  }

  // ------------------------------------------------ what a handler is for

  /** The other side, or another device of one's own, ends the call with this signal. */
  ghost predicate Ends(p: Phone, msg: Signal) {
    if msg.from == Some(p.user) then p.state.phase.Incoming? && (msg.kind.Answer? || msg.kind.Reject?)
    else msg.kind.End? || (p.state.outgoing && (msg.kind.Reject? || msg.kind.Busy? || msg.kind.Unavailable?))
  }

  ghost predicate SameDevice(p: Phone, q: Phone) { q.user == p.user && q.device == p.device }

  /** The phase that a signal of the device's own call leads to, unless it ends the call. */
  ghost predicate MovesTo(p: Phone, msg: Signal, phase: Phase) {
    var theirs := msg.from != Some(p.user);
    if theirs && msg.kind.RingingSignal? && p.state.phase.Outgoing? then phase.Ringing?
    else if theirs && msg.kind.Answer? && p.state.outgoing && !p.remoteSet then phase.Connecting?
    else phase == p.state.phase
  }

  ghost predicate EndedWithin(p: Phone, q: Phone) {
    q.state.phase.Ended? && q.pc.None? && q.state.reason.Some? && q.history.ended && StaysIn(p, q)
  }

  ghost predicate StaysIn(p: Phone, q: Phone) {
    SameDevice(p, q) && q.state.call == p.state.call && q.state.chat == p.state.chat
  }

  lemma FinishEnds(p: Phone, reason: Reason)
    requires IsBusy(p)
    ensures EndedWithin(p, Finish(p, reason))
  {
  }

  lemma OwnUserSignal(p: Phone, msg: Signal, applied: bool)
    requires IsBusy(p) && p.state.call == Some(msg.call) && msg.device != Some(p.device) && msg.from == Some(p.user)
    ensures OnSignal(p, msg, applied) == if Ends(p, msg) then Finish(p, AnsweredElsewhere) else p
  {
  }

  lemma EndingSignal(p: Phone, msg: Signal, applied: bool)
    requires IsBusy(p) && p.state.call == Some(msg.call) && msg.device != Some(p.device) && Ends(p, msg)
    ensures EndedWithin(p, OnSignal(p, msg, applied))
  {
    if msg.from == Some(p.user) {
      OwnUserSignal(p, msg, applied);
      FinishEnds(p, AnsweredElsewhere);
    } else {
      FinishEnds(p, Declined);
      FinishEnds(p, BusyThere);
      FinishEnds(p, Unreachable);
      FinishEnds(p, if p.state.phase.Incoming? then Cancelled else RemoteHangup);
    }
  }

  lemma OtherSignal(p: Phone, msg: Signal, applied: bool)
    requires IsBusy(p) && p.state.call == Some(msg.call) && msg.device != Some(p.device) && !Ends(p, msg)
    ensures MovesTo(p, msg, OnSignal(p, msg, applied).state.phase) && StaysIn(p, OnSignal(p, msg, applied))
  {
    if msg.from == Some(p.user) {
      OwnUserSignal(p, msg, applied);
    } else if msg.kind.Answer? {
      AnswerConnects(p, msg, applied);
    }
  }

  lemma AnswerConnects(p: Phone, msg: Signal, applied: bool)
    ensures StaysIn(p, OnAnswer(p, msg, applied))
    ensures var q := OnAnswer(p, msg, applied);
      if p.state.outgoing && !p.remoteSet then q.state.phase.Connecting? && q.peerDevice == msg.device else q == p
  {
  }

  /** A signal of the device's own call ends it exactly when it says so, and the connection is
      closed then. Otherwise it rings, is answered, or stays in its phase. */
  lemma SignalPhaseExactly(p: Phone, msg: Signal, applied: bool)
    requires IsBusy(p) && p.state.call == Some(msg.call) && msg.device != Some(p.device)
    ensures var q := OnSignal(p, msg, applied);
      && StaysIn(p, q) && (q.state.phase.Ended? <==> Ends(p, msg))
      && (Ends(p, msg) ==> EndedWithin(p, q)) && (!Ends(p, msg) ==> MovesTo(p, msg, q.state.phase))
  {
    if Ends(p, msg) {
      EndingSignal(p, msg, applied);
    } else {
      OtherSignal(p, msg, applied);
    }
  }

  function Own(p: Phone, kind: Kind): seq<Signal> {
    if p.state.call.Some? && p.state.chat.Some? then
      [Signal(kind, p.state.chat.value, p.state.call.value, Some(p.device), None, None)]
    else []
  }

  /** Hanging up ends any call, whatever its phase, and tells the other side. */
  lemma HangUpEnds(p: Phone)
    requires IsBusy(p)
    ensures var q := Step(p, HangUp);
      q.state.phase.Ended? && q.pc.None? && q.sent == p.sent + Own(p, if p.state.phase.Incoming? then Reject else End)
  {
  }

  /** A failed connection does the same. */
  lemma FailureEnds(p: Phone)
    requires IsBusy(p) && p.pc.Some?
    ensures var q := Step(p, PeerFailed);
      q.state.phase.Ended? && q.pc.None? && q.state.reason == Some(Broken) && q.sent == p.sent + Own(p, End)
  {
  }

  /** Why a call ends with this signal, as the user is told. */
  ghost predicate EndsBecause(p: Phone, msg: Signal, reason: Reason) {
    if msg.from == Some(p.user) then reason.AnsweredElsewhere?
    else
      match msg.kind
      case Reject => reason.Declined?
      case Busy => reason.BusyThere?
      case Unavailable => reason.Unreachable?
      case _ => if p.state.phase.Incoming? then reason.Cancelled? else reason.RemoteHangup?
  }

  lemma FinishReason(p: Phone, reason: Reason)
    requires IsBusy(p)
    ensures Finish(p, reason).state.reason == Some(reason)
  {
  }

  lemma EndReason(p: Phone, msg: Signal, applied: bool)
    requires IsBusy(p) && p.state.call == Some(msg.call) && msg.device != Some(p.device) && Ends(p, msg)
    ensures var q := OnSignal(p, msg, applied); q.state.reason.Some? && EndsBecause(p, msg, q.state.reason.value)
  {
    if msg.from == Some(p.user) {
      OwnUserSignal(p, msg, applied);
      FinishReason(p, AnsweredElsewhere);
    } else {
      FinishReason(p, Declined);
      FinishReason(p, BusyThere);
      FinishReason(p, Unreachable);
      FinishReason(p, if p.state.phase.Incoming? then Cancelled else RemoteHangup);
    }
  }

  /** A candidate of the device the call is with is handed over or kept for later, after those
      before it; one of another device, or none, is left. */
  lemma CandidateExactly(p: Phone, msg: Signal, applied: bool)
    requires IceConserved(p) && IsBusy(p) && !p.history.ended && msg.kind.Ice?
    requires p.state.call == Some(msg.call) && msg.device != Some(p.device) && msg.from != Some(p.user)
    ensures var q := OnSignal(p, msg, applied);
      Handed(q) + q.pendingIce == Handed(p) + p.pendingIce +
        if msg.candidate.Some? && (p.peerDevice.None? || msg.device == p.peerDevice) then [msg.candidate.value] else []
  {
    assert OnSignal(p, msg, applied) == OnIce(p, msg);
    CandidateConservesIce(p, msg);
  }

  /** What a timer that fires leaves of the phase. */
  ghost predicate TimesOut(p: Phone, kind: TimerKind) {
    match kind
    case RingOut => p.state.phase.Outgoing? || p.state.phase.Ringing?
    case RingIn => p.state.phase.Incoming?
    case Connect => p.state.phase.Connecting?
    case Clear => false
  }

  /** A call that has rung or connected too long ends, and unless it was only rung here the other
      side is told; an ended call is cleared away. A timer of another phase does nothing. */
  lemma FireExactly(p: Phone, id: nat)
    requires id in p.timers
    ensures var q := Step(p, Fire(id)); var kind := p.timers[id].kind;
      && (TimesOut(p, kind) ==> EndedWithin(p, q) && q.sent == p.sent + if kind.RingIn? then [] else Own(p, End))
      && (!TimesOut(p, kind) && !kind.Clear? ==> q == p.(timers := p.timers - {id}))
      && (kind.Clear? && p.state.phase.Ended? ==> q == p.(timers := p.timers - {id}, state := INITIAL))
      && (kind.Clear? && !p.state.phase.Ended? ==> q == p.(timers := p.timers - {id}))
  {
    var q := p.(timers := p.timers - {id});
    if TimesOut(p, p.timers[id].kind) {
      FinishEnds(q, NoAnswer);
      FinishEnds(Send(q, End, None), NoAnswer);
      FinishEnds(Send(q, End, None), Broken);
    }
  }

  /** A device that is calling out on this call. */
  ghost predicate Calls(p: Phone, chat: ChatId, call: CallId) {
    && (p.state.phase.Outgoing? || p.state.phase.Ringing?) && p.state.outgoing && !p.remoteSet
    && p.state.call == Some(call) && p.state.chat == Some(chat) && p.pc.Some?
  }

  /** A device that is rung by this call, from this device. */
  ghost predicate RungBy(p: Phone, chat: ChatId, call: CallId, device: Device) {
    && p.state.phase.Incoming? && !p.state.outgoing && p.pendingOffer.Some?
    && p.state.call == Some(call) && p.state.chat == Some(chat) && p.peerDevice == Some(device)
  }

  /** A device whose connection has both descriptions. */
  ghost predicate LinkedTo(p: Phone, chat: ChatId, call: CallId, device: Device) {
    && p.state.phase.Connecting? && p.state.call == Some(call) && p.state.chat == Some(chat)
    && p.remoteSet && p.pc.Some? && p.pc.value.remote && p.peerDevice == Some(device)
  }

  /** A device in this call with that one. */
  ghost predicate TalksTo(p: Phone, call: CallId, device: Device) {
    && p.state.phase.Active? && p.state.connected && p.state.call == Some(call)
    && p.pc.Some? && p.pc.value.remote && p.peerDevice == Some(device)
  }

  lemma StartCalls(p: Phone, chat: ChatId, peer: User, call: CallId, setup: Setup)
    requires !IsBusy(p)
    ensures var q := Step(p, Start(chat, peer, call, setup));
      && SameDevice(p, q) && q.state.peer == Some(peer)
      && (setup.Ready? ==> Calls(q, chat, call) && q.state.phase.Outgoing? && q.sent == p.sent + Own(q, Offer))
      && (!setup.Ready? ==> q.state.phase.Ended? && q.pc.None? && q.sent == p.sent + Own(q, End))
  {
  }

  lemma OfferRings(p: Phone, msg: Signal, applied: bool)
    requires !IsBusy(p) && msg.kind.Offer? && msg.from != Some(p.user) && msg.device.Some? && msg.device != Some(p.device)
    ensures var q := Step(p, OnSocket(msg, applied));
      && SameDevice(p, q) && RungBy(q, msg.chat, msg.call, msg.device.value) && q.state.peer == msg.from
      && q.sent == p.sent + Own(q, RingingSignal)
  {
  }

  /** A busy device answers an offer of somebody else with "busy", to that call, and goes on. */
  lemma OfferFindsBusy(p: Phone, msg: Signal, applied: bool)
    requires IsBusy(p) && msg.kind.Offer? && msg.from != Some(p.user) && msg.device != Some(p.device)
    ensures Step(p, OnSocket(msg, applied)) ==
      p.(sent := p.sent + [Signal(Busy, msg.chat, msg.call, Some(p.device), None, None)])
  {
  }

  lemma AcceptLinks(p: Phone, chat: ChatId, call: CallId, device: Device, setup: Setup)
    requires RungBy(p, chat, call, device)
    ensures var q := Step(p, Accept(setup));
      && SameDevice(p, q)
      && (setup.Ready? ==> LinkedTo(q, chat, call, device) && q.sent == p.sent + Own(q, Answer))
      && (!setup.Ready? ==> q.state.phase.Ended? && q.pc.None? && q.sent == p.sent + Own(q, End))
  {
  }

  lemma AnswerLinks(p: Phone, chat: ChatId, msg: Signal)
    requires Calls(p, chat, msg.call) && msg.kind.Answer? && msg.from != Some(p.user)
    requires msg.device.Some? && msg.device != Some(p.device)
    ensures var q := Step(p, OnSocket(msg, true));
      SameDevice(p, q) && LinkedTo(q, chat, msg.call, msg.device.value) && q.sent == p.sent
  {
  }

  lemma ConnectionActivates(p: Phone, chat: ChatId, call: CallId, device: Device)
    requires LinkedTo(p, chat, call, device)
    ensures var q := Step(p, PeerConnected);
      SameDevice(p, q) && TalksTo(q, call, device) && q.sent == p.sent && (q.timeout.Some? ==> q.timeout.value !in q.timers)
  {
  }

  // --------------------------------------------------------------- other calls

  /** A signal about another call never changes what a busy device is doing; at most it
      answers an offer with "busy". */
  lemma OtherCallsIgnored(p: Phone, msg: Signal, applied: bool)
    requires IsBusy(p) && p.state.call != Some(msg.call)
    ensures OnSignal(p, msg, applied).(sent := p.sent) == p
    ensures OnSignal(p, msg, applied).sent == p.sent ||
      OnSignal(p, msg, applied).sent == p.sent + [Signal(Busy, msg.chat, msg.call, Some(p.device), None, None)]
  {
  }

  /** Whatever signals of other calls arrive, a busy device goes on as it was, and sends
      nothing but that it is busy. */
  lemma {:induction false} OtherCallsNeverDisturb(p: Phone, es: seq<Event>)
    requires IsBusy(p) && forall e :: e in es ==> e.OnSocket? && p.state.call != Some(e.msg.call)
    ensures Run(p, es).(sent := p.sent) == p && p.sent <= Run(p, es).sent
    ensures forall m :: m in Run(p, es).sent[|p.sent|..] ==> m.kind.Busy?
  {
    if es != [] {
      assert Last(es) in es && forall e :: e in Init(es) ==> e in es;
      OtherCallsNeverDisturb(p, Init(es));
      var q := Run(p, Init(es));
      OtherCallsIgnored(q, Last(es).msg, Last(es).applied);
      assert Step(q, Last(es)) == OnSignal(q, Last(es).msg, Last(es).applied);
    }
  }

  /** After any run, a late answer to a call that has ended takes it back to connecting,
      without a peer connection, and watched: its timer ends it again. */
  lemma LateAnswerRevives(user: User, device: Device, es: seq<Event>, msg: Signal, applied: bool)
    requires Legal(NewPhone(user, device), es)
    requires var p := Run(NewPhone(user, device), es);
      && p.state.phase.Ended? && p.state.outgoing && !p.remoteSet
      && msg.kind.Answer? && p.state.call == Some(msg.call) && msg.device != Some(p.device) && msg.from != Some(p.user)
    ensures Legal(NewPhone(user, device), es + [OnSocket(msg, applied)])
    ensures var q := Run(NewPhone(user, device), es + [OnSocket(msg, applied)]);
      q.state.phase.Connecting? && q.pc.None? && Watched(q)
  {
    RunGrows(NewPhone(user, device), es, OnSocket(msg, applied));
    RunKeepsInv(user, device, es);
    RunKeepsInv(user, device, es + [OnSocket(msg, applied)]);
  }
}
