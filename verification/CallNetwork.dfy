/** Call signalling between all devices of all users, through the server's relay
    (`websocket/calls.go`).

    A packet once relayed stays available: it may be delivered to any device of the user it
    is addressed to, at any time, in any order, any number of times or never. */
module CallNetwork {
  import opened Common
  import opened CallPhone

  datatype Chat = Chat(isGroup: bool, members: set<User>)

  /** What does not change (the chats and whose devices are whose), and the record of
      which device began each call, and which devices accepted which calls. */
  datatype World = World(
    chats: map<ChatId, Chat>,
    users: map<Device, User>,
    callers: map<CallId, (Device, ChatId)>,
    accepts: set<(Device, CallId)>)

  datatype Packet = Packet(to: User, msg: Signal)

  datatype State = State(world: World, phones: map<Device, Phone>, packets: set<Packet>)

  datatype Event =
    | Act(device: Device, what: CallPhone.Event)
    | Relay(device: Device, msg: Signal, peer: User, online: bool)
    | Deliver(device: Device, msg: Signal, applied: bool)

  /** callPeer: the other member of a one-to-one chat that the sender belongs to. */
  predicate CallPeer(chats: map<ChatId, Chat>, chat: ChatId, user: User, peer: User) {
    && chat in chats && !chats[chat].isGroup
    && user in chats[chat].members && peer in chats[chat].members && peer != user
  }

  /** What handleCallEvent dispatches. */
  function Relayed(user: User, msg: Signal, peer: User, online: bool): set<Packet> {
    if msg.kind.Offer? && !online then
      {Packet(user, Signal(Unavailable, msg.chat, msg.call, None, None, None))}
    else
      var m := msg.(from := Some(user));
      {Packet(peer, m), Packet(user, m)}
  }

  function Recorded(w: World, p: Phone, e: CallPhone.Event): World {
    match e
    case Start(chat, _, call, _) => if IsBusy(p) then w else w.(callers := w.callers[call := (p.device, chat)])
    case Accept(setup) =>
      if p.state.phase.Incoming? && p.pendingOffer.Some? && p.state.call.Some? && setup.Ready?
      then w.(accepts := w.accepts + {(p.device, p.state.call.value)}) else w
    case _ => w
  }

  ghost predicate Enabled(s: State, e: Event) {
    && e.device in s.phones && e.device in s.world.users
    && match e
       case Act(d, what) =>
         !what.OnSocket? && CallPhone.Enabled(s.phones[d], what) && (what.Start? ==> what.call !in s.world.callers)
       case Relay(d, msg, peer, _) =>
         msg in s.phones[d].sent && CallPeer(s.world.chats, msg.chat, s.world.users[d], peer)
       case Deliver(d, msg, _) => Packet(s.world.users[d], msg) in s.packets
  }

  function Step(s: State, e: Event): State {
    if e.device !in s.phones || e.device !in s.world.users then s else
      var p := s.phones[e.device];
      match e
      case Act(d, what) => s.(phones := s.phones[d := CallPhone.Step(p, what)], world := Recorded(s.world, p, what))
      case Relay(d, msg, peer, online) => s.(packets := s.packets + Relayed(s.world.users[d], msg, peer, online))
      case Deliver(d, msg, applied) => s.(phones := s.phones[d := CallPhone.Step(p, OnSocket(msg, applied))])
  }

  function Initial(chats: map<ChatId, Chat>, users: map<Device, User>): State {
    State(World(chats, users, map[], {}), map d | d in users :: NewPhone(users[d], d), {})
  }

  function Run(chats: map<ChatId, Chat>, users: map<Device, User>, es: seq<Event>): State {
    if es == [] then Initial(chats, users) else Step(Run(chats, users, Init(es)), Last(es))
  }

  ghost predicate Legal(chats: map<ChatId, Chat>, users: map<Device, User>, es: seq<Event>) {
    es != [] ==> Legal(chats, users, Init(es)) && Enabled(Run(chats, users, Init(es)), Last(es))
  }

  // -------------------------------------------------------------- invariant

  /** The device belongs to the other member of the chat that the call was placed in. */
  ghost predicate OtherSide(w: World, d: Device, call: CallId) {
    && call in w.callers && d in w.users && w.callers[call].0 in w.users
    && CallPeer(w.chats, w.callers[call].1, w.users[w.callers[call].0], w.users[d])
  }

  ghost predicate SignalTrue(w: World, d: Device, m: Signal) {
    && m.device == Some(d)
    && (m.kind.Offer? ==> m.call in w.callers && w.callers[m.call] == (d, m.chat))
    && (m.kind.Answer? ==> (d, m.call) in w.accepts)
  }

  /** A packet is a device's own signal under its user's name, to a member of the chat. */
  ghost predicate PacketTrue(w: World, k: Packet) {
    if k.msg.kind.Unavailable? && k.msg.device.None? then true else
      && k.msg.device.Some? && k.msg.device.value in w.users
      && SignalTrue(w, k.msg.device.value, k.msg)
      && k.msg.from == Some(w.users[k.msg.device.value])
      && k.msg.chat in w.chats && !w.chats[k.msg.chat].isGroup
      && k.to in w.chats[k.msg.chat].members && w.users[k.msg.device.value] in w.chats[k.msg.chat].members
  }

  /** What a device believes about its call is so. */
  ghost predicate PhoneTrue(w: World, d: Device, p: Phone) {
    && p.device == d && d in w.users && p.user == w.users[d]
    && IceConserved(p)
    && (p.state.call.Some? && p.state.outgoing ==>
          p.state.call.value in w.callers && w.callers[p.state.call.value].0 == d)
    && (p.state.call.Some? && !p.state.outgoing ==> OtherSide(w, d, p.state.call.value))
    && (p.state.call.Some? ==> p.state.chat == Some(w.callers[p.state.call.value].1))
    && (HasAnswer(p) ==> p.peerDevice.Some? && (p.peerDevice.value, p.state.call.value) in w.accepts)
    && (forall m :: m in p.sent ==> SignalTrue(w, d, m))
  }

  ghost predicate HasAnswer(p: Phone) {
    p.state.call.Some? && p.state.outgoing && (p.remoteSet || p.state.phase.Connecting? || p.state.phase.Active?)
  }

  ghost predicate AcceptsTrue(w: World) {
    forall a :: a in w.accepts ==> OtherSide(w, a.0, a.1)
  }

  ghost predicate Inv(s: State) {
    && AcceptsTrue(s.world)
    && (forall d :: d in s.phones ==> PhoneTrue(s.world, d, s.phones[d]))
    && (forall k :: k in s.packets ==> PacketTrue(s.world, k))
  }

  ghost predicate Grows(w: World, w': World) {
    && w'.chats == w.chats && w'.users == w.users && w.accepts <= w'.accepts
    && forall c :: c in w.callers ==> c in w'.callers && w'.callers[c] == w.callers[c]
  }

  lemma GrowthKeeps(w: World, w': World, d: Device, p: Phone, k: Packet)
    requires Grows(w, w')
    ensures PhoneTrue(w, d, p) ==> PhoneTrue(w', d, p)
    ensures PacketTrue(w, k) ==> PacketTrue(w', k)
  {
    if PhoneTrue(w, d, p) {
      assert forall m :: m in p.sent ==> SignalTrue(w, d, m);
    }
  }

  lemma SendKeepsTrue(w: World, d: Device, p: Phone, kind: Kind, candidate: Option<Candidate>)
    requires PhoneTrue(w, d, p) && !kind.Offer? && !kind.Answer?
    ensures PhoneTrue(w, d, Send(p, kind, candidate))
  {
  }

  lemma FinishKeepsTrue(w: World, d: Device, p: Phone, reason: Reason)
    requires PhoneTrue(w, d, p)
    ensures PhoneTrue(w, d, Finish(p, reason))
  {
    FinishConservesIce(p, reason);
  }

  lemma SendFinishKeepsTrue(w: World, d: Device, p: Phone, kind: Kind, reason: Reason)
    requires PhoneTrue(w, d, p) && !kind.Offer? && !kind.Answer?
    ensures PhoneTrue(w, d, Finish(Send(p, kind, None), reason))
  {
    SendKeepsTrue(w, d, p, kind, None);
    FinishKeepsTrue(w, d, Send(p, kind, None), reason);
  }

  lemma StartReadyTrue(w: World, d: Device, p: Phone, chat: ChatId, peer: User, call: CallId, setup: Setup)
    requires PhoneTrue(w, d, p) && call !in w.callers && !IsBusy(p) && setup.Ready?
    ensures PhoneTrue(Recorded(w, p, Start(chat, peer, call, setup)), d, OnStart(p, chat, peer, call, setup))
  {
    var w' := Recorded(w, p, Start(chat, peer, call, setup));
    GrowthKeeps(w, w', d, p, Packet("", Signal(Unavailable, "", 0, None, None, None)));
    StartConservesIce(p, chat, peer, call, setup);
  }

  lemma StartFailsTrue(w: World, d: Device, p: Phone, chat: ChatId, peer: User, call: CallId, setup: Setup)
    requires PhoneTrue(w, d, p) && call !in w.callers && !IsBusy(p) && !setup.Ready?
    ensures PhoneTrue(Recorded(w, p, Start(chat, peer, call, setup)), d, OnStart(p, chat, peer, call, setup))
  {
    var w' := Recorded(w, p, Start(chat, peer, call, setup));
    GrowthKeeps(w, w', d, p, Packet("", Signal(Unavailable, "", 0, None, None, None)));
    StartConservesIce(p, chat, peer, call, setup);
  }

  lemma StartKeepsTrue(w: World, d: Device, p: Phone, chat: ChatId, peer: User, call: CallId, setup: Setup)
    requires PhoneTrue(w, d, p) && call !in w.callers
    ensures PhoneTrue(Recorded(w, p, Start(chat, peer, call, setup)), d, OnStart(p, chat, peer, call, setup))
  {
    if IsBusy(p) {
      StartConservesIce(p, chat, peer, call, setup);
    } else if setup.Ready? {
      StartReadyTrue(w, d, p, chat, peer, call, setup);
    } else {
      StartFailsTrue(w, d, p, chat, peer, call, setup);
    }
  }

  lemma AcceptKeepsTrue(w: World, d: Device, p: Phone, setup: Setup)
    requires PhoneTrue(w, d, p) && AcceptsTrue(w)
    ensures PhoneTrue(Recorded(w, p, Accept(setup)), d, OnAccept(p, setup))
    ensures AcceptsTrue(Recorded(w, p, Accept(setup)))
  {
    var w' := Recorded(w, p, Accept(setup));
    GrowthKeeps(w, w', d, p, Packet("", Signal(Unavailable, "", 0, None, None, None)));
    AcceptConservesIce(p, setup);
    forall a | a in w'.accepts
      ensures OtherSide(w', a.0, a.1)
    {
      assert a in w.accepts ==> OtherSide(w, a.0, a.1);
    }
  }

  lemma OfferKeepsTrue(w: World, d: Device, p: Phone, msg: Signal)
    requires PhoneTrue(w, d, p) && PacketTrue(w, Packet(w.users[d], msg))
    requires msg.kind.Offer? && msg.from != Some(p.user)
    ensures PhoneTrue(w, d, OnOffer(p, msg))
  {
    SignalConservesIce(p, msg, true);
    assert OtherSide(w, d, msg.call);
  }

  lemma AnswerKeepsTrue(w: World, d: Device, p: Phone, msg: Signal, applied: bool)
    requires PhoneTrue(w, d, p) && PacketTrue(w, Packet(w.users[d], msg))
    requires msg.kind.Answer? && p.state.call == Some(msg.call)
    ensures PhoneTrue(w, d, OnAnswer(p, msg, applied))
  {
    AnswerConservesIce(p, msg, applied);
  }

  lemma IceKeepsTrue(w: World, d: Device, p: Phone, msg: Signal)
    requires PhoneTrue(w, d, p)
    ensures PhoneTrue(w, d, OnIce(p, msg))
  {
    CandidateConservesIce(p, msg);
  }

  lemma DeliverKeepsTrue(w: World, d: Device, p: Phone, msg: Signal, applied: bool)
    requires PhoneTrue(w, d, p) && PacketTrue(w, Packet(w.users[d], msg))
    ensures PhoneTrue(w, d, OnSignal(p, msg, applied))
  {
    SignalOutcomes(p, msg, applied);
    var q := OnSignal(p, msg, applied);
    if q == p {
    } else if q == OnOffer(p, msg) && msg.kind.Offer? {
      OfferKeepsTrue(w, d, p, msg);
    } else if q == OnIce(p, msg) {
      IceKeepsTrue(w, d, p, msg);
    } else if q == OnAnswer(p, msg, applied) && msg.kind.Answer? && p.state.call == Some(msg.call) {
      AnswerKeepsTrue(w, d, p, msg, applied);
    } else if r :| q == Finish(p, r) {
      FinishKeepsTrue(w, d, p, r);
    }
  }

  lemma FireKeepsTrue(w: World, d: Device, p: Phone, id: nat)
    requires PhoneTrue(w, d, p)
    ensures PhoneTrue(w, d, OnFire(p, id))
  {
    if id in p.timers {
      var q := p.(timers := p.timers - {id});
      SendFinishKeepsTrue(w, d, q, End, NoAnswer);
      SendFinishKeepsTrue(w, d, q, End, Broken);
      FinishKeepsTrue(w, d, q, NoAnswer);
    }
  }

  lemma ActKeepsTrue(w: World, d: Device, p: Phone, e: CallPhone.Event)
    requires PhoneTrue(w, d, p) && AcceptsTrue(w) && !e.OnSocket? && CallPhone.Enabled(p, e)
    requires e.Start? ==> e.call !in w.callers
    ensures PhoneTrue(Recorded(w, p, e), d, CallPhone.Step(p, e))
    ensures AcceptsTrue(Recorded(w, p, e)) && Grows(w, Recorded(w, p, e))
  {
    match e
    case Start(chat, peer, call, setup) =>
      StartKeepsTrue(w, d, p, chat, peer, call, setup);
      assert forall a :: a in w.accepts ==> OtherSide(w, a.0, a.1);
    case Accept(setup) => AcceptKeepsTrue(w, d, p, setup);
    case Decline => SendFinishKeepsTrue(w, d, p, Reject, Declined);
    case HangUp =>
      SendFinishKeepsTrue(w, d, p, Reject, Declined);
      SendFinishKeepsTrue(w, d, p, End, if p.state.outgoing && !p.state.connected then Cancelled else Hangup);
    case PeerFailed => SendFinishKeepsTrue(w, d, p, End, Broken);
    case LocalCandidate(c) => SendKeepsTrue(w, d, p, Ice, Some(c));
    case Fire(id) => FireKeepsTrue(w, d, p, id);
    case PeerConnected =>
    case ToggleMute =>
    case SetMinimized(_) =>
    case Tick(_) =>
  }

  lemma OthersStayTrue(s: State, w: World)
    requires Inv(s) && Grows(s.world, w)
    ensures forall x :: x in s.phones ==> PhoneTrue(w, x, s.phones[x])
    ensures forall k :: k in s.packets ==> PacketTrue(w, k)
  {
    forall x | x in s.phones
      ensures PhoneTrue(w, x, s.phones[x])
    {
      GrowthKeeps(s.world, w, x, s.phones[x], Packet("", Signal(Unavailable, "", 0, None, None, None)));
    }
    PacketsStayTrue(s, w);
  }

  lemma PacketsStayTrue(s: State, w: World)
    requires Inv(s) && Grows(s.world, w)
    ensures forall k :: k in s.packets ==> PacketTrue(w, k)
  {
    forall k | k in s.packets
      ensures PacketTrue(w, k)
    {
      assert PacketTrue(s.world, k);
    }
  }

  lemma StepKeepsInv(s: State, e: Event)
    requires Inv(s) && Enabled(s, e)
    ensures Inv(Step(s, e))
  {
    var s', d := Step(s, e), e.device;
    var p := s.phones[d];
    match e
    case Act(_, what) =>
      ActKeepsTrue(s.world, d, p, what);
      OthersStayTrue(s, s'.world);
    case Relay(_, msg, peer, online) =>
      assert SignalTrue(s.world, d, msg);
    case Deliver(_, msg, applied) =>
      assert PacketTrue(s.world, Packet(s.world.users[d], msg));
      DeliverKeepsTrue(s.world, d, p, msg, applied);
  }

  lemma {:induction false} RunKeepsInv(chats: map<ChatId, Chat>, users: map<Device, User>, es: seq<Event>)
    requires Legal(chats, users, es)
    ensures Inv(Run(chats, users, es))
  {
    if es != [] {
      RunKeepsInv(chats, users, Init(es));
      StepKeepsInv(Run(chats, users, Init(es)), Last(es));
    }
  }

  // ---------------------------------------------------------------- results

  /** Over any number of devices and any delivery order: a caller is connecting or active on
      a call only if a device of the other member of the call's chat was rung by this very
      call and accepted it, and that device is the one whose candidates it listens to. */
  lemma CallAgreement(chats: map<ChatId, Chat>, users: map<Device, User>, es: seq<Event>, d: Device)
    requires Legal(chats, users, es) && d in Run(chats, users, es).phones
    requires var p := Run(chats, users, es).phones[d];
      p.state.outgoing && (p.state.phase.Connecting? || p.state.phase.Active?)
    ensures var s := Run(chats, users, es); var p := s.phones[d];
      && p.state.call.Some? && p.peerDevice.Some?
      && (p.peerDevice.value, p.state.call.value) in s.world.accepts
      && OtherSide(s.world, p.peerDevice.value, p.state.call.value)
      && p.state.chat.Some? && s.world.callers[p.state.call.value] == (d, p.state.chat.value)
  {
    RunKeepsInv(chats, users, es);
    var p := Run(chats, users, es).phones[d];
    assert PhoneTrue(Run(chats, users, es).world, d, p);
  }

  /** A device is only ever rung by a call of the other member of a chat it is in. */
  lemma RungByPeerOnly(chats: map<ChatId, Chat>, users: map<Device, User>, es: seq<Event>, d: Device)
    requires Legal(chats, users, es) && d in Run(chats, users, es).phones
    requires Run(chats, users, es).phones[d].state.phase.Incoming?
    ensures var s := Run(chats, users, es);
      s.phones[d].state.call.Some? && OtherSide(s.world, d, s.phones[d].state.call.value)
  {
    RunKeepsInv(chats, users, es);
    assert PhoneTrue(Run(chats, users, es).world, d, Run(chats, users, es).phones[d]);
  }

  // ------------------------------------------------------ calls come and go

  lemma RunGrows(chats: map<ChatId, Chat>, users: map<Device, User>, es: seq<Event>, e: Event)
    requires Legal(chats, users, es) && Enabled(Run(chats, users, es), e)
    ensures Legal(chats, users, es + [e])
    ensures Run(chats, users, es + [e]) == Step(Run(chats, users, es), e)
  {
    assert Init(es + [e]) == es;
  }

  /** Both devices are there, of two members of a one-to-one chat. */
  ghost predicate CanCall(s: State, a: Device, b: Device, chat: ChatId) {
    && a in s.phones && b in s.phones && a in s.world.users && b in s.world.users
    && CallPeer(s.world.chats, chat, s.world.users[a], s.world.users[b])
    && s.phones[a].device == a && s.phones[b].device == b
    && s.phones[a].user == s.world.users[a] && s.phones[b].user == s.world.users[b]
  }

  /** A device sends a signal: it is relayed, and delivered to a device of the other user. */
  function Carried(s: State, a: Device, b: Device, msg: Signal): State
    requires a in s.world.users && b in s.world.users
  {
    Step(Step(s, Relay(a, msg, s.world.users[b], true)), Deliver(b, msg.(from := Some(s.world.users[a])), true))
  }

  lemma CarriedDelivers(s: State, a: Device, b: Device, chat: ChatId, msg: Signal)
    requires CanCall(s, a, b, chat) && msg in s.phones[a].sent && msg.chat == chat
    ensures Enabled(s, Relay(a, msg, s.world.users[b], true))
    ensures Enabled(Step(s, Relay(a, msg, s.world.users[b], true)), Deliver(b, msg.(from := Some(s.world.users[a])), true))
    ensures Carried(s, a, b, msg).world == s.world
    ensures Carried(s, a, b, msg).phones
         == s.phones[b := CallPhone.Step(s.phones[b], OnSocket(msg.(from := Some(s.world.users[a])), true))]
  {
  }

  lemma CarriedRuns(chats: map<ChatId, Chat>, users: map<Device, User>, es: seq<Event>, a: Device, b: Device,
                    chat: ChatId, msg: Signal) returns (more: seq<Event>)
    requires Legal(chats, users, es) && CanCall(Run(chats, users, es), a, b, chat)
    requires msg in Run(chats, users, es).phones[a].sent && msg.chat == chat
    ensures Legal(chats, users, more) && Run(chats, users, more) == Carried(Run(chats, users, es), a, b, msg)
    ensures var s := Run(chats, users, es);
      more == es + [Relay(a, msg, s.world.users[b], true)] + [Deliver(b, msg.(from := Some(s.world.users[a])), true)]
  {
    var s := Run(chats, users, es);
    var relay, deliver := Relay(a, msg, s.world.users[b], true), Deliver(b, msg.(from := Some(s.world.users[a])), true);
    CarriedDelivers(s, a, b, chat, msg);
    RunGrows(chats, users, es, relay);
    RunGrows(chats, users, es + [relay], deliver);
    more := es + [relay] + [deliver];
  }

  lemma Ring(chats: map<ChatId, Chat>, users: map<Device, User>, es: seq<Event>, a: Device, b: Device,
             chat: ChatId, call: CallId) returns (more: seq<Event>)
    requires Legal(chats, users, es) && CanCall(Run(chats, users, es), a, b, chat)
    requires var s := Run(chats, users, es);
      !IsBusy(s.phones[a]) && !IsBusy(s.phones[b]) && call !in s.world.callers
    ensures Legal(chats, users, more) && es <= more && CanCall(Run(chats, users, more), a, b, chat)
    ensures var s := Run(chats, users, more); Calls(s.phones[a], chat, call) && RungBy(s.phones[b], chat, call, a)
  {
    var s := Run(chats, users, es);
    var start := Act(a, Start(chat, s.world.users[b], call, Ready));
    StartCalls(s.phones[a], chat, s.world.users[b], call, Ready);
    RunGrows(chats, users, es, start);
    var s1 := Run(chats, users, es + [start]);
    var offer := Signal(Offer, chat, call, Some(a), None, None);
    assert offer in Own(s1.phones[a], Offer);
    more := CarriedRuns(chats, users, es + [start], a, b, chat, offer);
    CarriedDelivers(s1, a, b, chat, offer);
    OfferRings(s1.phones[b], offer.(from := Some(s.world.users[a])), true);
  }

  lemma Link(chats: map<ChatId, Chat>, users: map<Device, User>, es: seq<Event>, a: Device, b: Device,
             chat: ChatId, call: CallId) returns (more: seq<Event>)
    requires Legal(chats, users, es) && CanCall(Run(chats, users, es), a, b, chat)
    requires var s := Run(chats, users, es); Calls(s.phones[a], chat, call) && RungBy(s.phones[b], chat, call, a)
    ensures Legal(chats, users, more) && es <= more && CanCall(Run(chats, users, more), a, b, chat)
    ensures var s := Run(chats, users, more); LinkedTo(s.phones[a], chat, call, b) && LinkedTo(s.phones[b], chat, call, a)
  {
    var s := Run(chats, users, es);
    var accept := Act(b, Accept(Ready));
    AcceptLinks(s.phones[b], chat, call, a, Ready);
    RunGrows(chats, users, es, accept);
    var s1 := Run(chats, users, es + [accept]);
    var answer := Signal(Answer, chat, call, Some(b), None, None);
    assert answer in Own(s1.phones[b], Answer);
    more := CarriedRuns(chats, users, es + [accept], b, a, chat, answer);
    CarriedDelivers(s1, b, a, chat, answer);
    AnswerLinks(s1.phones[a], chat, answer.(from := Some(s.world.users[b])));
  }

  lemma Talk(chats: map<ChatId, Chat>, users: map<Device, User>, es: seq<Event>, a: Device, b: Device,
             chat: ChatId, call: CallId) returns (more: seq<Event>)
    requires Legal(chats, users, es) && CanCall(Run(chats, users, es), a, b, chat)
    requires var s := Run(chats, users, es); LinkedTo(s.phones[a], chat, call, b) && LinkedTo(s.phones[b], chat, call, a)
    ensures Legal(chats, users, more) && es <= more && CanCall(Run(chats, users, more), a, b, chat)
    ensures var s := Run(chats, users, more); TalksTo(s.phones[a], call, b) && TalksTo(s.phones[b], call, a)
  {
    var s := Run(chats, users, es);
    ConnectionActivates(s.phones[a], chat, call, b);
    ConnectionActivates(s.phones[b], chat, call, a);
    RunGrows(chats, users, es, Act(a, PeerConnected));
    RunGrows(chats, users, es + [Act(a, PeerConnected)], Act(b, PeerConnected));
    more := es + [Act(a, PeerConnected)] + [Act(b, PeerConnected)];
  }

  lemma InvMeansCanCall(s: State, a: Device, b: Device, chat: ChatId)
    requires Inv(s) && a in s.phones && b in s.phones && a in s.world.users && b in s.world.users
    requires CallPeer(s.world.chats, chat, s.world.users[a], s.world.users[b])
    ensures CanCall(s, a, b, chat) && CanCall(s, b, a, chat)
  {
    assert PhoneTrue(s.world, a, s.phones[a]) && PhoneTrue(s.world, b, s.phones[b]);
  }

  /** After any run, a free device of one member of a one-to-one chat can call a free device
      of the other, and both end up talking to each other. */
  lemma CallsGetThrough(chats: map<ChatId, Chat>, users: map<Device, User>, es: seq<Event>, a: Device, b: Device,
                        chat: ChatId, call: CallId) returns (more: seq<Event>)
    requires Legal(chats, users, es)
    requires var s := Run(chats, users, es);
      && a in s.phones && b in s.phones && a in s.world.users && b in s.world.users
      && CallPeer(s.world.chats, chat, s.world.users[a], s.world.users[b])
      && !IsBusy(s.phones[a]) && !IsBusy(s.phones[b]) && call !in s.world.callers
    ensures Legal(chats, users, more) && es <= more
    ensures var s := Run(chats, users, more);
      a in s.phones && b in s.phones && TalksTo(s.phones[a], call, b) && TalksTo(s.phones[b], call, a)
  {
    RunKeepsInv(chats, users, es);
    InvMeansCanCall(Run(chats, users, es), a, b, chat);
    more := Ring(chats, users, es, a, b, chat, call);
    more := Link(chats, users, more, a, b, chat, call);
    more := Talk(chats, users, more, a, b, chat, call);
  }

  /** What a device that hangs up sends. */
  function Bye(p: Phone, chat: ChatId, call: CallId): Signal {
    Signal(if p.state.phase.Incoming? then Reject else End, chat, call, Some(p.device), None, None)
  }

  lemma HangUpSends(p: Phone, chat: ChatId, call: CallId)
    requires IsBusy(p) && p.state.call == Some(call) && p.state.chat == Some(chat)
    ensures var q := CallPhone.Step(p, HangUp);
      SameDevice(p, q) && q.state.phase.Ended? && q.pc.None? && Bye(p, chat, call) in q.sent
  {
    HangUpEnds(p);
    assert Bye(p, chat, call) in Own(p, if p.state.phase.Incoming? then Reject else End);
  }

  lemma ByeEnds(p: Phone, q: Phone, chat: ChatId, call: CallId)
    requires IsBusy(q) && q.state.call == Some(call) && q.user != p.user && q.device != p.device
    requires p.state.phase.Incoming? ==> q.state.outgoing
    ensures var ended := CallPhone.Step(q, OnSocket(Bye(p, chat, call).(from := Some(p.user)), true));
      ended.state.phase.Ended? && ended.pc.None?
  {
    SignalPhaseExactly(q, Bye(p, chat, call).(from := Some(p.user)), true);
  }

  /** After any run, hanging up ends the call on both sides: once what the device sends is
      relayed and delivered, the other member's device in that call has ended it too. (A
      device that is still rung declines, which speaks to the caller's device.) */
  lemma HangUpEndsBoth(chats: map<ChatId, Chat>, users: map<Device, User>, es: seq<Event>, a: Device, b: Device,
                       chat: ChatId, call: CallId) returns (more: seq<Event>)
    requires Legal(chats, users, es)
    requires var s := Run(chats, users, es);
      && a in s.phones && b in s.phones && a in s.world.users && b in s.world.users
      && CallPeer(s.world.chats, chat, s.world.users[a], s.world.users[b])
      && IsBusy(s.phones[a]) && s.phones[a].state.call == Some(call) && s.phones[a].state.chat == Some(chat)
      && IsBusy(s.phones[b]) && s.phones[b].state.call == Some(call)
      && (s.phones[a].state.phase.Incoming? ==> s.phones[b].state.outgoing)
    ensures var s := Run(chats, users, es); var bye := Bye(s.phones[a], chat, call);
      more == es + [Act(a, HangUp)] + [Relay(a, bye, s.world.users[b], true)]
              + [Deliver(b, bye.(from := Some(s.world.users[a])), true)]
    ensures Legal(chats, users, more)
    ensures var s := Run(chats, users, more);
      && a in s.phones && b in s.phones
      && s.phones[a].state.phase.Ended? && s.phones[a].pc.None? && s.phones[b].state.phase.Ended? && s.phones[b].pc.None?
  {
    var s := Run(chats, users, es);
    var bye := Bye(s.phones[a], chat, call);
    RunKeepsInv(chats, users, es);
    InvMeansCanCall(s, a, b, chat);
    HangUpSends(s.phones[a], chat, call);
    RunGrows(chats, users, es, Act(a, HangUp));
    var s1 := Run(chats, users, es + [Act(a, HangUp)]);
    assert CanCall(s1, a, b, chat) && bye in s1.phones[a].sent && s1.phones[b] == s.phones[b];
    more := CarriedRuns(chats, users, es + [Act(a, HangUp)], a, b, chat, bye);
    CarriedDelivers(s1, a, b, chat, bye);
    ByeEnds(s.phones[a], s.phones[b], chat, call);
  }

  /** After any run, a call to somebody who is not online ends as unreachable once the server
      has said so. */
  lemma OfflineCallEnds(chats: map<ChatId, Chat>, users: map<Device, User>, es: seq<Event>, a: Device, peer: User,
                        chat: ChatId, call: CallId) returns (more: seq<Event>)
    requires Legal(chats, users, es)
    requires var s := Run(chats, users, es);
      && a in s.phones && a in s.world.users && CallPeer(s.world.chats, chat, s.world.users[a], peer)
      && !IsBusy(s.phones[a]) && call !in s.world.callers
    ensures more == es + [Act(a, Start(chat, peer, call, Ready))]
      + [Relay(a, Signal(Offer, chat, call, Some(a), None, None), peer, false)]
      + [Deliver(a, Signal(Unavailable, chat, call, None, None, None), true)]
    ensures Legal(chats, users, more)
    ensures var s := Run(chats, users, more);
      a in s.phones && s.phones[a].state.phase.Ended? && s.phones[a].state.reason == Some(Unreachable)
  {
    var s := Run(chats, users, es);
    var start := Act(a, Start(chat, peer, call, Ready));
    var offer := Signal(Offer, chat, call, Some(a), None, None);
    var sorry := Signal(Unavailable, chat, call, None, None, None);
    RunKeepsInv(chats, users, es);
    assert PhoneTrue(s.world, a, s.phones[a]);
    StartCalls(s.phones[a], chat, peer, call, Ready);
    RunGrows(chats, users, es, start);
    var s1 := Run(chats, users, es + [start]);
    assert offer in Own(s1.phones[a], Offer);
    RunGrows(chats, users, es + [start], Relay(a, offer, peer, false));
    RunGrows(chats, users, es + [start] + [Relay(a, offer, peer, false)], Deliver(a, sorry, true));
    SorryEnds(s1.phones[a], sorry);
    more := es + [start] + [Relay(a, offer, peer, false)] + [Deliver(a, sorry, true)];
  }

  lemma SorryEnds(p: Phone, msg: Signal)
    requires p.state.phase.Outgoing? && p.state.outgoing && p.state.call == Some(msg.call)
    requires msg.kind.Unavailable? && msg.device.None? && msg.from.None?
    ensures var q := CallPhone.Step(p, OnSocket(msg, true)); q.state.phase.Ended? && q.state.reason == Some(Unreachable)
  {
    SignalPhaseExactly(p, msg, true);
    EndReason(p, msg, true);
  }

  lemma AnswerReachesOwn(s: State, b: Device, c: Device, peer: User, answer: Signal)
    requires b in s.phones && c in s.phones && b in s.world.users && c in s.world.users
    requires s.world.users[c] == s.world.users[b] && answer in s.phones[b].sent && !answer.kind.Offer?
    requires CallPeer(s.world.chats, answer.chat, s.world.users[b], peer)
    ensures Enabled(s, Relay(b, answer, peer, true))
    ensures Enabled(Step(s, Relay(b, answer, peer, true)), Deliver(c, answer.(from := Some(s.world.users[b])), true))
    ensures Step(Step(s, Relay(b, answer, peer, true)), Deliver(c, answer.(from := Some(s.world.users[b])), true)).phones
         == s.phones[c := CallPhone.Step(s.phones[c], OnSocket(answer.(from := Some(s.world.users[b])), true))]
  {
  }

  lemma ElsewhereEnds(p: Phone, answer: Signal, user: User)
    requires p.state.phase.Incoming? && p.state.call == Some(answer.call) && p.user == user
    requires answer.kind.Answer? && answer.device != Some(p.device)
    ensures var q := CallPhone.Step(p, OnSocket(answer.(from := Some(user)), true));
      q.state.phase.Ended? && q.state.reason == Some(AnsweredElsewhere)
  {
    SignalPhaseExactly(p, answer.(from := Some(user)), true);
    EndReason(p, answer.(from := Some(user)), true);
  }

  /** After any run, when a call rings on two devices of one user and one of them accepts it, the
      other stops ringing as soon as it hears of the answer. */
  lemma AnsweredElsewhereStops(chats: map<ChatId, Chat>, users: map<Device, User>, es: seq<Event>, b: Device, c: Device,
                               peer: User, chat: ChatId, call: CallId, a: Device) returns (more: seq<Event>)
    requires Legal(chats, users, es) && b != c
    requires var s := Run(chats, users, es);
      && b in s.phones && c in s.phones && b in s.world.users && c in s.world.users
      && s.world.users[c] == s.world.users[b] && CallPeer(s.world.chats, chat, s.world.users[b], peer)
      && RungBy(s.phones[b], chat, call, a) && RungBy(s.phones[c], chat, call, a)
    ensures var user := Run(chats, users, es).world.users[b]; var answer := Signal(Answer, chat, call, Some(b), None, None);
      more == es + [Act(b, Accept(Ready))] + [Relay(b, answer, peer, true)] + [Deliver(c, answer.(from := Some(user)), true)]
    ensures Legal(chats, users, more)
    ensures var s := Run(chats, users, more);
      c in s.phones && s.phones[c].state.phase.Ended? && s.phones[c].state.reason == Some(AnsweredElsewhere)
  {
    var s := Run(chats, users, es);
    var accept := Act(b, Accept(Ready));
    var answer := Signal(Answer, chat, call, Some(b), None, None);
    RunKeepsInv(chats, users, es);
    assert PhoneTrue(s.world, b, s.phones[b]) && PhoneTrue(s.world, c, s.phones[c]);
    AcceptLinks(s.phones[b], chat, call, a, Ready);
    RunGrows(chats, users, es, accept);
    var s1 := Run(chats, users, es + [accept]);
    assert answer in Own(s1.phones[b], Answer);
    AnswerReachesOwn(s1, b, c, peer, answer);
    var relay, deliver := Relay(b, answer, peer, true), Deliver(c, answer.(from := Some(s.world.users[b])), true);
    RunGrows(chats, users, es + [accept], relay);
    RunGrows(chats, users, es + [accept] + [relay], deliver);
    ElsewhereEnds(s.phones[c], answer, s.world.users[b]);
    more := es + [accept] + [relay] + [deliver];
  }

  lemma BusyStep(s: State, a: Device, b: Device, chat: ChatId, call: CallId)
    requires CanCall(s, a, b, chat) && a != b && Calls(s.phones[a], chat, call) && IsBusy(s.phones[b])
    requires Signal(Offer, chat, call, Some(a), None, None) in s.phones[a].sent
    ensures var s' := Carried(s, a, b, Signal(Offer, chat, call, Some(a), None, None));
      && CanCall(s', a, b, chat) && s'.phones[a] == s.phones[a] && s'.phones[b] == s.phones[b].(sent := s'.phones[b].sent)
      && Signal(Busy, chat, call, Some(b), None, None) in s'.phones[b].sent
  {
    var offer := Signal(Offer, chat, call, Some(a), None, None);
    CarriedDelivers(s, a, b, chat, offer);
    OfferFindsBusy(s.phones[b], offer.(from := Some(s.world.users[a])), true);
  }

  lemma BusyEndsCaller(p: Phone, chat: ChatId, call: CallId, busy: Signal)
    requires Calls(p, chat, call) && busy.kind.Busy? && busy.call == call
    requires busy.from != Some(p.user) && busy.device != Some(p.device)
    ensures var q := CallPhone.Step(p, OnSocket(busy, true)); q.state.phase.Ended? && q.state.reason == Some(BusyThere)
  {
    SignalPhaseExactly(p, busy, true);
    EndReason(p, busy, true);
  }

  /** After any run, a call that reaches a busy device is answered with "busy", which ends it for
      the caller and leaves the busy device in its own call. */
  lemma CallingBusyEnds(chats: map<ChatId, Chat>, users: map<Device, User>, es: seq<Event>, a: Device, b: Device,
                        chat: ChatId, call: CallId) returns (more: seq<Event>)
    requires Legal(chats, users, es)
    requires var s := Run(chats, users, es);
      && CanCall(s, a, b, chat) && a != b && Calls(s.phones[a], chat, call) && IsBusy(s.phones[b])
      && Signal(Offer, chat, call, Some(a), None, None) in s.phones[a].sent
    ensures Legal(chats, users, more) && es <= more
    ensures var s, s' := Run(chats, users, es), Run(chats, users, more);
      && a in s'.phones && b in s'.phones
      && s'.phones[a].state.phase.Ended? && s'.phones[a].state.reason == Some(BusyThere)
      && s'.phones[b] == s.phones[b].(sent := s'.phones[b].sent)
  {
    var s := Run(chats, users, es);
    var offer, busy := Signal(Offer, chat, call, Some(a), None, None), Signal(Busy, chat, call, Some(b), None, None);
    BusyStep(s, a, b, chat, call);
    var so := CarriedRuns(chats, users, es, a, b, chat, offer);
    var s1 := Run(chats, users, so);
    PeersBothWays(s1, a, b, chat);
    more := CarriedRuns(chats, users, so, b, a, chat, busy);
    CarriedDelivers(s1, b, a, chat, busy);
    BusyEndsCaller(s1.phones[a], chat, call, busy.(from := Some(s1.world.users[b])));
  }

  lemma PeersBothWays(s: State, a: Device, b: Device, chat: ChatId)
    requires CanCall(s, a, b, chat)
    ensures CanCall(s, b, a, chat) && s.world.users[a] != s.world.users[b]
  {
  }
}
