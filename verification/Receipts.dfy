/** Delivery states, from the rows (`hub.go`, `client.go`, `messages.go`) to the screens
    (`useChat.js`): what a stored state is evidence of, and that no screen runs ahead of it. */
module Receipts {
  import opened Common
  import opened MessageStore
  import Screen = MessageList

  function Level(status: Status): nat {
    match status
    case Sent => 0
    case Delivered => 1
    case Seen => 2
  }

  // ------------------------------------------------------ what an event does to a row

  function StatusAfter(t: Tables, e: Event, m: Message): Status {
    match e
    case Reach(id, _, _) => if m.id == id && m.status == Sent then Delivered else m.status
    case Connect(user, _) => if Undelivered(t.members, user)(m) then Delivered else m.status
    case Look(chat, user, fetch, _) =>
      if (chat, user) in t.members && Unseen(chat, user, fetch)(m) then Seen else m.status
    case _ => m.status
  }

  /** `m` is what `e` makes of the row `o`: only its status, its deleted mark and its reply
      pointer can differ. */
  ghost predicate Continues(t: Tables, e: Event, o: Message, m: Message) {
    m == o.(status := StatusAfter(t, e, o), softDeleted := m.softDeleted, replyTo := m.replyTo)
  }

  ghost predicate ComesFrom(t: Tables, e: Event, m: Message) {
    exists o :: o in t.messages && Continues(t, e, o, m)
  }

  /** A row as it is stored first. */
  ghost predicate Fresh(t: Tables, e: Event, m: Message) {
    && m.id == t.nextId
    && (m.kind == System <==> e.Notice?)
    && m.status == (if e.Notice? then Seen else Sent)
    && (e.Post? ==> m.sender == Some(e.draft.from))
  }

  lemma KeptComesFrom(t: Tables, e: Event, gone: set<nat>, m: Message)
    requires m in Kept(t.messages, gone) && forall o :: StatusAfter(t, e, o) == o.status
    ensures ComesFrom(t, e, m)
  {
    KeptRows(t.messages, gone);
    var o :| o in t.messages && o.id !in gone && m == Unreferring(o, gone);
    assert Continues(t, e, o, m);
  }

  lemma UpdatedComesFrom(t: Tables, e: Event, p: Message -> bool, status: Status, m: Message)
    requires m in WithStatus(t.messages, p, status)
    requires forall o :: o in t.messages ==> StatusAfter(t, e, o) == if p(o) then status else o.status
    ensures ComesFrom(t, e, m)
  {
    WithStatusRows(t.messages, p, status);
    var i :| 0 <= i < |t.messages| && WithStatus(t.messages, p, status)[i] == m;
    assert t.messages[i] in t.messages && Continues(t, e, t.messages[i], m);
  }

  lemma SameComesFrom(t: Tables, e: Event, m: Message)
    requires m in t.messages && StatusAfter(t, e, m) == m.status
    ensures ComesFrom(t, e, m)
  {
    assert Continues(t, e, m, m);
  }

  lemma InsertedComesFrom(t: Tables, e: Event, m: Message)
    requires e.Post? || e.Attach? || e.Notice?
    requires m in Apply(t, e).messages
    ensures Fresh(t, e, m) || ComesFrom(t, e, m)
  {
    if m in t.messages {
      SameComesFrom(t, e, m);
    }
  }

  lemma MarkedComesFrom(t: Tables, e: Event, m: Message)
    requires Marks(e) && m in Apply(t, e).messages
    ensures ComesFrom(t, e, m)
  {
    match e
    case Reach(id, _, _) => UpdatedComesFrom(t, e, (o: Message) => o.id == id && o.status == Sent, Delivered, m);
    case Connect(user, _) => UpdatedComesFrom(t, e, Undelivered(t.members, user), Delivered, m);
    case Look(chat, user, fetch, _) =>
      if (chat, user) in t.members {
        UpdatedComesFrom(t, e, Unseen(chat, user, fetch), Seen, m);
      } else {
        SameComesFrom(t, e, m);
      }
    case Retire(id, _) => RetiredComesFrom(t, e, id, m);
  }

  lemma LeftComesFrom(t: Tables, e: Event, m: Message)
    requires e.Leave? && m in Apply(t, e).messages
    ensures ComesFrom(t, e, m)
  {
    if m in t.messages {
      SameComesFrom(t, e, m);
    } else {
      KeptComesFrom(t, e, ChatIds(Departed(t, e.chat, e.user), e.chat), m);
    }
  }

  /** Every stored row is new or was there before. */
  lemma RowsAfter(t: Tables, e: Event, m: Message)
    requires m in Apply(t, e).messages
    ensures Fresh(t, e, m) || ComesFrom(t, e, m)
  {
    if Marks(e) {
      MarkedComesFrom(t, e, m);
    } else {
      match e
      case Post(_, _, _, _) => InsertedComesFrom(t, e, m);
      case Attach(_, _, _, _) => InsertedComesFrom(t, e, m);
      case Notice(_, _, _) => InsertedComesFrom(t, e, m);
      case DeleteForAll(id, _) => KeptComesFrom(t, e, {id}, m);
      case Leave(_, _, _) => LeftComesFrom(t, e, m);
      case Remove(chat, _) => KeptComesFrom(t, e, ChatIds(t, chat), m);
      case Sweep(at) => KeptComesFrom(t, e, ExpiredIds(t, at), m);
      case _ => SameComesFrom(t, e, m);
    }
  }

  lemma RetiredComesFrom(t: Tables, e: Event, id: nat, m: Message)
    requires e.Retire? && m in Retired(t.messages, id)
    ensures ComesFrom(t, e, m)
  {
    RetiredRows(t.messages, id);
    var i :| 0 <= i < |t.messages| && Retired(t.messages, id)[i] == m;
    assert t.messages[i] in t.messages && Continues(t, e, t.messages[i], m);
  }

  /** A stored state only moves forwards, and a row keeps its content. */
  lemma StatusOnlyAdvances(t: Tables, e: Event, o: Message, m: Message)
    requires Sound(t) && o in t.messages && m in Apply(t, e).messages && m.id == o.id
    ensures Level(m.status) >= Level(o.status)
    ensures m == o.(status := m.status, softDeleted := m.softDeleted, replyTo := m.replyTo)
  {
    SameRowContinues(t, e, o, m);
    StatusRises(t, e, o);
  }

  lemma SameRowContinues(t: Tables, e: Event, o: Message, m: Message)
    requires Sound(t) && o in t.messages && m in Apply(t, e).messages && m.id == o.id
    ensures Continues(t, e, o, m)
  {
    RowsAfter(t, e, m);
    assert RowSound(t, o);
    var p :| p in t.messages && Continues(t, e, p, m);
    OneRowPerId(t.messages, o, p);
  }

  lemma StatusRises(t: Tables, e: Event, o: Message)
    ensures Level(StatusAfter(t, e, o)) >= Level(o.status)
  {
  }

  // ------------------------------------------------------- what a state is evidence of

  /** A member other than the sender opens the chat while the message is in it. */
  ghost predicate Opens(t: Tables, e: Event, id: nat) {
    e.Look? && (e.chat, e.user) in t.members &&
    exists m :: m in t.messages && m.id == id && m.chat == e.chat && FromOther(m, e.user) && !(e.fetch && m.softDeleted)
  }

  /** The message reaches a connected member other than the sender. */
  ghost predicate Reaches(t: Tables, e: Event, id: nat) {
    || (e.Reach? && e.id == id && id < t.nextId)
    || (e.Connect? && exists m :: m in t.messages && m.id == id && (m.chat, e.user) in t.members && FromOther(m, e.user))
  }

  ghost predicate Raises(t: Tables, e: Event, id: nat, level: nat) {
    Opens(t, e, id) || (level <= 1 && Reaches(t, e, id))
  }

  ghost predicate WasRaised(es: seq<Event>, id: nat, level: nat) {
    es != [] && (WasRaised(Init(es), id, level) || Raises(Run(Init(es)), Last(es), id, level))
  }

  ghost predicate Announces(t: Tables, e: Event, id: nat) {
    e.Notice? && e.chat in t.chats && id == t.nextId
  }

  /** The id belongs to one of the server's own notices. */
  ghost predicate WasAnnounced(es: seq<Event>, id: nat) {
    es != [] && (WasAnnounced(Init(es), id) || Announces(Run(Init(es)), Last(es), id))
  }

  /** The run holds evidence that the message got as far as `level`. */
  ghost predicate Evidence(es: seq<Event>, id: nat, level: nat) {
    level == 0 || WasAnnounced(es, id) || WasRaised(es, id, level)
  }

  lemma RaisedRowLevel(t: Tables, e: Event, o: Message, level: nat)
    requires Sound(t) && o in t.messages && 0 < level <= 2
    ensures Level(StatusAfter(t, e, o)) >= level <==> Level(o.status) >= level || Raises(t, e, o.id, level)
  {
    assert RowSound(t, o);
    if e.Look? && Opens(t, e, o.id) {
      var m :| m in t.messages && m.id == o.id && m.chat == e.chat && FromOther(m, e.user) && !(e.fetch && m.softDeleted);
      OneRowPerId(t.messages, o, m);
    }
    if e.Connect? && Reaches(t, e, o.id) {
      var m :| m in t.messages && m.id == o.id && (m.chat, e.user) in t.members && FromOther(m, e.user);
      OneRowPerId(t.messages, o, m);
    }
  }

  lemma NextIdGrows(t: Tables, e: Event)
    ensures t.nextId <= Apply(t, e).nextId
  {
  }

  lemma RaisesOnlyKnown(t: Tables, e: Event, id: nat, level: nat)
    requires Sound(t) && Raises(t, e, id, level)
    ensures id < t.nextId
  {
    assert forall m :: m in t.messages ==> RowSound(t, m);
  }

  /** Nothing happens to an id before it is given to a message. */
  lemma {:induction false} EvidenceIsLater(es: seq<Event>, id: nat, level: nat)
    requires WasRaised(es, id, level) || WasAnnounced(es, id)
    ensures id < Run(es).nextId
  {
    var t := Run(Init(es));
    RunKeepsSound(Init(es));
    NextIdGrows(t, Last(es));
    if WasRaised(Init(es), id, level) || WasAnnounced(Init(es), id) {
      EvidenceIsLater(Init(es), id, level);
    } else if Raises(t, Last(es), id, level) {
      RaisesOnlyKnown(t, Last(es), id, level);
    }
  }

  ghost predicate Exact(es: seq<Event>, m: Message, level: nat) {
    && (Level(m.status) >= level <==> Evidence(es, m.id, level))
    && (m.kind == System <==> WasAnnounced(es, m.id))
  }

  /** A stored state says exactly what has happened: a message has reached a level if and
      only if it is a notice of the server's or some event of the run raised it there. */
  lemma {:induction false} StatusExactly(es: seq<Event>, m: Message, level: nat)
    requires m in Run(es).messages && level <= 2
    ensures Exact(es, m, level)
  {
    var t, e := Run(Init(es)), Last(es);
    RunKeepsSound(Init(es));
    RowsAfter(t, e, m);
    if ComesFrom(t, e, m) {
      var o :| o in t.messages && Continues(t, e, o, m);
      StatusExactly(Init(es), o, level);
      assert RowSound(t, o);
      if level > 0 {
        RaisedRowLevel(t, e, o, level);
      }
    } else {
      FreshIsExact(es, m, level);
    }
  }

  lemma FreshIsNotOld(t: Tables, m: Message)
    requires Sound(t) && m.id == t.nextId
    ensures m !in t.messages
  {
    assert forall o :: o in t.messages ==> RowSound(t, o);
  }

  lemma NoEvidenceYet(es: seq<Event>, id: nat, level: nat)
    requires es != [] && id == Run(Init(es)).nextId
    ensures WasAnnounced(es, id) <==> Announces(Run(Init(es)), Last(es), id)
    ensures !WasRaised(es, id, level)
  {
    RunKeepsSound(Init(es));
    if WasRaised(Init(es), id, level) || WasAnnounced(Init(es), id) {
      EvidenceIsLater(Init(es), id, level);
    }
    if Raises(Run(Init(es)), Last(es), id, level) {
      RaisesOnlyKnown(Run(Init(es)), Last(es), id, level);
    }
  }

  lemma FreshIsExact(es: seq<Event>, m: Message, level: nat)
    requires es != [] && Fresh(Run(Init(es)), Last(es), m) && m in Run(es).messages && level <= 2
    ensures Exact(es, m, level)
  {
    RunKeepsSound(Init(es));
    FreshIsNotOld(Run(Init(es)), m);
    NoEvidenceYet(es, m.id, level);
    FreshNoticeIsAnnounced(Run(Init(es)), Last(es), m);
  }

  lemma FreshNoticeIsAnnounced(t: Tables, e: Event, m: Message)
    requires Fresh(t, e, m) && m in Apply(t, e).messages && m !in t.messages
    ensures Announces(t, e, m.id) <==> e.Notice?
  {
  }

  ghost predicate RaisedAt(es: seq<Event>, i: nat, id: nat, level: nat)
    requires i < |es|
  {
    Raises(Run(es[..i]), es[i], id, level)
  }

  lemma RaisedAtStays(es: seq<Event>, i: nat, id: nat, level: nat)
    requires i < |es| - 1
    ensures RaisedAt(Init(es), i, id, level) == RaisedAt(es, i, id, level)
  {
    assert Init(es)[..i] == es[..i];
  }

  lemma RaisedAtLast(es: seq<Event>, id: nat, level: nat)
    requires es != []
    ensures RaisedAt(es, |es| - 1, id, level) == Raises(Run(Init(es)), Last(es), id, level)
  {
    assert es[..|es| - 1] == Init(es);
  }

  lemma {:induction false} RaisedAtMeansRaised(es: seq<Event>, i: nat, id: nat, level: nat)
    requires i < |es| && RaisedAt(es, i, id, level)
    ensures WasRaised(es, id, level)
  {
    if i == |es| - 1 {
      RaisedAtLast(es, id, level);
    } else {
      RaisedAtStays(es, i, id, level);
      RaisedAtMeansRaised(Init(es), i, id, level);
    }
  }

  lemma {:induction false} RaisedMeansRaisedAt(es: seq<Event>, id: nat, level: nat) returns (i: nat)
    requires WasRaised(es, id, level)
    ensures i < |es| && RaisedAt(es, i, id, level)
  {
    if WasRaised(Init(es), id, level) {
      i := RaisedMeansRaisedAt(Init(es), id, level);
      RaisedAtStays(es, i, id, level);
    } else {
      i := |es| - 1;
      RaisedAtLast(es, id, level);
    }
  }

  /** At this step of the run a member other than the sender opened the chat with the message in it. */
  ghost predicate OpenedAt(es: seq<Event>, i: nat, id: nat)
    requires i < |es|
  {
    Opens(Run(es[..i]), es[i], id)
  }

  lemma RaisedToSeenAt(es: seq<Event>, i: nat, id: nat)
    requires i < |es|
    ensures RaisedAt(es, i, id, 2) <==> OpenedAt(es, i, id)
  {
  }

  lemma SeenWasOpened(es: seq<Event>, id: nat)
    ensures WasRaised(es, id, 2) <==> exists i :: 0 <= i < |es| && OpenedAt(es, i, id)
  {
    if WasRaised(es, id, 2) {
      var i := RaisedMeansRaisedAt(es, id, 2);
      RaisedToSeenAt(es, i, id);
    }
    if i :| 0 <= i < |es| && OpenedAt(es, i, id) {
      RaisedToSeenAt(es, i, id);
      RaisedAtMeansRaised(es, i, id, 2);
    }
  }

  /** A message between people is stored as seen if and only if, at some step of the run, a
      member of its chat other than its sender opened the chat with the message in it. */
  lemma SeenMeansOpened(es: seq<Event>, m: Message)
    requires m in Run(es).messages && m.kind != System
    ensures m.status == Seen <==> exists i :: 0 <= i < |es| && OpenedAt(es, i, m.id)
  {
    StatusExactly(es, m, 2);
    SeenWasOpened(es, m.id);
  }

  // ------------------------------------------------------- who it was delivered to

  /** The users with a connection. */
  function OnlineAfter(es: seq<Event>): set<User> {
    if es == [] then {} else
      match Last(es)
      case Online(user, _) => OnlineAfter(Init(es)) + {user}
      case Offline(user, _) => OnlineAfter(Init(es)) - {user}
      case _ => OnlineAfter(Init(es))
  }

  ghost predicate Posts(t: Tables, e: Event, id: nat, user: User) {
    e.Post? && id == t.nextId && user in e.to && user != e.draft.from
  }

  /** The message was posted to this user by somebody else. */
  ghost predicate PostedTo(es: seq<Event>, id: nat, user: User) {
    es != [] && (PostedTo(Init(es), id, user) || Posts(Run(Init(es)), Last(es), id, user))
  }

  /** The handler's guard: a recipient other than the sender is online. */
  ghost predicate Guarded(es: seq<Event>) {
    es != [] ==>
      Guarded(Init(es)) &&
      (Last(es).Reach? ==> Last(es).user in OnlineAfter(Init(es)) && PostedTo(Init(es), Last(es).id, Last(es).user))
  }

  lemma {:induction false} PostedIsKnown(es: seq<Event>, id: nat, user: User)
    requires PostedTo(es, id, user)
    ensures id < Run(es).nextId
  {
    NextIdGrows(Run(Init(es)), Last(es));
    if PostedTo(Init(es), id, user) {
      PostedIsKnown(Init(es), id, user);
    }
  }

  lemma {:induction false} PostedIsFromOther(es: seq<Event>, m: Message, user: User)
    requires m in Run(es).messages && PostedTo(es, m.id, user)
    ensures FromOther(m, user)
  {
    var t, e := Run(Init(es)), Last(es);
    RunKeepsSound(Init(es));
    RowsAfter(t, e, m);
    if PostedTo(Init(es), m.id, user) {
      PostedIsKnown(Init(es), m.id, user);
      var o :| o in t.messages && Continues(t, e, o, m);
      PostedIsFromOther(Init(es), o, user);
    } else {
      assert forall o :: o in t.messages ==> RowSound(t, o);
    }
  }

  /** What can make a message delivered: at this step of the run a user other than its sender,
      to whom it was posted, is online; or a member other than its sender comes online; or
      one opens the chat. */
  ghost predicate DeliveredAt(es: seq<Event>, i: nat, m: Message)
    requires i < |es|
  {
    var t, e := Run(es[..i]), es[i];
    || Opens(t, e, m.id)
    || (Reaches(t, e, m.id) && e.Connect?)
    || (e.Reach? && e.id == m.id && e.user in OnlineAfter(es[..i]) && PostedTo(es[..i], m.id, e.user) && FromOther(m, e.user))
  }

  lemma {:induction false} GuardedAt(es: seq<Event>, i: nat)
    requires i < |es| && Guarded(es) && es[i].Reach?
    ensures es[i].user in OnlineAfter(es[..i]) && PostedTo(es[..i], es[i].id, es[i].user)
  {
    if i < |es| - 1 {
      assert Init(es)[..i] == es[..i];
      GuardedAt(Init(es), i);
    } else {
      assert es[..i] == Init(es);
    }
  }

  lemma {:induction false} PostedBefore(es: seq<Event>, i: nat, id: nat, user: User)
    requires i <= |es| && PostedTo(es[..i], id, user)
    ensures PostedTo(es, id, user)
  {
    if i < |es| {
      assert Init(es)[..i] == es[..i];
      PostedBefore(Init(es), i, id, user);
    } else {
      assert es[..i] == es;
    }
  }

  lemma RaisedIsDelivered(es: seq<Event>, i: nat, m: Message)
    requires i < |es| && Guarded(es) && m in Run(es).messages && RaisedAt(es, i, m.id, 1)
    ensures DeliveredAt(es, i, m)
  {
    if es[i].Reach? {
      GuardedAt(es, i);
      PostedBefore(es, i, es[i].id, es[i].user);
      PostedIsFromOther(es, m, es[i].user);
    }
  }

  lemma DeliveredIsRaised(es: seq<Event>, i: nat, m: Message)
    requires i < |es| && DeliveredAt(es, i, m)
    ensures RaisedAt(es, i, m.id, 1)
  {
    if es[i].Reach? {
      PostedIsKnown(es[..i], m.id, es[i].user);
    }
  }

  /** A message between people is stored as delivered, or more, if and only if it got to
      somebody other than its sender: one who was online when it was posted, one who came
      online later, or one who opened the chat. */
  lemma DeliveredMeansReached(es: seq<Event>, m: Message)
    requires Guarded(es) && m in Run(es).messages && m.kind != System
    ensures m.status != Sent <==> exists i :: 0 <= i < |es| && DeliveredAt(es, i, m)
  {
    StatusExactly(es, m, 1);
    if m.status != Sent {
      var i := RaisedMeansRaisedAt(es, m.id, 1);
      RaisedIsDelivered(es, i, m);
    }
    if i: nat :| i < |es| && DeliveredAt(es, i, m) {
      DeliveredIsRaised(es, i, m);
      RaisedAtMeansRaised(es, i, m.id, 1);
    }
  }

  // -------------------------------------------------------------- screens

  type Device = nat

  /** What the server sends; nothing is ever taken out of the network, so everything can
      arrive late, twice and in any order. */
  datatype Packet =
    | Copy(wire: Screen.Wire)
    | News(ids: set<int>, status: string)

  datatype World = World(log: seq<Event>, network: set<Packet>, screens: map<Device, Screen.View>)

  function ScreenOf(w: World, device: Device): Screen.View {
    if device in w.screens then w.screens[device] else Screen.CLOSED
  }

  datatype Move =
    | Serve(statement: Event, sent: set<Packet>)      // one statement, and what its handler sends for it
    | Fetch(sent: set<Packet>)                     // GetMessages reads its rows
    | Show(device: Device, event: Screen.Event)

  function Name(status: Status): string {
    match status
    case Sent => "sent"
    case Delivered => "delivered"
    case Seen => "seen"
  }

  /** handleIncoming, BroadcastMedia and the notices send a copy, MarkDelivered and
      markSeen, chat by chat, the ids that their update returned. */
  ghost predicate Sends(t: Tables, e: Event, p: Packet) {
    match e
    case Post(_, _, _, _) => p.Copy? && p.wire.id == t.nextId && p.wire.status == Some("sent")
    case Attach(_, _, _, _) => p.Copy? && p.wire.id == t.nextId && p.wire.status == Some("sent")
    case Notice(chat, _, _) => chat in t.chats && p.Copy? && p.wire.id == t.nextId && p.wire.status == Some("seen")
    case Reach(id, _, _) => id < t.nextId && p.Copy? && p.wire.id == id && p.wire.status == Some("delivered")
    case Connect(user, _) =>
      p.News? && p.status == "delivered" &&
      p.ids <= set m | m in t.messages && Undelivered(t.members, user)(m) :: m.id as int
    case Look(chat, user, fetch, _) =>
      (chat, user) in t.members && p.News? && p.status == "seen" &&
      p.ids <= set m | m in t.messages && Unseen(chat, user, fetch)(m) :: m.id as int
    case _ => false
  }

  ghost predicate Reads(t: Tables, p: Packet) {
    p.Copy? && exists m :: m in t.messages && p.wire.id == m.id && p.wire.status == Some(Name(m.status))
  }

  ghost predicate Arrives(network: set<Packet>, e: Screen.Event) {
    match e
    case Loaded(_, batch) => forall c :: c in batch ==> Copy(c) in network
    case Live(_, msg, _) => Copy(msg) in network
    case StatusEvent(_, ids, next) => next.Some? && News(ids, next.value) in network
    case _ => true
  }

  ghost predicate Possible(w: World, move: Move) {
    match move
    case Serve(e, sent) => forall p :: p in sent ==> Sends(Run(w.log), e, p)
    case Fetch(sent) => forall p :: p in sent ==> Reads(Run(w.log), p)
    case Show(device, e) => Screen.Enabled(ScreenOf(w, device), e) && Arrives(w.network, e)
  }

  function Moved(w: World, move: Move): World {
    match move
    case Serve(e, sent) => w.(log := w.log + [e], network := w.network + sent)
    case Fetch(sent) => w.(network := w.network + sent)
    case Show(device, e) => w.(screens := w.screens[device := Screen.Step(ScreenOf(w, device), e)])
  }

  function Play(moves: seq<Move>): World {
    if moves == [] then World([], {}, map[]) else Moved(Play(Init(moves)), Last(moves))
  }

  ghost predicate Fair(moves: seq<Move>) {
    moves != [] ==> Fair(Init(moves)) && Possible(Play(Init(moves)), Last(moves))
  }

  // ------------------------------------------------------------- never ahead

  ghost predicate Backed(es: seq<Event>, id: int, status: Option<string>) {
    id >= 0 ==> Evidence(es, id, Screen.Rank(status))
  }

  ghost predicate PacketBacked(es: seq<Event>, p: Packet) {
    match p
    case Copy(wire) => Backed(es, wire.id, wire.status)
    case News(ids, status) => forall id :: id in ids ==> Backed(es, id, Some(status))
  }

  ghost predicate ListBacked(es: seq<Event>, list: Screen.List) {
    forall m :: m in list && m.id < Screen.CLIENT_ID_BASE ==> Backed(es, m.id, m.status)
  }

  /** Temporary bubbles have nothing stored to be ahead of; all of them began as sent. */
  ghost predicate ScreenBacked(es: seq<Event>, v: Screen.View) {
    && ListBacked(es, v.list) && Screen.Inv(v)
    && (forall u :: u in v.uploads ==> v.uploads[u].bubble.status == Some("sent"))
    && (forall x :: x in v.rendering ==> Backed(es, x.msg.id, x.msg.status))
  }

  ghost predicate AllBacked(w: World) {
    && (forall p :: p in w.network ==> PacketBacked(w.log, p))
    && (forall d :: d in w.screens ==> ScreenBacked(w.log, w.screens[d]))
  }

  lemma EvidenceStays(es: seq<Event>, e: Event)
    ensures forall id: int, status :: Backed(es, id, status) ==> Backed(es + [e], id, status)
  {
    assert Init(es + [e]) == es;
  }

  lemma RaisedIsBacked(es: seq<Event>, e: Event, id: nat, status: string)
    requires Raises(Run(es), e, id, Screen.Rank(Some(status)))
    ensures Backed(es + [e], id, Some(status))
  {
    assert Init(es + [e]) == es;
  }

  lemma NewsIsBacked(w: World, e: Event, ids: set<int>, status: string)
    requires Sends(Run(w.log), e, News(ids, status))
    ensures PacketBacked(w.log + [e], News(ids, status))
  {
    var t := Run(w.log);
    forall id | id in ids
      ensures Backed(w.log + [e], id, Some(status))
    {
      var m :| m in t.messages && m.id == id &&
        (if e.Connect? then Undelivered(t.members, e.user)(m) else e.Look? && Unseen(e.chat, e.user, e.fetch)(m));
      RaisedIsBacked(w.log, e, m.id, status);
    }
  }

  lemma CopyIsBacked(w: World, e: Event, wire: Screen.Wire)
    requires Sends(Run(w.log), e, Copy(wire))
    ensures PacketBacked(w.log + [e], Copy(wire))
  {
    assert Init(w.log + [e]) == w.log;
    if e.Reach? {
      RaisedIsBacked(w.log, e, e.id, "delivered");
    }
  }

  lemma SentIsBacked(w: World, e: Event, p: Packet)
    requires Sends(Run(w.log), e, p)
    ensures PacketBacked(w.log + [e], p)
  {
    match p
    case Copy(wire) => CopyIsBacked(w, e, wire);
    case News(ids, status) => NewsIsBacked(w, e, ids, status);
  }

  lemma ReadIsBacked(w: World, p: Packet)
    requires Reads(Run(w.log), p)
    ensures PacketBacked(w.log, p)
  {
    var m :| m in Run(w.log).messages && p.wire.id == m.id && p.wire.status == Some(Name(m.status));
    StatusExactly(w.log, m, Level(m.status));
  }

  lemma {:induction false} UpsertAllBacked(es: seq<Event>, list: Screen.List, batch: seq<Screen.Wire>)
    requires ListBacked(es, list) && forall c :: c in batch ==> Backed(es, c.id, c.status)
    ensures ListBacked(es, Screen.UpsertAll(list, batch))
  {
    if batch != [] {
      assert batch == Init(batch) + [Last(batch)];
      UpsertAllBacked(es, list, Init(batch));
    }
  }

  lemma MergeBacked(es: seq<Event>, list: Screen.List, batch: seq<Screen.Wire>)
    requires Screen.UniqueIds(list) && ListBacked(es, list) && forall c :: c in batch ==> Backed(es, c.id, c.status)
    ensures ListBacked(es, Screen.Merge(list, batch))
  {
    UpsertAllBacked(es, list, batch);
    Screen.UpsertAllIds(list, batch);
    Screen.SortAscends(Screen.UpsertAll(list, batch));
  }

  lemma AdvanceBacked(es: seq<Event>, list: Screen.List, ids: set<int>, next: Option<string>)
    requires ListBacked(es, list) && forall id :: id in ids ==> Backed(es, id, next)
    ensures ListBacked(es, Screen.Advance(list, ids, next))
  {
    var r := Screen.Advance(list, ids, next);
    forall m | m in r && m.id < Screen.CLIENT_ID_BASE
      ensures Backed(es, m.id, m.status)
    {
      var i :| 0 <= i < |r| && r[i] == m;
      assert list[i] in list;
      Screen.AdvanceIsMaximum(list[i].status, next, next);
    }
  }

  lemma LocalBacked(es: seq<Event>, list: Screen.List, id: int, local: Screen.Local -> Screen.Local)
    requires ListBacked(es, list)
    ensures ListBacked(es, Screen.WithLocal(list, id, local))
  {
    var r := Screen.WithLocal(list, id, local);
    forall m | m in r && m.id < Screen.CLIENT_ID_BASE
      ensures Backed(es, m.id, m.status)
    {
      var i :| 0 <= i < |r| && r[i] == m;
      assert list[i] in list;
    }
  }

  lemma DropBacked(es: seq<Event>, list: Screen.List, ids: set<int>)
    requires Screen.Ascending(list) && ListBacked(es, list)
    ensures ListBacked(es, Screen.Drop(list, ids))
  {
    Screen.DropIds(list, ids);
  }

  lemma SettleBacked(es: seq<Event>, list: Screen.List, temp: int, optimistic: Screen.Message, id: int)
    requires Screen.Ascending(list) && ListBacked(es, list) && optimistic.status == Some("sent") && id != temp
    ensures ListBacked(es, Screen.Settle(list, temp, optimistic, id))
  {
    Screen.DropIds(list, {temp});
    var rest := Screen.Drop(list, {temp});
    var l := optimistic.local;
    if Screen.At(rest, id) < |rest| {
      var f := (was: Screen.Local) => if was.url.None? then was.(url := l.url) else was;
      LocalBacked(es, rest, id, f);
      Screen.WithLocalIds(rest, id, f);
      Screen.SortAscends(Screen.WithLocal(rest, id, f));
    } else {
      var m := optimistic.(id := id, local := Screen.Local(false, false, 100, l.url, None));
      AppendBacked(es, rest, m);
    }
  }

  lemma AppendBacked(es: seq<Event>, list: Screen.List, m: Screen.Message)
    requires Screen.Ascending(list) && ListBacked(es, list) && m.status == Some("sent")
    requires forall i :: 0 <= i < |list| ==> list[i].id != m.id
    ensures ListBacked(es, Screen.Sort(list + [m]))
  {
    Screen.SortAscends(list + [m]);
  }

  lemma BeginBacked(es: seq<Event>, v: Screen.View, file: Screen.File, preview: Option<string>)
    requires Screen.Ascending(v.list) && ListBacked(es, v.list)
    requires forall id :: id in Screen.Ids(v.list) ==> id < Screen.CLIENT_ID_BASE + v.counter
    ensures ListBacked(es, Screen.Begin(v, file, preview).list)
  {
    assert forall i :: 0 <= i < |v.list| ==> v.list[i].id in Screen.Ids(v.list);
    AppendBacked(es, v.list, Screen.Bubble(v, file, preview));
  }

  lemma ShownBacked(w: World, v: Screen.View, e: Screen.Event)
    requires forall p :: p in w.network ==> PacketBacked(w.log, p)
    requires ScreenBacked(w.log, v) && Screen.Enabled(v, e) && Arrives(w.network, e)
    ensures ListBacked(w.log, Screen.Step(v, e).list)
  {
    match e
    case Loaded(_, batch) =>
      assert forall c :: c in batch ==> PacketBacked(w.log, Copy(c));
      MergeBacked(w.log, v.list, batch);
    case Live(_, _, _) =>
    case Rendered(chat, msg) =>
      assert Screen.Rendering(chat, msg) in v.rendering;
      MergeBacked(w.log, v.list, [msg]);
    case StatusEvent(_, ids, next) =>
      assert PacketBacked(w.log, News(ids, next.value));
      AdvanceBacked(w.log, v.list, ids, next);
    case Deleted(_, ids) => DropBacked(w.log, v.list, ids);
    case Upload(file, preview) => BeginBacked(w.log, v, file, preview);
    case Progress(temp, p) => LocalBacked(w.log, v.list, temp, (l: Screen.Local) => l.(progress := p));
    case UploadDone(temp, id) => SettleBacked(w.log, v.list, temp, v.uploads[temp].bubble, id);
    case UploadFailed(temp) =>
      LocalBacked(w.log, v.list, temp, (l: Screen.Local) => l.(pending := false, failed := true));
    case Retry(temp, file, preview) =>
      DropBacked(w.log, v.list, {temp});
      Screen.DropIds(v.list, {temp});
      BeginBacked(w.log, v.(list := Screen.Drop(v.list, {temp})), file, preview);
    case Switch(_) =>
  }

  lemma RenderingStaysBacked(w: World, v: Screen.View, e: Screen.Event)
    requires forall p :: p in w.network ==> PacketBacked(w.log, p)
    requires ScreenBacked(w.log, v) && Arrives(w.network, e)
    ensures forall x :: x in Screen.Step(v, e).rendering ==> Backed(w.log, x.msg.id, x.msg.status)
  {
    if e.Live? {
      assert PacketBacked(w.log, Copy(e.msg));
    }
  }

  lemma UploadsBeginAsSent(v: Screen.View, e: Screen.Event)
    requires forall u :: u in v.uploads ==> v.uploads[u].bubble.status == Some("sent")
    ensures forall u :: u in Screen.Step(v, e).uploads ==> Screen.Step(v, e).uploads[u].bubble.status == Some("sent")
  {
  }

  lemma MoveKeepsBacked(w: World, move: Move)
    requires AllBacked(w) && Possible(w, move)
    ensures AllBacked(Moved(w, move))
  {
    match move
    case Serve(e, sent) =>
      EvidenceStays(w.log, e);
      forall p | p in sent
        ensures PacketBacked(w.log + [e], p)
      {
        SentIsBacked(w, e, p);
      }
    case Fetch(sent) =>
      forall p | p in sent
        ensures PacketBacked(w.log, p)
      {
        ReadIsBacked(w, p);
      }
    case Show(device, e) => ShowKeepsBacked(w, ScreenOf(w, device), e);
  }

  lemma ShowKeepsBacked(w: World, v: Screen.View, e: Screen.Event)
    requires forall p :: p in w.network ==> PacketBacked(w.log, p)
    requires ScreenBacked(w.log, v) && Screen.Enabled(v, e) && Arrives(w.network, e)
    ensures ScreenBacked(w.log, Screen.Step(v, e))
  {
    ShownBacked(w, v, e);
    UploadsBeginAsSent(v, e);
    RenderingStaysBacked(w, v, e);
    Screen.StepKeepsInv(v, e);
  }

  lemma {:induction false} PlayKeepsBacked(moves: seq<Move>)
    requires Fair(moves)
    ensures AllBacked(Play(moves))
  {
    if moves != [] {
      PlayKeepsBacked(Init(moves));
      MoveKeepsBacked(Play(Init(moves)), Last(moves));
    }
  }

  lemma ShownIsBacked(moves: seq<Move>, device: Device, shown: Screen.Message)
    requires Fair(moves) && device in Play(moves).screens
    requires shown in Play(moves).screens[device].list && shown.id < Screen.CLIENT_ID_BASE
    ensures Backed(Play(moves).log, shown.id, shown.status)
  {
    PlayKeepsBacked(moves);
    assert ScreenBacked(Play(moves).log, Play(moves).screens[device]);
  }

  lemma BackedIsStored(es: seq<Event>, stored: Message, status: Option<string>)
    requires stored in Run(es).messages && Backed(es, stored.id, status)
    ensures Screen.Rank(status) <= Level(stored.status)
  {
    StatusExactly(es, stored, Screen.Rank(status));
  }

  /** However copies and status events are delayed, repeated and reordered, no screen shows
      a message ahead of the state that is stored for it. */
  lemma NeverAhead(moves: seq<Move>, device: Device, shown: Screen.Message, stored: Message)
    requires Fair(moves) && device in Play(moves).screens
    requires shown in Play(moves).screens[device].list && stored in Run(Play(moves).log).messages
    requires shown.id == stored.id < Screen.CLIENT_ID_BASE
    ensures Screen.Rank(shown.status) <= Level(stored.status)
  {
    ShownIsBacked(moves, device, shown);
    BackedIsStored(Play(moves).log, stored, shown.status);
  }

  /** A screen shows "seen" only on the server's notices and on messages that a member other
      than the sender opened, even when the message has been deleted since. */
  lemma NoFalseReceipt(moves: seq<Move>, device: Device, shown: Screen.Message)
    requires Fair(moves) && device in Play(moves).screens
    requires shown in Play(moves).screens[device].list && shown.status == Some("seen")
    requires 0 <= shown.id < Screen.CLIENT_ID_BASE
    ensures var es := Play(moves).log;
      WasAnnounced(es, shown.id) || exists i :: 0 <= i < |es| && OpenedAt(es, i, shown.id)
  {
    ShownIsBacked(moves, device, shown);
    SeenWasOpened(Play(moves).log, shown.id);
  }
}
