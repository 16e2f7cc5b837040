/** The multi-replica hub with Redis up (`hub.go`, `pubsub.go`, `client.go`).

    Redis executes commands one at a time, and delivers what is published to every
    subscribed replica in the order of publication. Between a replica's steps anything may
    happen: registering and unregistering are each two steps, and delivering one envelope is
    a snapshot of the user's connections followed by one attempt per connection. */
module HubProtocol {
  import opened Common

  type User = string
  type ConnId = nat
  type Replica = nat

  const SEND_BUFFER: nat := 64

  /** What a connection's buffer can hold: the k-th published envelope, or a pong. */
  datatype Item = Event(k: nat) | Pong

  datatype Conn = Conn(
    user: User, replica: Replica,
    since: nat,             // the first envelope taken up after it was registered
    queued: seq<Item>,      // everything ever queued, in order
    drained: nat,           // how many of them the writer has taken
    done: bool)

  /** Delivering one envelope: the connections of the snapshot still to be tried. */
  datatype Fanout = Quiet | Sending(waiting: set<ConnId>)

  /** A replica's subscription: the next envelope it will take up, and the one in progress. */
  datatype Sub = Sub(next: nat, fanout: Fanout)

  datatype State = State(
    published: seq<User>,                   // whom each envelope is addressed to
    subs: map<Replica, Sub>,
    conns: map<ConnId, Conn>,
    clients: set<ConnId>,                   // connections in their replica's client map
    presence: set<(User, ConnId)>,          // the presence sets in Redis
    added: set<ConnId>,                     // whose presence was recorded
    removed: set<ConnId>)                   // whose presence was then withdrawn

  datatype Action =
    | Join(r: Replica)
    | Publish(user: User)
    | Register(r: Replica, c: ConnId, user: User)   // into the client map
    | MarkOnline(c: ConnId)
    | Unregister(c: ConnId)                         // out of the client map
    | MarkOffline(c: ConnId)
    | Close(c: ConnId)
    | TakeUp(r: Replica)
    | Try(r: Replica, c: ConnId)
    | FinishFanout(r: Replica)
    | SendPong(c: ConnId)
    | Drain(c: ConnId)

  /** trySend: nothing once done; a full buffer closes the connection. */
  function TrySend(c: Conn, item: Item): Conn {
    if c.done then c
    else if |c.queued| - c.drained >= SEND_BUFFER then c.(done := true)
    else c.(queued := c.queued + [item])
  }

  /** The connections of a user that a replica knows. */
  function ConnsOf(s: State, r: Replica, user: User): set<ConnId> {
    set c | c in s.clients && c in s.conns && s.conns[c].replica == r && s.conns[c].user == user
  }

  function PresenceSet(s: State, user: User): set<ConnId> {
    set m | m in s.presence && m.0 == user :: m.1
  }

  predicate IsOnline(s: State, user: User) { |PresenceSet(s, user)| > 0 }

  /** A connection's read loop, which unregisters it, starts when Register has returned. */
  predicate Enabled(s: State, a: Action) {
    match a
    case Join(r) => r !in s.subs
    case Publish(_) => true
    case Register(r, c, _) => r in s.subs && c !in s.conns
    case MarkOnline(c) => c in s.conns && c !in s.added
    case Unregister(c) => c in s.clients && c in s.added
    case MarkOffline(c) => c in s.conns && c !in s.clients && c in s.added && c !in s.removed
    case Close(c) => c in s.conns
    case TakeUp(r) => r in s.subs && s.subs[r].fanout.Quiet? && s.subs[r].next < |s.published|
    case Try(r, c) => r in s.subs && s.subs[r].fanout.Sending? && c in s.subs[r].fanout.waiting && c in s.conns
                      && s.subs[r].next > 0
    case FinishFanout(r) => r in s.subs && s.subs[r].fanout.Sending? && s.subs[r].fanout.waiting == {}
    case SendPong(c) => c in s.conns
    case Drain(c) => c in s.conns && s.conns[c].drained < |s.conns[c].queued|
  }

  function Step(s: State, a: Action): State {
    if !Enabled(s, a) then s else
      match a
      case Join(r) => s.(subs := s.subs[r := Sub(|s.published|, Quiet)])
      case Publish(u) => s.(published := s.published + [u])
      case Register(r, c, u) =>
        s.(conns := s.conns[c := Conn(u, r, s.subs[r].next, [], 0, false)], clients := s.clients + {c})
      case MarkOnline(c) => s.(presence := s.presence + {(s.conns[c].user, c)}, added := s.added + {c})
      case Unregister(c) => s.(clients := s.clients - {c})
      case MarkOffline(c) => s.(presence := s.presence - {(s.conns[c].user, c)}, removed := s.removed + {c})
      case Close(c) => s.(conns := s.conns[c := s.conns[c].(done := true)])
      case TakeUp(r) =>
        var k := s.subs[r].next;
        s.(subs := s.subs[r := Sub(k + 1, Sending(ConnsOf(s, r, s.published[k])))])
      case Try(r, c) =>
        s.(subs := s.subs[r := s.subs[r].(fanout := Sending(s.subs[r].fanout.waiting - {c}))],
           conns := s.conns[c := TrySend(s.conns[c], Event(s.subs[r].next - 1))])
      case FinishFanout(r) => s.(subs := s.subs[r := s.subs[r].(fanout := Quiet)])
      case SendPong(c) => s.(conns := s.conns[c := TrySend(s.conns[c], Pong)])
      case Drain(c) => s.(conns := s.conns[c := s.conns[c].(drained := s.conns[c].drained + 1)])
  }

  const EMPTY := State([], map[], map[], {}, {}, {}, {})

  function Run(as_: seq<Action>): State {
    if as_ == [] then EMPTY else Step(Run(Init(as_)), Last(as_))
  }

  // --------------------------------------------------------- publication order

  /** The envelopes among `i..j` addressed to a user, in publication order. */
  function Addressed(published: seq<User>, user: User, i: nat, j: nat): seq<nat>
    requires j <= |published|
    decreases j
  {
    if j <= i then [] else
      Addressed(published, user, i, j - 1) + if published[j - 1] == user then [j - 1] else []
  }

  /** The envelopes ever queued on a connection, pongs aside. */
  function Events(queued: seq<Item>): seq<nat> {
    if queued == [] then [] else
      Events(Init(queued)) + if Last(queued).Event? then [Last(queued).k] else []
  }

  lemma {:induction false} AddressedGrows(published: seq<User>, more: User, user: User, i: nat, j: nat)
    requires j <= |published|
    ensures Addressed(published + [more], user, i, j) == Addressed(published, user, i, j)
    decreases j
  {
    if j > i {
      AddressedGrows(published, more, user, i, j - 1);
    }
  }

  /** How far a connection's replica has got with it: past every envelope it has taken up,
      save the one in progress while the connection still waits its turn. */
  function Frontier(s: State, c: ConnId): nat
    requires c in s.conns && s.conns[c].replica in s.subs
  {
    var sub := s.subs[s.conns[c].replica];
    if sub.fanout.Sending? && c in sub.fanout.waiting && sub.next > 0 then sub.next - 1 else sub.next
  }

  // -------------------------------------------------------------- invariant

  ghost predicate ClientsKnown(s: State) { forall c :: c in s.clients ==> c in s.conns }

  ghost predicate SubsBehind(s: State) { forall r :: r in s.subs ==> s.subs[r].next <= |s.published| }

  ghost predicate ConnsServed(s: State) {
    forall c :: c in s.conns ==> s.conns[c].replica in s.subs && s.conns[c].since <= s.subs[s.conns[c].replica].next
  }

  ghost predicate BuffersBounded(s: State) {
    forall c :: c in s.conns ==> 0 <= |s.conns[c].queued| - s.conns[c].drained <= SEND_BUFFER
  }

  ghost predicate Linked(s: State) {
    ClientsKnown(s) && SubsBehind(s) && ConnsServed(s) && BuffersBounded(s)
  }

  ghost predicate Shaped(s: State) {
    Linked(s) && forall r :: r in s.subs ==> FanoutSound(s, r)
  }

  /** The envelope in progress is addressed to the user of everybody who waits for it. */
  ghost predicate FanoutSound(s: State, r: Replica)
    requires r in s.subs && s.subs[r].next <= |s.published|
  {
    s.subs[r].fanout.Sending? ==>
      && s.subs[r].next > 0
      && forall c :: c in s.subs[r].fanout.waiting ==>
           && c in s.conns && s.conns[c].replica == r && s.conns[c].since < s.subs[r].next
           && s.conns[c].user == s.published[s.subs[r].next - 1]
  }

  /** The connection has been given exactly its user's envelopes among `since..upto`. */
  ghost predicate GivenUpTo(s: State, c: ConnId, upto: nat)
    requires c in s.conns
  {
    && s.conns[c].since <= upto <= |s.published|
    && Events(s.conns[c].queued) == Addressed(s.published, s.conns[c].user, s.conns[c].since, upto)
  }

  ghost predicate Waiting(s: State, c: ConnId)
    requires c in s.conns
  {
    var r := s.conns[c].replica;
    r in s.subs && s.subs[r].fanout.Sending? && c in s.subs[r].fanout.waiting
  }

  /** A connection that is registered or waits for its turn, and is not closed, has missed nothing. */
  ghost predicate Delivered(s: State, c: ConnId)
    requires c in s.conns && s.conns[c].replica in s.subs
  {
    && (exists upto: nat :: GivenUpTo(s, c, upto))
    && (!s.conns[c].done && (c in s.clients || Waiting(s, c)) ==> GivenUpTo(s, c, Frontier(s, c)))
  }

  ghost predicate Inv(s: State) {
    Shaped(s) && forall c :: c in s.conns ==> Delivered(s, c)
  }

  lemma StepKeepsClients(s: State, a: Action)
    requires ClientsKnown(s)
    ensures ClientsKnown(Step(s, a))
  {
  }

  lemma StepKeepsSubs(s: State, a: Action)
    requires SubsBehind(s)
    ensures SubsBehind(Step(s, a))
  {
  }

  /** A replica that has joined stays and only moves on. */
  lemma SubsAdvance(s: State, a: Action, r: Replica)
    requires r in s.subs
    ensures r in Step(s, a).subs && s.subs[r].next <= Step(s, a).subs[r].next
  {
  }

  ghost predicate SameOwner(a: Conn, b: Conn) {
    a.user == b.user && a.replica == b.replica && a.since == b.since
  }

  /** Connections keep their owner, and a new one starts where its replica is. */
  lemma OwnersStay(s: State, a: Action, c: ConnId)
    ensures c in s.conns ==> c in Step(s, a).conns && SameOwner(s.conns[c], Step(s, a).conns[c])
    ensures c !in s.conns && c in Step(s, a).conns ==>
      var k := Step(s, a).conns[c]; k.replica in s.subs && k.since == s.subs[k.replica].next
  {
  }

  lemma StepKeepsServed(s: State, a: Action)
    requires ConnsServed(s)
    ensures ConnsServed(Step(s, a))
  {
    var s' := Step(s, a);
    forall c | c in s'.conns
      ensures s'.conns[c].replica in s'.subs && s'.conns[c].since <= s'.subs[s'.conns[c].replica].next
    {
      OwnersStay(s, a, c);
      SubsAdvance(s, a, s'.conns[c].replica);
    }
  }

  lemma StepKeepsBuffers(s: State, a: Action)
    requires BuffersBounded(s)
    ensures BuffersBounded(Step(s, a))
  {
  }

  lemma StepKeepsLinks(s: State, a: Action)
    requires Linked(s)
    ensures Linked(Step(s, a))
  {
    StepKeepsClients(s, a);
    StepKeepsSubs(s, a);
    StepKeepsServed(s, a);
    StepKeepsBuffers(s, a);
  }

  /** Unless it takes up an envelope, a replica stays at the one in progress, with no more
      connections waiting for it. */
  lemma FanoutShrinks(s: State, a: Action, r: Replica)
    requires r in s.subs && !(a == TakeUp(r) && Enabled(s, a))
    ensures var x, y := s.subs[r], Step(s, a).subs[r];
      y.next == x.next && (y.fanout.Sending? ==> x.fanout.Sending? && y.fanout.waiting <= x.fanout.waiting)
  {
  }

  lemma PublishedGrows(s: State, a: Action)
    ensures s.published <= Step(s, a).published
  {
  }

  lemma StepKeepsFanout(s: State, a: Action, r: Replica)
    requires Shaped(s) && r in Step(s, a).subs && Linked(Step(s, a))
    ensures FanoutSound(Step(s, a), r)
  {
    if r in s.subs {
      assert FanoutSound(s, r);
      if !(a == TakeUp(r) && Enabled(s, a)) {
        FanoutShrinks(s, a, r);
        PublishedGrows(s, a);
        forall c | c in s.conns
          ensures c in Step(s, a).conns && SameOwner(s.conns[c], Step(s, a).conns[c])
        {
          OwnersStay(s, a, c);
        }
      }
    }
  }

  lemma StepKeepsShape(s: State, a: Action)
    requires Shaped(s)
    ensures Shaped(Step(s, a))
  {
    StepKeepsLinks(s, a);
    forall r | r in Step(s, a).subs
      ensures FanoutSound(Step(s, a), r)
    {
      StepKeepsFanout(s, a, r);
    }
  }

  /** Publishing adds to the end; nobody has been given more or less. */
  lemma PublishKeeps(s: State, user: User, c: ConnId)
    requires Inv(s) && c in s.conns
    ensures Delivered(Step(s, Publish(user)), c)
  {
    var s' := Step(s, Publish(user));
    forall upto: nat | GivenUpTo(s, c, upto)
      ensures GivenUpTo(s', c, upto)
    {
      AddressedGrows(s.published, user, s.conns[c].user, s.conns[c].since, upto);
    }
  }

  /** Taking up an envelope moves the frontier of those it is not for. */
  lemma TakeUpKeeps(s: State, r: Replica, c: ConnId)
    requires Inv(s) && c in s.conns && Enabled(s, TakeUp(r))
    ensures Delivered(Step(s, TakeUp(r)), c)
  {
    var s' := Step(s, TakeUp(r));
    var upto: nat :| GivenUpTo(s, c, upto);
    assert GivenUpTo(s', c, upto);
  }

  lemma TryKeeps(s: State, r: Replica, x: ConnId, c: ConnId)
    requires Inv(s) && c in s.conns && Enabled(s, Try(r, x))
    ensures Delivered(Step(s, Try(r, x)), c)
  {
    var s' := Step(s, Try(r, x));
    var upto: nat :| GivenUpTo(s, c, upto);
    if c == x {
      var k := s.subs[r].next - 1;
      assert Frontier(s, c) == k && Frontier(s', c) == k + 1;
      if s'.conns[c].queued != s.conns[c].queued {
        assert Init(s'.conns[c].queued) == s.conns[c].queued;
        assert GivenUpTo(s', c, k + 1);
      } else {
        assert s'.conns[c].done && GivenUpTo(s', c, upto);
      }
    } else {
      assert GivenUpTo(s', c, upto);
    }
  }

  lemma PongOutcome(s: State, x: ConnId, c: ConnId)
    requires c in s.conns && Enabled(s, SendPong(x))
    ensures var s' := Step(s, SendPong(x));
      && s' == s.(conns := s'.conns) && c in s'.conns && SameOwner(s.conns[c], s'.conns[c])
      && Events(s'.conns[c].queued) == Events(s.conns[c].queued) && (s.conns[c].done ==> s'.conns[c].done)
  {
    var q := Step(s, SendPong(x)).conns[c].queued;
    if q != s.conns[c].queued {
      assert Init(q) == s.conns[c].queued;
    }
  }

  lemma PongKeeps(s: State, x: ConnId, c: ConnId)
    requires Inv(s) && c in s.conns && Enabled(s, SendPong(x))
    ensures Delivered(Step(s, SendPong(x)), c)
  {
    PongOutcome(s, x, c);
    var upto: nat :| GivenUpTo(s, c, upto);
    assert GivenUpTo(Step(s, SendPong(x)), c, upto);
  }

  predicate QueuesNothing(a: Action) {
    a.Join? || a.Register? || a.MarkOnline? || a.Unregister? || a.MarkOffline? || a.Close? || a.FinishFanout? || a.Drain?
  }

  /** The remaining actions queue nothing and take up nothing. */
  lemma QuietOutcome(s: State, a: Action, c: ConnId)
    requires c in s.conns && s.conns[c].replica in s.subs && QueuesNothing(a)
    ensures var s' := Step(s, a); var r := s.conns[c].replica;
      && s'.published == s.published
      && c in s'.conns && SameOwner(s.conns[c], s'.conns[c]) && s'.conns[c].queued == s.conns[c].queued
      && (s.conns[c].done ==> s'.conns[c].done) && (c in s'.clients ==> c in s.clients)
      && r in s'.subs && s'.subs[r].next == s.subs[r].next && (Waiting(s', c) <==> Waiting(s, c))
  {
  }

  lemma QuietKeeps(s: State, a: Action, c: ConnId)
    requires Inv(s) && c in s.conns && QueuesNothing(a)
    ensures Delivered(Step(s, a), c)
  {
    QuietOutcome(s, a, c);
    var upto: nat :| GivenUpTo(s, c, upto);
    assert GivenUpTo(Step(s, a), c, upto);
  }

  lemma RegisterDelivers(s: State, r: Replica, c: ConnId, user: User)
    requires Inv(s) && Enabled(s, Register(r, c, user))
    ensures Delivered(Step(s, Register(r, c, user)), c)
  {
    assert GivenUpTo(Step(s, Register(r, c, user)), c, s.subs[r].next);
  }

  lemma StepKeepsInv(s: State, a: Action)
    requires Inv(s)
    ensures Inv(Step(s, a))
  {
    StepKeepsShape(s, a);
    forall c | c in Step(s, a).conns && Enabled(s, a)
      ensures Delivered(Step(s, a), c)
    {
      if c !in s.conns {
        RegisterDelivers(s, a.r, c, a.user);
      } else if a.Publish? {
        PublishKeeps(s, a.user, c);
      } else if a.TakeUp? {
        TakeUpKeeps(s, a.r, c);
      } else if a.Try? {
        TryKeeps(s, a.r, a.c, c);
      } else if a.SendPong? {
        PongKeeps(s, a.c, c);
      } else {
        QuietKeeps(s, a, c);
      }
    }
  }

  lemma {:induction false} RunKeepsInv(as_: seq<Action>)
    ensures Inv(Run(as_))
  {
    if as_ != [] {
      RunKeepsInv(Init(as_));
      StepKeepsInv(Run(Init(as_)), Last(as_));
    }
  }

  // ------------------------------------------------------------ results: order

  /** The envelopes queued on a connection are a segment of its user's envelopes in the
      order of publication, without a gap and without a repetition. */
  lemma FanOutOrder(as_: seq<Action>, c: ConnId)
    requires c in Run(as_).conns
    ensures var s := Run(as_);
      exists j: nat :: s.conns[c].since <= j <= |s.published| &&
        Events(s.conns[c].queued) == Addressed(s.published, s.conns[c].user, s.conns[c].since, j)
  {
    RunKeepsInv(as_);
    var s := Run(as_);
    var j: nat :| GivenUpTo(s, c, j);
    assert Events(s.conns[c].queued) == Addressed(s.published, s.conns[c].user, s.conns[c].since, j);
  }

  /** While a connection is registered and open it has been given everything its replica
      has finished with; in particular nothing is missing once its replica has caught up. */
  lemma NothingMissed(as_: seq<Action>, c: ConnId)
    requires c in Run(as_).clients && c in Run(as_).conns && !Run(as_).conns[c].done
    ensures Run(as_).conns[c].replica in Run(as_).subs
    ensures GivenUpTo(Run(as_), c, Frontier(Run(as_), c))
  {
    RunKeepsInv(as_);
    assert Delivered(Run(as_), c);
  }

  /** The action tries to queue something on the connection, which is open with a full buffer. */
  ghost predicate MeetsFullBuffer(s: State, a: Action, c: ConnId) {
    && c in s.conns && !s.conns[c].done && |s.conns[c].queued| - s.conns[c].drained >= SEND_BUFFER
    && (a.Try? || a.SendPong?) && a.c == c && Enabled(s, a)
  }

  ghost predicate MetFullBuffer(as_: seq<Action>, i: nat, c: ConnId)
    requires i < |as_|
  {
    MeetsFullBuffer(Run(as_[..i]), as_[i], c)
  }

  lemma StepCloses(s: State, a: Action, c: ConnId)
    requires a != Close(c) && c in Step(s, a).conns && Step(s, a).conns[c].done
    ensures (c in s.conns && s.conns[c].done) || MeetsFullBuffer(s, a, c)
  {
  }

  /** On a run in which nobody else closes it, a connection is closed only because, at some
      step, something was to be queued on it and its buffer was full. */
  lemma {:induction false} ClosedOnlyWhenFull(as_: seq<Action>, c: ConnId) returns (i: nat)
    requires Close(c) !in as_ && c in Run(as_).conns && Run(as_).conns[c].done
    ensures i < |as_| && MetFullBuffer(as_, i, c)
  {
    var n := |as_| - 1;
    assert as_[..n] == Init(as_);
    StepCloses(Run(Init(as_)), Last(as_), c);
    if MeetsFullBuffer(Run(Init(as_)), Last(as_), c) {
      i := n;
    } else {
      i := ClosedOnlyWhenFull(Init(as_), c);
      assert Init(as_)[..i] == as_[..i];
    }
  }

  /** A registered connection that has not been given all that its replica has finished with
      met a full buffer at some earlier step, unless its own reader or writer ended it. */
  lemma ShortOnlyWhenFull(as_: seq<Action>, c: ConnId) returns (i: nat)
    requires Close(c) !in as_ && c in Run(as_).clients && c in Run(as_).conns
    requires Run(as_).conns[c].replica in Run(as_).subs && !GivenUpTo(Run(as_), c, Frontier(Run(as_), c))
    ensures i < |as_| && MetFullBuffer(as_, i, c)
  {
    if !Run(as_).conns[c].done {
      NothingMissed(as_, c);
    }
    i := ClosedOnlyWhenFull(as_, c);
  }

  /** An addressed segment is strictly ascending and holds exactly the user's envelopes. */
  lemma {:induction false} AddressedAscends(published: seq<User>, user: User, i: nat, j: nat)
    requires j <= |published|
    ensures var a := Addressed(published, user, i, j);
      && (forall x, y :: 0 <= x < y < |a| ==> a[x] < a[y])
      && (forall k :: k in a <==> i <= k < j && published[k] == user)
    decreases j
  {
    if j > i {
      AddressedAscends(published, user, i, j - 1);
      var a, b := Addressed(published, user, i, j - 1), Addressed(published, user, i, j);
      if published[j - 1] == user {
        assert b == a + [j - 1];
        forall x | 0 <= x < |a|
          ensures a[x] < j - 1
        {
          assert a[x] in a;
        }
        assert forall k :: k in b <==> k in a || k == j - 1;
      } else {
        assert b == a;
      }
    }
  }

  /** No two connections see two events in opposite orders. */
  lemma SameOrderEverywhere(as_: seq<Action>, c: ConnId, d: ConnId, w: nat, x: nat, y: nat, z: nat)
    requires c in Run(as_).conns && d in Run(as_).conns
    requires var a := Events(Run(as_).conns[c].queued); var b := Events(Run(as_).conns[d].queued);
      w < |a| && x < |a| && y < |b| && z < |b| && a[w] == b[y] && a[x] == b[z]
    ensures w < x <==> y < z
  {
    var s := Run(as_);
    RunKeepsInv(as_);
    var i: nat :| GivenUpTo(s, c, i);
    var j: nat :| GivenUpTo(s, d, j);
    AddressedAscends(s.published, s.conns[c].user, s.conns[c].since, i);
    AddressedAscends(s.published, s.conns[d].user, s.conns[d].since, j);
    var a, b := Events(s.conns[c].queued), Events(s.conns[d].queued);
    AscentReflects(a, w, x);
    AscentReflects(b, y, z);
  }

  lemma AscentReflects(a: seq<nat>, x: nat, y: nat)
    requires forall i, j :: 0 <= i < j < |a| ==> a[i] < a[j]
    requires x < |a| && y < |a|
    ensures x < y <==> a[x] < a[y]
  {
  }

  // --------------------------------------------------------- results: presence

  /** The presence sets hold exactly the connections added and not yet removed. */
  ghost predicate PresenceExact(s: State) {
    && (forall m :: m in s.presence <==>
          m.1 in s.added && m.1 !in s.removed && m.1 in s.conns && s.conns[m.1].user == m.0)
    && (forall c :: c in s.added ==> c in s.conns)
    && (forall c :: c in s.removed ==> c in s.added && c !in s.clients)
    && (forall c :: c in s.clients ==> c in s.conns)
  }

  lemma StepKeepsPresence(s: State, a: Action)
    requires PresenceExact(s)
    ensures PresenceExact(Step(s, a))
  {
  }

  lemma {:induction false} RunKeepsPresence(as_: seq<Action>)
    ensures PresenceExact(Run(as_))
  {
    if as_ != [] {
      RunKeepsPresence(Init(as_));
      StepKeepsPresence(Run(Init(as_)), Last(as_));
    }
  }

  /** No Register or Unregister of this user's connections is between its two steps. */
  ghost predicate Settled(s: State, user: User) {
    forall c :: c in s.conns && s.conns[c].user == user ==> (c in s.clients <==> c in s.added && c !in s.removed)
  }

  /** On every run, once nothing is half done, a user is online exactly when some replica
      holds a connection of theirs. */
  lemma OnlineExactly(as_: seq<Action>, user: User)
    requires Settled(Run(as_), user)
    ensures IsOnline(Run(as_), user) <==>
      exists r :: ConnsOf(Run(as_), r, user) != {}
  {
    RunKeepsPresence(as_);
    var s := Run(as_);
    if IsOnline(s, user) {
      var c :| c in PresenceSet(s, user);
      assert (user, c) in s.presence;
      assert c in ConnsOf(s, s.conns[c].replica, user);
    }
    if r :| ConnsOf(s, r, user) != {} {
      var c :| c in ConnsOf(s, r, user);
      assert (user, c) in s.presence;
      assert c in PresenceSet(s, user);
    }
  }

  /** Withdrawing a stale connection never hides another that is present. */
  lemma StaleRemovalHidesNobody(as_: seq<Action>, stale: ConnId, newer: ConnId)
    requires newer != stale && newer in Run(as_).added && newer !in Run(as_).removed
    ensures newer in Run(as_).conns
    ensures IsOnline(Step(Run(as_), MarkOffline(stale)), Run(as_).conns[newer].user)
    ensures IsOnline(Step(Run(as_), Unregister(stale)), Run(as_).conns[newer].user)
  {
    RunKeepsPresence(as_);
    var s := Run(as_);
    var u := s.conns[newer].user;
    assert (u, newer) in s.presence;
    assert newer in PresenceSet(Step(s, MarkOffline(stale)), u);
    assert newer in PresenceSet(Step(s, Unregister(stale)), u);
  }
}
