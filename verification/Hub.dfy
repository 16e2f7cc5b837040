/** One process's connections (`hub.go`, `client.go`): bounded queues that never block, and
    a set of connections per user. */
module Hub {
  import HubProtocol

  type User = HubProtocol.User
  type Data = string

  const SEND_BUFFER := HubProtocol.SEND_BUFFER

  /** What a connection holds: the data waiting for its writer, and whether it is finished. */
  datatype Buffer = Buffer(send: seq<Data>, done: bool)

  /** What an attempt to queue `data` does. */
  function Attempt(b: Buffer, data: Data): Buffer {
    if b.done then b
    else if |b.send| < SEND_BUFFER then Buffer(b.send + [data], false)
    else Buffer(b.send, true)
  }

  /** What a connection of the protocol holds, with each item in its text form. */
  function BufferOf(c: HubProtocol.Conn, text: HubProtocol.Item -> Data): Buffer
    requires c.drained <= |c.queued|
  {
    Buffer(seq(|c.queued| - c.drained, i requires 0 <= i < |c.queued| - c.drained => text(c.queued[c.drained + i])), c.done)
  }

  /** The protocol queues exactly as the client does. */
  lemma AttemptIsTrySend(c: HubProtocol.Conn, item: HubProtocol.Item, text: HubProtocol.Item -> Data)
    requires c.drained <= |c.queued|
    ensures BufferOf(HubProtocol.TrySend(c, item), text) == Attempt(BufferOf(c, text), text(item))
  {
    var after := HubProtocol.TrySend(c, item);
    if after.queued != c.queued {
      assert BufferOf(after, text).send == BufferOf(c, text).send + [text(item)];
    }
  }

  class Client {
    const user: User
    var send: seq<Data>
    var done: bool
    var closings: nat       // how often the socket was closed

    constructor (user: User)
      ensures this.user == user && Holds() == Buffer([], false) && closings == 0
    {
      this.user, send, done, closings := user, [], false, 0;
    }

    function Holds(): Buffer
      reads this
    {
      Buffer(send, done)
    }

    /** However often it is called, the socket is closed once, and nothing queued is lost. */
    method Close()
      modifies this
      ensures Holds() == Buffer(old(send), true)
      ensures closings == old(closings) + if old(done) then 0 else 1
    {
      if !done {
        done := true;
        closings := closings + 1;
      }
    }

    /** Never blocks: a connection that has stopped draining is closed instead. */
    method TrySend(data: Data) returns (queued: bool)
      modifies this
      ensures Tried(this, data)
      ensures closings == old(closings) + if done && !old(done) then 1 else 0
      ensures queued <==> send == old(send) + [data]
    {
      if done {
        return false;
      }
      if |send| < SEND_BUFFER {
        send := send + [data];
        return true;
      }
      Close();
      return false;
    }
  }

  twostate predicate Tried(c: Client, data: Data)
    reads c
  {
    c.Holds() == Attempt(old(c.Holds()), data)
  }

  class Connections {
    var clients: map<User, set<Client>>

    /** A user is listed only with connections, and only their own. */
    ghost predicate Valid()
      reads this
    {
      forall u :: u in clients ==> clients[u] != {} && forall c :: c in clients[u] ==> c.user == u
    }

    ghost function Of(user: User): set<Client>
      reads this
    {
      if user in clients then clients[user] else {}
    }

    constructor ()
      ensures Valid() && clients == map[]
    {
      clients := map[];
    }

    method Register(c: Client)
      requires Valid()
      modifies this
      ensures Valid()
      ensures Of(c.user) == old(Of(c.user)) + {c}
      ensures forall u :: u != c.user ==> Of(u) == old(Of(u))
    {
      if c.user !in clients {
        clients := clients[c.user := {}];
      }
      clients := clients[c.user := clients[c.user] + {c}];
    }

    /** Drops one specific connection, registered or not; a user left without any is not listed. */
    method Unregister(c: Client)
      requires Valid()
      modifies this, c
      ensures Valid()
      ensures Of(c.user) == old(Of(c.user)) - {c}
      ensures forall u :: u != c.user ==> Of(u) == old(Of(u))
      ensures c.Holds() == Buffer(old(c.send), true) && c.closings == old(c.closings) + if old(c.done) then 0 else 1
    {
      if c.user in clients {
        var left := clients[c.user] - {c};
        if |left| == 0 {
          clients := clients - {c.user};
        } else {
          clients := clients[c.user := left];
        }
      }
      c.Close();
    }

    method IsOnline(user: User) returns (online: bool)
      requires Valid()
      ensures online <==> Of(user) != {}
    {
      online := user in clients && |clients[user]| > 0;
    }

    /** Every connection of the user is tried once, and nobody else's is touched. */
    method SendTo(user: User, data: Data)
      requires Valid()
      modifies Of(user)
      ensures Valid() && clients == old(clients)
      ensures forall c :: c in Of(user) ==> Tried(c, data)
    {
      var todo := if user in clients then clients[user] else {};
      while todo != {}
        invariant todo <= Of(user)
        invariant forall c :: c in todo ==> c.Holds() == old(c.Holds())
        invariant forall c :: c in Of(user) - todo ==> Tried(c, data)
        decreases todo
      {
        var c :| c in todo;
        todo := todo - {c};
        var _ := c.TrySend(data);
      }
    }
  }
}
