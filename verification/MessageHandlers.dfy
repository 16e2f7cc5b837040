/** The handlers that read and write the message tables, as they run: `hub.go`,
    `client.go`, `messages.go`, `deletions.go` and `sweep.go`. */
module MessageHandlers {
  import opened Common
  import opened KeyLists
  import opened MessageStore
  import opened MessageViews

  const MAX_CONTENT_LEN := 8000
  const DEFAULT_MESSAGE_LIMIT := 200
  const MAX_MESSAGE_LIMIT := 500

  // ------------------------------------------------------------ rows by chat

  /** The ids of one chat's rows, in order. */
  function IdsIn(rows: seq<Message>, chat: ChatId): seq<nat> {
    if rows == [] then [] else IdsIn(Init(rows), chat) + if Last(rows).chat == chat then [Last(rows).id] else []
  }

  /** Every event's list of ids, by chat. */
  ghost predicate GroupsRows(byChat: map<ChatId, seq<nat>>, rows: seq<Message>) {
    && (forall c :: c in byChat <==> exists m :: m in rows && m.chat == c)
    && (forall c :: c in byChat ==> byChat[c] == IdsIn(rows, c))
  }

  method GroupByChat(rows: seq<Message>) returns (byChat: map<ChatId, seq<nat>>)
    ensures GroupsRows(byChat, rows)
  {
    byChat := map[];
    for i := 0 to |rows|
      invariant GroupsRows(byChat, rows[..i])
    {
      var m := rows[i];
      GroupStep(byChat, rows[..i], m);
      assert rows[..i + 1] == rows[..i] + [m];
      byChat := byChat[m.chat := (if m.chat in byChat then byChat[m.chat] else []) + [m.id]];
    }
    assert rows[..|rows|] == rows;
  }

  lemma {:induction false} NoneInMeansEmpty(rows: seq<Message>, chat: ChatId)
    requires forall m :: m in rows ==> m.chat != chat
    ensures IdsIn(rows, chat) == []
  {
    if rows != [] {
      NoneInMeansEmpty(Init(rows), chat);
    }
  }

  lemma GroupStep(byChat: map<ChatId, seq<nat>>, rows: seq<Message>, m: Message)
    requires GroupsRows(byChat, rows)
    ensures GroupsRows(byChat[m.chat := (if m.chat in byChat then byChat[m.chat] else []) + [m.id]], rows + [m])
  {
    var after := rows + [m];
    assert Init(after) == rows && Last(after) == m;
    assert forall o :: o in after <==> o in rows || o == m;
    if m.chat !in byChat {
      NoneInMeansEmpty(rows, m.chat);
    }
  }

  lemma {:induction false} IdsInMembers(rows: seq<Message>, chat: ChatId)
    ensures forall id :: id in IdsIn(rows, chat) <==> exists m :: m in rows && m.chat == chat && m.id == id
  {
    if rows != [] {
      IdsInMembers(Init(rows), chat);
      assert forall m :: m in rows <==> m in Init(rows) || m == Last(rows) by { assert rows == Init(rows) + [Last(rows)]; }
    }
  }

  lemma {:induction false} IdsInDistinct(rows: seq<Message>, chat: ChatId)
    requires Ascending(rows)
    ensures Distinct(IdsIn(rows, chat))
  {
    if rows != [] {
      IdsInDistinct(Init(rows), chat);
      IdsInMembers(Init(rows), chat);
      var before, id := IdsIn(Init(rows), chat), Last(rows).id;
      assert forall m :: m in Init(rows) ==> m.id < id;
      assert id !in before;
      assert forall i :: 0 <= i < |before| ==> before[i] in before;
    }
  }

  /** The events partition the ids of the rows: each id is in the event of its own chat,
      once, and in no other. */
  lemma GroupsPartition(byChat: map<ChatId, seq<nat>>, rows: seq<Message>, m: Message)
    requires Ascending(rows) && GroupsRows(byChat, rows) && m in rows
    ensures m.chat in byChat && m.id in byChat[m.chat] && Distinct(byChat[m.chat])
    ensures forall c :: c in byChat && m.id in byChat[c] ==> c == m.chat
    ensures forall c, id :: c in byChat && id in byChat[c] ==> id in Ids(rows)
  {
    forall c | c in byChat
      ensures m.id in byChat[c] ==> c == m.chat
      ensures forall id :: id in byChat[c] ==> id in Ids(rows)
    {
      IdsInMembers(rows, c);
      if m.id in byChat[c] {
        var o :| o in rows && o.chat == c && o.id == m.id;
        OneRowPerId(rows, m, o);
      }
    }
    IdsInMembers(rows, m.chat);
    IdsInDistinct(rows, m.chat);
  }

  /** What a sweep announces: every id that it deletes, in the event of the message's own
      chat and no other, once there; and nothing else. */
  lemma SweepEventsPartition(t: Tables, now: real, byChat: map<ChatId, seq<nat>>)
    requires Sound(t) && GroupsRows(byChat, Filter(t.messages, (m: Message) => Expired(m, now)))
    ensures forall m :: m in t.messages && Expired(m, now) ==>
      m.chat in byChat && m.id in byChat[m.chat] && forall c :: c in byChat && m.id in byChat[c] ==> c == m.chat
    ensures forall c :: c in byChat ==> Distinct(byChat[c])
    ensures forall c, id :: c in byChat && id in byChat[c] ==> id in ExpiredIds(t, now)
  {
    var due := Filter(t.messages, (m: Message) => Expired(m, now));
    FilterAscends(t.messages, (m: Message) => Expired(m, now));
    FilterMembers(t.messages, (m: Message) => Expired(m, now));
    forall m | m in due
      ensures m.chat in byChat && m.id in byChat[m.chat] && forall c :: c in byChat && m.id in byChat[c] ==> c == m.chat
    {
      GroupsPartition(byChat, due, m);
    }
    forall c | c in byChat
      ensures Distinct(byChat[c])
      ensures forall id :: id in byChat[c] ==> id in ExpiredIds(t, now)
    {
      IdsInMembers(due, c);
      IdsInDistinct(due, c);
    }
  }

  // -------------------------------------------------------- incoming messages

  /** What one member is sent. */
  datatype Packet = Packet(to: User, row: Row)

  ghost predicate Accepts(t: Tables, msg: Draft) {
    && (msg.chat, msg.from) in t.members
    && |msg.content| <= MAX_CONTENT_LEN
    && msg.chat in t.chats
    && t.chats[msg.chat].e2eEnabled == msg.isEncrypted
  }

  ghost predicate SomeoneElse(t: Tables, msg: Draft, online: set<User>) {
    exists u :: u in Members(t, msg.chat) && u != msg.from && u in online
  }

  ghost function Stored(t: Tables, msg: Draft, now: real): Tables
    requires Accepts(t, msg)
  {
    Persisted(t, msg, Members(t, msg.chat), t.chats[msg.chat].selfDestruct, now)
  }

  ghost function AfterIncoming(t: Tables, msg: Draft, online: set<User>, now: real): Tables {
    if !Accepts(t, msg) then t
    else if ReplyExists(t, msg.replyTo) && SomeoneElse(t, msg, online) then DeliverOne(Stored(t, msg, now), t.nextId)
    else Stored(t, msg, now)
  }

  /** A message as it goes out live: with the state its row has by then. */
  ghost function LiveCopy(t: Tables, msg: Draft, online: set<User>, now: real): Message
    requires Accepts(t, msg)
  {
    var m := RowOf(t, msg, now, t.chats[msg.chat].selfDestruct);
    if SomeoneElse(t, msg, online) then m.(status := Delivered) else m
  }

  /** Members without a key of their own are sent nothing of an encrypted message. */
  ghost predicate Addressed(t: Tables, msg: Draft, user: User) {
    user in Members(t, msg.chat) && (msg.isEncrypted ==> user in LiveKeys(msg.keys))
  }

  ghost function PacketFor(t: Tables, msg: Draft, online: set<User>, now: real, user: User): Packet
    requires Accepts(t, msg) && Addressed(t, msg, user)
  {
    Packet(user, Row(LiveCopy(t, msg, online, now), if msg.isEncrypted then Some(LiveKeys(msg.keys)[user]) else None))
  }

  /** `to` names each of these members once. */
  ghost predicate NamesEach(to: seq<User>, members: set<User>) {
    Distinct(to) && forall u :: u in to <==> u in members
  }

  ghost function PacketsTo(t: Tables, msg: Draft, online: set<User>, now: real, to: seq<User>): seq<Packet>
    requires Accepts(t, msg)
  {
    if to == [] then [] else
      PacketsTo(t, msg, online, now, Init(to)) +
      if Addressed(t, msg, Last(to)) then [PacketFor(t, msg, online, now, Last(to))] else []
  }

  /** The packet is the one that a listed member is to be sent. */
  ghost predicate Theirs(t: Tables, msg: Draft, online: set<User>, now: real, to: seq<User>, p: Packet)
    requires Accepts(t, msg)
  {
    p.to in to && Addressed(t, msg, p.to) && p == PacketFor(t, msg, online, now, p.to)
  }

  lemma TheirsGrows(t: Tables, msg: Draft, online: set<User>, now: real, to: seq<User>, p: Packet)
    requires Accepts(t, msg) && to != []
    ensures Theirs(t, msg, online, now, to, p) <==>
      Theirs(t, msg, online, now, Init(to), p) ||
      (Addressed(t, msg, Last(to)) && p == PacketFor(t, msg, online, now, Last(to)))
  {
    assert to == Init(to) + [Last(to)];
  }

  lemma {:induction false} PacketsAreTheirs(t: Tables, msg: Draft, online: set<User>, now: real, to: seq<User>, p: Packet)
    requires Accepts(t, msg)
    ensures p in PacketsTo(t, msg, online, now, to) <==> Theirs(t, msg, online, now, to, p)
  {
    if to != [] {
      PacketsAreTheirs(t, msg, online, now, Init(to), p);
      TheirsGrows(t, msg, online, now, to, p);
    }
  }

  lemma {:induction false} PacketsDiffer(t: Tables, msg: Draft, online: set<User>, now: real, to: seq<User>)
    requires Accepts(t, msg) && Distinct(to)
    ensures var packets := PacketsTo(t, msg, online, now, to);
      forall i, j :: 0 <= i < j < |packets| ==> packets[i].to != packets[j].to
  {
    if to != [] {
      PacketsDiffer(t, msg, online, now, Init(to));
      var before := PacketsTo(t, msg, online, now, Init(to));
      forall i | 0 <= i < |before|
        ensures before[i].to != Last(to)
      {
        PacketsAreTheirs(t, msg, online, now, Init(to), before[i]);
      }
    }
  }

  /** Exactly the members addressed are sent a packet, one each, their own. */
  lemma OnePacketEach(t: Tables, msg: Draft, online: set<User>, now: real, to: seq<User>)
    requires Accepts(t, msg) && Distinct(to)
    ensures var packets := PacketsTo(t, msg, online, now, to);
      && (forall p :: p in packets <==>
            p.to in to && Addressed(t, msg, p.to) && p == PacketFor(t, msg, online, now, p.to))
      && (forall i, j :: 0 <= i < j < |packets| ==> packets[i].to != packets[j].to)
  {
    PacketsDiffer(t, msg, online, now, to);
    forall p
      ensures p in PacketsTo(t, msg, online, now, to) <==> Theirs(t, msg, online, now, to, p)
    {
      PacketsAreTheirs(t, msg, online, now, to, p);
    }
  }

  /** The sender is a member, the text is not too long, the chat is there and encrypted or not
      as the message is, and the message replied to is there. */
  ghost predicate MayBeSent(t: Tables, msg: Draft) {
    && (msg.chat, msg.from) in t.members && |msg.content| <= 8000
    && msg.chat in t.chats && (t.chats[msg.chat].e2eEnabled <==> msg.isEncrypted)
    && (msg.replyTo.Some? ==> exists m :: m in t.messages && m.id == msg.replyTo.value)
  }

  /** What is posted in a chat with its present members and settings. */
  ghost function Posting(t: Tables, msg: Draft, now: real): Event
    requires msg.chat in t.chats
  {
    Post(msg, Members(t, msg.chat), t.chats[msg.chat].selfDestruct, now)
  }

  lemma MayBeSentExactly(t: Tables, msg: Draft)
    ensures MayBeSent(t, msg) <==> Accepts(t, msg) && ReplyExists(t, msg.replyTo)
  {
  }

  lemma OldRowsStay(t: Tables, msg: Draft, online: set<User>, now: real)
    requires Sound(t) && Accepts(t, msg) && ReplyExists(t, msg.replyTo)
    ensures var rows := AfterIncoming(t, msg, online, now).messages;
      |rows| == |t.messages| + 1 && Init(rows) == t.messages && Last(rows) == LiveCopy(t, msg, online, now)
  {
    var rows, stored := AfterIncoming(t, msg, online, now).messages, Stored(t, msg, now).messages;
    CopyIsStored(t, msg, online, now);
    WithStatusRows(stored, (m: Message) => m.id == t.nextId && m.status == Sent, Delivered);
    assert forall i :: 0 <= i < |t.messages| ==> stored[i] == t.messages[i] && RowSound(t, t.messages[i]);
    assert Init(rows) == t.messages;
  }

  lemma CopyIsAdded(t: Tables, msg: Draft, online: set<User>, now: real)
    requires Accepts(t, msg) && ReplyExists(t, msg.replyTo)
    ensures Adds(t, Posting(t, msg, now), LiveCopy(t, msg, online, now).(status := Sent))
    ensures LiveCopy(t, msg, online, now).status == if SomeoneElse(t, msg, online) then Delivered else Sent
  {
    PostAdds(t, msg, Members(t, msg.chat), t.chats[msg.chat].selfDestruct, now);
  }

  lemma RefusedChangesNothing(t: Tables, msg: Draft, online: set<User>, now: real)
    requires !(Accepts(t, msg) && ReplyExists(t, msg.replyTo))
    ensures AfterIncoming(t, msg, online, now).messages == t.messages && AfterIncoming(t, msg, online, now).keys == t.keys
  {
  }

  /** An incoming message that may be sent is stored last, delivered already if and only if
      another member is online, and leaves the other rows alone; any other changes nothing. */
  lemma IncomingExactly(t: Tables, msg: Draft, online: set<User>, now: real)
    requires Sound(t)
    ensures !MayBeSent(t, msg) ==>
      AfterIncoming(t, msg, online, now).messages == t.messages && AfterIncoming(t, msg, online, now).keys == t.keys
    ensures MayBeSent(t, msg) ==>
      var rows := AfterIncoming(t, msg, online, now).messages;
      && |rows| == |t.messages| + 1 && Init(rows) == t.messages
      && Adds(t, Posting(t, msg, now), Last(rows).(status := Sent)) && Last(rows).status != Seen
      && (Last(rows).status == Delivered <==> exists u :: (msg.chat, u) in t.members && u != msg.from && u in online)
  {
    MayBeSentExactly(t, msg);
    if MayBeSent(t, msg) {
      OldRowsStay(t, msg, online, now);
      CopyIsAdded(t, msg, online, now);
      SomeoneElseOnline(t, msg, online);
    } else {
      RefusedChangesNothing(t, msg, online, now);
    }
  }

  lemma SomeoneElseOnline(t: Tables, msg: Draft, online: set<User>)
    ensures SomeoneElse(t, msg, online) <==> exists u :: (msg.chat, u) in t.members && u != msg.from && u in online
  {
    if u :| (msg.chat, u) in t.members && u != msg.from && u in online {
      assert u in Members(t, msg.chat);
    }
  }

  /** Of a plain message every member is sent one packet without a key; of an encrypted one,
      each member for whom a key is listed, with the last key listed for them. */
  lemma PacketsExactly(t: Tables, msg: Draft, online: set<User>, now: real, to: seq<User>, user: User)
    requires Accepts(t, msg) && NamesEach(to, Members(t, msg.chat))
    ensures var packets := PacketsTo(t, msg, online, now, to);
      && ((exists p :: p in packets && p.to == user) <==>
            (msg.chat, user) in t.members && (msg.isEncrypted ==> exists i :: 0 <= i < |msg.keys| && msg.keys[i].user == user))
      && (forall p :: p in packets && p.to == user ==>
            (if msg.isEncrypted then exists i :: LastFor(msg.keys, i, user) && p.row.key == Some(msg.keys[i])
             else p.row.key == None))
  {
    OnePacketEach(t, msg, online, now, to);
    LiveKeyIsLast(msg.keys, user);
    var packets := PacketsTo(t, msg, online, now, to);
    assert (msg.chat, user) in t.members <==> user in Members(t, msg.chat);
    if Addressed(t, msg, user) {
      assert PacketFor(t, msg, online, now, user) in packets;
    }
    forall p | p in packets && p.to == user
      ensures if msg.isEncrypted then exists i :: LastFor(msg.keys, i, user) && p.row.key == Some(msg.keys[i])
              else p.row.key == None
    {
      assert p == PacketFor(t, msg, online, now, user);
    }
  }

  // ------------------------------------------------------------- the database

  datatype Deletion = NotFound | NotMember | NotYours | DeletedForAll(chat: ChatId) | DeletedForMe(chat: ChatId)

  /** Every method leaves tables that one of the statements of MessageStore describes, so
      `Sound` holds throughout, by StepKeepsSound. */
  class Database {
    var messages: seq<Message>
    var tombstones: set<(nat, User)>
    var keys: map<(nat, User), Key>
    var members: set<(ChatId, User)>
    var chats: map<ChatId, Chat>
    var nextId: nat
    ghost var expiry: map<nat, Option<real>>

    ghost function Now(): Tables
      reads this
    {
      Tables(messages, tombstones, keys, members, chats, nextId, expiry)
    }

    constructor ()
      ensures Now() == NO_TABLES
    {
      messages, tombstones, keys, members, chats, nextId, expiry := [], {}, map[], {}, map[], 1, map[];
    }

    /** chatMembers: every member once, in no particular order. */
    method ChatMembers(chat: ChatId) returns (list: seq<User>)
      ensures NamesEach(list, Members(Now(), chat))
    {
      list := [];
      var rest := set m | m in members && m.0 == chat :: m.1;
      while rest != {}
        invariant Distinct(list) && forall u :: u in list ==> u !in rest
        invariant forall u :: u in list || u in rest <==> u in Members(Now(), chat)
        decreases rest
      {
        var u :| u in rest;
        list := list + [u];
        rest := rest - {u};
      }
    }

    /** A key row for every member's first complete key; a second one conflicts and is dropped. */
    method InsertKeys(id: nat, list: seq<Key>, valid: set<User>)
      requires NoKeys(keys, id)
      modifies `keys
      ensures keys == WithKeys(old(keys), id, KeyRows(list, valid))
    {
      ghost var was := keys;
      NoRows(was, id);
      for i := 0 to |list|
        invariant keys == WithKeys(was, id, KeyRows(list[..i], valid))
      {
        var k := list[i];
        KeyInsert(was, id, list[..i], valid, k);
        assert list[..i + 1] == list[..i] + [k];
        if k.user in valid && k.wrapped != "" && k.wrapIv != "" && k.ephemeral != "" && (id, k.user) !in keys {
          keys := keys[(id, k.user) := k];
        }
      }
      assert list[..|list|] == list;
    }

    /** One transaction: the row, and its keys. */
    method Persist(msg: Draft, to: seq<User>, seconds: nat, now: real) returns (id: Option<nat>)
      requires Sound(Now())
      modifies this
      ensures Now() == Persisted(old(Now()), msg, (set u | u in to), seconds, now)
      ensures id == if msg.chat in old(chats) && ReplyExists(old(Now()), msg.replyTo) then Some(old(nextId)) else None
    {
      NoKeysYet(Now());
      var m := Message(nextId, msg.chat, Some(msg.from), msg.content, now, Sent, msg.replyTo, Text,
                       if seconds > 0 then Some(now + seconds as real) else None, false, msg.isEncrypted,
                       if msg.cipherIv == "" then None else Some(msg.cipherIv));
      nextId := nextId + 1;
      if msg.chat !in chats || (msg.replyTo.Some? && msg.replyTo.value !in Ids(messages)) {
        return None;
      }
      messages := messages + [m];
      expiry := expiry[m.id := m.expiresAt];
      if msg.isEncrypted {
        InsertKeys(m.id, msg.keys, set u | u in to);
      } else {
        NoRows(keys, m.id);
      }
      id := Some(m.id);
    }

    /** The message is delivered as soon as one member other than the sender is connected. */
    method DeliverIfOnline(id: nat, from: User, to: seq<User>, online: set<User>) returns (delivered: bool)
      modifies `messages
      ensures delivered <==> exists u :: u in to && u != from && u in online
      ensures Now() == if delivered then DeliverOne(old(Now()), id) else old(Now())
    {
      for i := 0 to |to|
        invariant forall j :: 0 <= j < i ==> !(to[j] != from && to[j] in online)
        invariant messages == old(messages)
      {
        if to[i] != from && to[i] in online {
          messages := WithStatus(messages, (m: Message) => m.id == id && m.status == Sent, Delivered);
          return true;
        }
      }
      delivered := false;
    }

    /** handleIncoming: verify, store, mark delivered if somebody is there, and send. */
    method HandleIncoming(msg: Draft, online: set<User>, now: real) returns (packets: seq<Packet>)
      requires Sound(Now())
      modifies this
      ensures Now() == AfterIncoming(old(Now()), msg, online, now)
      ensures Accepts(old(Now()), msg) && ReplyExists(old(Now()), msg.replyTo) ==>
        exists to :: NamesEach(to, Members(old(Now()), msg.chat)) && packets == PacketsTo(old(Now()), msg, online, now, to)
      ensures !(Accepts(old(Now()), msg) && ReplyExists(old(Now()), msg.replyTo)) ==> packets == []
    {
      packets := [];
      if (msg.chat, msg.from) !in members || |msg.content| > MAX_CONTENT_LEN { return; }
      if msg.chat !in chats || chats[msg.chat].e2eEnabled != msg.isEncrypted { return; }
      packets := StoreAndSend(msg, online, now);
    }

    /** handleIncoming, once the message is accepted. */
    method StoreAndSend(msg: Draft, online: set<User>, now: real) returns (packets: seq<Packet>)
      requires Sound(Now()) && Accepts(Now(), msg)
      modifies this
      ensures Now() == AfterIncoming(old(Now()), msg, online, now)
      ensures if ReplyExists(old(Now()), msg.replyTo)
        then exists to :: NamesEach(to, Members(old(Now()), msg.chat)) && packets == PacketsTo(old(Now()), msg, online, now, to)
        else packets == []
    {
      packets := [];
      ghost var t := Now();
      var to := ChatMembers(msg.chat);
      var seconds := chats[msg.chat].selfDestruct;
      var id := Persist(msg, to, seconds, now);
      assert (set u | u in to) == Members(t, msg.chat);
      if id.None? { return; }
      var delivered := DeliverIfOnline(id.value, msg.from, to, online);
      assert delivered == SomeoneElse(t, msg, online);
      packets := Compose(msg, to, id.value, seconds, delivered, now, t, online);
    }

    /** Returns the status events, by chat. */
    method MarkDelivered(user: User) returns (byChat: map<ChatId, seq<nat>>)
      modifies `messages
      ensures Now() == DeliverAll(old(Now()), user)
      ensures GroupsRows(byChat, Filter(old(messages), Undelivered(members, user)))
    {
      var waiting := Undelivered(members, user);
      var changed := Filter(messages, waiting);
      messages := WithStatus(messages, waiting, Delivered);
      byChat := GroupByChat(changed);
    }

    /** Returns the ids that are now seen. */
    method MarkSeen(chat: ChatId, user: User, fetch: bool) returns (seenIds: seq<nat>)
      modifies `messages
      ensures Now() == SeeAll(old(Now()), chat, user, fetch)
      ensures seenIds == if (chat, user) in members then IdsOf(Filter(old(messages), Unseen(chat, user, fetch))) else []
    {
      seenIds := [];
      if (chat, user) !in members { return; }
      var changed := Filter(messages, Unseen(chat, user, fetch));
      messages := WithStatus(messages, Unseen(chat, user, fetch), Seen);
      for i := 0 to |changed|
        invariant seenIds == IdsOf(changed[..i])
      {
        seenIds := seenIds + [changed[i].id];
      }
      assert changed[..|changed|] == changed;
    }

    /** The history query: newest first. */
    method SelectHistory(chat: ChatId, user: User, limit: nat, now: real) returns (a: array<Row>)
      ensures fresh(a) && a[..] == RowsFor(Now(), NewestFirst(History(Now(), chat, user, now), limit), user)
    {
      var hidden, ks := tombstones, keys;
      var shown := (m: Message) => m.chat == chat && !m.softDeleted && (m.id, user) !in hidden && !Expired(m, now);
      FilterSame(messages, shown, Belongs(Now(), chat, user, now));
      var found := NewestFirst(Filter(messages, shown), limit);
      a := new Row[|found|](i requires 0 <= i < |found| =>
        Row(found[i], if (found[i].id, user) in ks then Some(ks[(found[i].id, user)]) else None));
    }

    /** Marks what it shows as seen, then returns the newest `limit` visible messages,
        oldest first; None for someone who is not a member. */
    method GetMessages(chat: ChatId, user: User, asked: Option<int>, now: real) returns (rows: Option<array<Row>>)
      modifies `messages
      ensures Now() == SeeAll(old(Now()), chat, user, true)
      ensures rows.None? <==> (chat, user) !in members
      ensures rows.Some? ==>
        rows.value[..] == HistoryRows(Now(), chat, user, now, Limit(asked))
      ensures rows.Some? ==> forall i :: 0 <= i < rows.value.Length ==>
        Showable(Now(), chat, user, now, rows.value[i].message)
      ensures rows.Some? ==>
        EndsHistory(rows.value[..], History(Now(), chat, user, now), if asked.Some? && 1 <= asked.value <= 500 then asked.value else 200)
    {
      if (chat, user) !in members { return None; }
      var limit := DEFAULT_MESSAGE_LIMIT;
      if asked.Some? && 0 < asked.value <= MAX_MESSAGE_LIMIT {
        limit := asked.value;
      }
      var _ := MarkSeen(chat, user, true);
      var a := SelectHistory(chat, user, limit, now);
      ReverseInPlace(a);
      WindowOldestFirst(Now(), History(Now(), chat, user, now), limit, user);
      RowsAreShowable(Now(), chat, user, now, limit);
      RowsEndHistory(Now(), chat, user, now, limit);
      rows := Some(a);
    }

    /** DELETE FROM messages, with what refers to the rows. */
    method EraseMessages(gone: set<nat>)
      modifies `messages, `tombstones, `keys
      ensures Now() == Without(old(Now()), gone)
    {
      messages := Kept(messages, gone);
      tombstones := set d | d in tombstones && d.0 !in gone;
      keys := map k | k in keys && k.0 !in gone :: keys[k];
    }

    /** Returns the deleted events, by chat. */
    method SweepExpiredOnce(now: real) returns (byChat: map<ChatId, seq<nat>>)
      modifies this
      ensures Now() == Swept(old(Now()), now)
      ensures GroupsRows(byChat, Filter(old(messages), (m: Message) => Expired(m, now)))
    {
      var due := Filter(messages, (m: Message) => Expired(m, now));
      var gone := set m | m in messages && Expired(m, now) :: m.id;
      EraseMessages(gone);
      byChat := GroupByChat(due);
    }

    method DeleteMessage(me: User, id: nat, everyone: bool) returns (r: Deletion)
      requires Ascending(messages)
      modifies this
      ensures r == NotFound <==> !exists m :: m in old(messages) && m.id == id && m.chat in chats
      ensures forall m :: m in old(messages) && m.id == id && m.chat in chats ==>
        r == (if (m.chat, me) !in members then NotMember
              else if !everyone then DeletedForMe(m.chat)
              else if m.sender != Some(me) && !chats[m.chat].isSecret then NotYours
              else DeletedForAll(m.chat))
      ensures Now() == match r
                       case DeletedForAll(_) => Without(old(Now()), {id})
                       case DeletedForMe(_) => Hidden(old(Now()), id, me)
                       case _ => old(Now())
    {
      if !exists m :: m in messages && m.id == id && m.chat in chats { return NotFound; }
      var m :| m in messages && m.id == id && m.chat in chats;
      forall o | o in messages && o.id == id
        ensures o == m
      {
        OneRowPerId(messages, m, o);
      }
      if (m.chat, me) !in members { return NotMember; }
      if everyone {
        if m.sender != Some(me) && !chats[m.chat].isSecret { return NotYours; }
        EraseMessages({id});
        return DeletedForAll(m.chat);
      }
      tombstones := tombstones + {(id, me)};
      return DeletedForMe(m.chat);
    }
  }

  /** The message as it goes out, to everybody it is for. */
  method Compose(msg: Draft, to: seq<User>, id: nat, seconds: nat, delivered: bool, now: real,
                 ghost t: Tables, ghost online: set<User>)
    returns (packets: seq<Packet>)
    requires forall u :: u in to ==> u in Members(t, msg.chat)
    requires Accepts(t, msg) && id == t.nextId && seconds == t.chats[msg.chat].selfDestruct
    requires delivered == SomeoneElse(t, msg, online)
    ensures packets == PacketsTo(t, msg, online, now, to)
  {
    var out := Message(id, msg.chat, Some(msg.from), msg.content, now, if delivered then Delivered else Sent,
                       msg.replyTo, Text, if seconds > 0 then Some(now + seconds as real) else None, false,
                       msg.isEncrypted, if msg.cipherIv == "" then None else Some(msg.cipherIv));
    packets := Address(msg, to, out, t, online, now);
  }

  method KeysByUser(keys: seq<Key>) returns (byUser: map<User, Key>)
    ensures byUser == LiveKeys(keys)
  {
    byUser := map[];
    for i := 0 to |keys|
      invariant byUser == LiveKeys(keys[..i])
    {
      assert Init(keys[..i + 1]) == keys[..i];
      byUser := byUser[keys[i].user := keys[i]];
    }
    assert keys[..|keys|] == keys;
  }

  /** The last two loops of handleIncoming. */
  method Address(msg: Draft, to: seq<User>, out: Message, ghost t: Tables, ghost online: set<User>, ghost now: real)
    returns (packets: seq<Packet>)
    requires forall u :: u in to ==> u in Members(t, msg.chat)
    requires Accepts(t, msg) && out == LiveCopy(t, msg, online, now)
    ensures packets == PacketsTo(t, msg, online, now, to)
  {
    var keysByUser := KeysByUser(msg.keys);
    packets := [];
    for i := 0 to |to|
      invariant packets == PacketsTo(t, msg, online, now, to[..i])
    {
      var user := to[i];
      assert Init(to[..i + 1]) == to[..i];
      if msg.isEncrypted {
        if user in keysByUser {
          packets := packets + [Packet(user, Row(out, Some(keysByUser[user])))];
        }
      } else {
        packets := packets + [Packet(user, Row(out, None))];
      }
    }
    assert to[..|to|] == to;
  }

  function Limit(asked: Option<int>): nat {
    if asked.Some? && 0 < asked.value <= MAX_MESSAGE_LIMIT then asked.value else DEFAULT_MESSAGE_LIMIT
  }

  function IdsOf(ms: seq<Message>): seq<nat> {
    seq(|ms|, i requires 0 <= i < |ms| => ms[i].id)
  }

  lemma NewestReversed(ms: seq<Message>, limit: nat)
    ensures Reversed(NewestFirst(ms, limit)) == Window(ms, limit)
  {
    var a, b := Reversed(NewestFirst(ms, limit)), Window(ms, limit);
    assert |a| == |b|;
    assert forall i :: 0 <= i < |a| ==> a[i] == b[i];
  }

  lemma RowsReversed(t: Tables, ms: seq<Message>, user: User)
    ensures Reversed(RowsFor(t, ms, user)) == RowsFor(t, Reversed(ms), user)
  {
    var a, b := Reversed(RowsFor(t, ms, user)), RowsFor(t, Reversed(ms), user);
    assert forall i :: 0 <= i < |a| ==> a[i] == b[i];
  }

  /** The rows are the last `n` messages of the history, in its order, or all of them. */
  ghost predicate EndsHistory(rows: seq<Row>, history: seq<Message>, n: nat) {
    && |rows| == (if |history| < n then |history| else n)
    && forall i :: 0 <= i < |rows| ==> rows[i].message == history[|history| - |rows| + i]
  }

  lemma RowsEndHistory(t: Tables, chat: ChatId, user: User, now: real, limit: nat)
    ensures EndsHistory(HistoryRows(t, chat, user, now, limit), History(t, chat, user, now), limit)
  {
  }

  /** The newest rows, read newest first and then reversed, are the end of the history. */
  lemma WindowOldestFirst(t: Tables, ms: seq<Message>, limit: nat, user: User)
    ensures Reversed(RowsFor(t, NewestFirst(ms, limit), user)) == RowsFor(t, Window(ms, limit), user)
  {
    NewestReversed(ms, limit);
    RowsReversed(t, NewestFirst(ms, limit), user);
  }

  lemma NoKeysYet(t: Tables)
    requires Sound(t)
    ensures NoKeys(t.keys, t.nextId)
  {
    assert forall m :: m in t.messages ==> RowSound(t, m);
  }

  method ReverseInPlace<T>(a: array<T>)
    modifies a
    ensures a[..] == Reversed(old(a[..]))
  {
    var i, j := 0, a.Length - 1;
    while i < j
      invariant 0 <= i <= a.Length && j == a.Length - 1 - i && i <= j + 1
      invariant forall k :: 0 <= k < i || j < k < a.Length ==> a[k] == old(a[a.Length - 1 - k])
      invariant forall k :: i <= k <= j ==> a[k] == old(a[k])
    {
      a[i], a[j] := a[j], a[i];
      i, j := i + 1, j - 1;
    }
  }

  predicate NoKeys(keys: map<(nat, User), Key>, id: nat) {
    forall k :: k in keys ==> k.0 != id
  }

  function WithKeys(was: map<(nat, User), Key>, id: nat, rows: map<User, Key>): map<(nat, User), Key> {
    was + KeyTable(id, rows)
  }

  lemma NoRows(was: map<(nat, User), Key>, id: nat)
    ensures WithKeys(was, id, map[]) == was
  {
  }

  lemma OneMoreRow(was: map<(nat, User), Key>, id: nat, rows: map<User, Key>, k: Key)
    ensures WithKeys(was, id, rows[k.user := k]) == WithKeys(was, id, rows)[(id, k.user) := k]
  {
    TableGrows(id, rows, k);
  }

  lemma TableGrows(id: nat, rows: map<User, Key>, k: Key)
    ensures KeyTable(id, rows[k.user := k]) == KeyTable(id, rows)[(id, k.user) := k]
  {
    var a, b := KeyTable(id, rows[k.user := k]), KeyTable(id, rows)[(id, k.user) := k];
    assert a.Keys == b.Keys;
  }

  lemma RowTaken(was: map<(nat, User), Key>, id: nat, rows: map<User, Key>, user: User)
    requires NoKeys(was, id)
    ensures (id, user) in WithKeys(was, id, rows) <==> user in rows
  {
  }

  lemma KeyInsert(was: map<(nat, User), Key>, id: nat, ks: seq<Key>, valid: set<User>, k: Key)
    requires NoKeys(was, id)
    ensures var table := WithKeys(was, id, KeyRows(ks, valid));
      WithKeys(was, id, KeyRows(ks + [k], valid)) ==
      if k.user in valid && k.Complete() && (id, k.user) !in table then table[(id, k.user) := k] else table
  {
    var rows := KeyRows(ks, valid);
    assert Init(ks + [k]) == ks && Last(ks + [k]) == k;
    RowTaken(was, id, rows, k.user);
    OneMoreRow(was, id, rows, k);
  }

  // ------------------------------------------------- live packets and history

  lemma CopyIsStored(t: Tables, msg: Draft, online: set<User>, now: real)
    requires Accepts(t, msg) && ReplyExists(t, msg.replyTo)
    ensures var after := AfterIncoming(t, msg, online, now);
      && after == Stored(t, msg, now).(messages := after.messages)
      && after.messages != [] && Last(after.messages) == LiveCopy(t, msg, online, now)
  {
    var stored := Stored(t, msg, now).messages;
    var p := (m: Message) => m.id == t.nextId && m.status == Sent;
    WithStatusRows(stored, p, Delivered);
    assert Last(stored) == RowOf(t, msg, now, t.chats[msg.chat].selfDestruct);
  }

  /** What the member's look at the chat makes of the copy they were sent. */
  ghost function Shown(t: Tables, msg: Draft, online: set<User>, now: real, user: User): Message
    requires Accepts(t, msg)
  {
    var copy := LiveCopy(t, msg, online, now);
    if user == msg.from then copy else copy.(status := Seen)
  }

  lemma LookShowsCopy(t: Tables, msg: Draft, online: set<User>, now: real, user: User)
    requires Accepts(t, msg) && ReplyExists(t, msg.replyTo) && user in Members(t, msg.chat)
    ensures var seen := SeeAll(AfterIncoming(t, msg, online, now), msg.chat, user, true);
      && seen == Stored(t, msg, now).(messages := seen.messages)
      && seen.messages != [] && Last(seen.messages) == Shown(t, msg, online, now, user)
  {
    CopyIsStored(t, msg, online, now);
    var after := AfterIncoming(t, msg, online, now);
    assert (msg.chat, user) in after.members;
    WithStatusRows(after.messages, Unseen(msg.chat, user, true), Seen);
  }

  lemma NewestIsLast(ms: seq<Message>, t: Tables, chat: ChatId, user: User, now: real, limit: nat)
    requires t.messages == ms && ms != [] && Belongs(t, chat, user, now)(Last(ms)) && limit > 0
    ensures var rows := HistoryRows(t, chat, user, now, limit); rows != [] && Last(rows) == RowFor(t, Last(ms), user)
    ensures Last(ms) in History(t, chat, user, now)
  {
    FinalGrows(ms, Belongs(t, chat, user, now));
    var h := History(t, chat, user, now);
    assert h != [] && Last(h) == Last(ms);
    assert Last(Window(h, limit)) == Last(h);
  }

  /** Nobody has hidden a message that has just been stored. */
  lemma NewIsVisible(t: Tables, t': Tables, m: Message, user: User, now: real)
    requires Sound(t) && t'.tombstones == t.tombstones && m.id == t.nextId && !m.softDeleted && !Expired(m, now)
    ensures Visible(t', m, user, now)
  {
    assert forall o :: o in t.messages ==> RowSound(t, o);
  }

  lemma KeyShown(t: Tables, msg: Draft, now: real, m: Message, user: User, seen: Tables)
    requires Sound(t) && Accepts(t, msg) && ReplyExists(t, msg.replyTo) && user in Members(t, msg.chat) && m.id == t.nextId
    requires seen.keys == Stored(t, msg, now).keys
    ensures RowFor(seen, m, user).key ==
      var rows := KeysOf(msg, Members(t, msg.chat)); if user in rows then Some(rows[user]) else None
  {
    NoKeysYet(t);
    assert (t.nextId, user) !in t.keys;
  }

  /** When a member fetches the history after a message, the last row is the message as it
      was sent to them live, seen by now unless they sent it; and it has the key that came
      with it exactly when the first complete key listed for them equals the last one. A
      member who was sent nothing has no key in the row either. */
  lemma LiveAgreesWithHistory(t: Tables, msg: Draft, online: set<User>, now: real, user: User, later: real, limit: nat)
    requires Sound(t) && Accepts(t, msg) && ReplyExists(t, msg.replyTo) && user in Members(t, msg.chat)
    requires !Expired(LiveCopy(t, msg, online, now), later) && limit > 0
    ensures LiveCopy(t, msg, online, now) in History(AfterIncoming(t, msg, online, now), msg.chat, user, later)
    ensures
      var rows := HistoryRows(SeeAll(AfterIncoming(t, msg, online, now), msg.chat, user, true), msg.chat, user, later, limit);
      && rows != []
      && (Addressed(t, msg, user) ==>
            var sent := PacketFor(t, msg, online, now, user).row;
            && Last(rows).message == (if user == msg.from then sent.message else sent.message.(status := Seen))
            && (Last(rows).key == sent.key <==> !msg.isEncrypted || FirstIsLast(msg.keys, user)))
      && (!Addressed(t, msg, user) ==> Last(rows).key == None)
  {
    var after := AfterIncoming(t, msg, online, now);
    var seen := SeeAll(after, msg.chat, user, true);
    CopyIsStored(t, msg, online, now);
    NewIsVisible(t, after, Last(after.messages), user, later);
    NewestIsLast(after.messages, after, msg.chat, user, later, limit);
    LookShowsCopy(t, msg, online, now, user);
    NewIsVisible(t, seen, Last(seen.messages), user, later);
    NewestIsLast(seen.messages, seen, msg.chat, user, later, limit);
    KeyShown(t, msg, now, Last(seen.messages), user, seen);
    KeyAgrees(t, msg, user);
  }

  lemma KeyAgrees(t: Tables, msg: Draft, user: User)
    requires user in Members(t, msg.chat)
    ensures msg.isEncrypted && user in LiveKeys(msg.keys) ==>
      var rows := KeysOf(msg, Members(t, msg.chat));
      user in rows && rows[user] == LiveKeys(msg.keys)[user] <==> FirstIsLast(msg.keys, user)
    ensures !Addressed(t, msg, user) ==> user !in KeysOf(msg, Members(t, msg.chat))
  {
    LiveKeyIsLast(msg.keys, user);
    StoredKeyIsFirst(msg.keys, Members(t, msg.chat), user);
    if user in LiveKeys(msg.keys) {
      PathsAgreeExactly(msg.keys, Members(t, msg.chat), user);
    }
  }
}
