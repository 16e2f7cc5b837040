/** The message tables and the statements that the handlers run on them (`hub.go`,
    `client.go`, `messages.go`, `deletions.go`, `sweep.go`). Each statement, and each
    transaction, is one function from tables to tables. */
module MessageStore {
  import opened Common

  type User = string
  type ChatId = string

  datatype Status = Sent | Delivered | Seen

  datatype Kind = Text | Media | System

  datatype Message = Message(
    id: nat, chat: ChatId, sender: Option<User>, content: string, createdAt: real, status: Status,
    replyTo: Option<nat>, kind: Kind, expiresAt: Option<real>, softDeleted: bool,
    isEncrypted: bool, cipherIv: Option<string>)

  /** One recipient's wrapped copy of a message's content key. */
  datatype Key = Key(user: User, wrapped: string, wrapIv: string, ephemeral: string) {
    predicate Complete() { wrapped != "" && wrapIv != "" && ephemeral != "" }
  }

  datatype Chat = Chat(e2eEnabled: bool, isSecret: bool, selfDestruct: nat, softDeleted: bool)

  /** Rows are listed by ascending id. `expiry` remembers when every id ever stored
      expires, also after its row is gone; only properties speak of it. */
  datatype Tables = Tables(
    messages: seq<Message>,
    tombstones: set<(nat, User)>,
    keys: map<(nat, User), Key>,
    members: set<(ChatId, User)>,
    chats: map<ChatId, Chat>,
    nextId: nat,
    expiry: map<nat, Option<real>>)

  const NO_TABLES := Tables([], {}, map[], {}, map[], 1, map[])

  function Members(t: Tables, chat: ChatId): set<User> {
    set m | m in t.members && m.0 == chat :: m.1
  }

  function Ids(ms: seq<Message>): set<nat> {
    set m | m in ms :: m.id
  }

  predicate Expired(m: Message, now: real) { m.expiresAt.Some? && m.expiresAt.value <= now }

  /** `sender_id IS DISTINCT FROM user`. */
  predicate FromOther(m: Message, user: User) { m.sender != Some(user) }

  // ----------------------------------------------------------------- inserting

  function ExpiresAt(seconds: nat, now: real): Option<real> {
    if seconds > 0 then Some(now + seconds as real) else None
  }

  /** A row for every member's first complete key; the order of the list decides. */
  function KeyRows(keys: seq<Key>, valid: set<User>): map<User, Key> {
    if keys == [] then map[] else
      var rows := KeyRows(Init(keys), valid);
      var k := Last(keys);
      if k.user in valid && k.Complete() && k.user !in rows then rows[k.user := k] else rows
  }

  /** handleIncoming's `keysByUser`: the key that each member's live packet carries. */
  function LiveKeys(keys: seq<Key>): map<User, Key> {
    if keys == [] then map[] else LiveKeys(Init(keys))[Last(keys).user := Last(keys)]
  }

  /** What a client sends. */
  datatype Draft = Draft(chat: ChatId, from: User, content: string, replyTo: Option<nat>,
                         isEncrypted: bool, cipherIv: string, keys: seq<Key>)

  function RowOf(t: Tables, d: Draft, now: real, seconds: nat): Message {
    Message(t.nextId, d.chat, Some(d.from), d.content, now, Sent, d.replyTo, Text, ExpiresAt(seconds, now), false,
            d.isEncrypted, if d.cipherIv == "" then None else Some(d.cipherIv))
  }

  predicate ReplyExists(t: Tables, replyTo: Option<nat>) {
    replyTo.Some? ==> replyTo.value in Ids(t.messages)
  }

  function KeyTable(id: nat, keys: map<User, Key>): map<(nat, User), Key> {
    map u | u in keys :: (id, u) := keys[u]
  }

  function Inserted(t: Tables, m: Message, keys: map<User, Key>): Tables {
    t.(messages := t.messages + [m], nextId := t.nextId + 1, expiry := t.expiry[m.id := m.expiresAt],
       keys := t.keys + KeyTable(m.id, keys))
  }

  /** The key rows of a message, for the members the caller looked up before. */
  function KeysOf(d: Draft, to: set<User>): map<User, Key> {
    if d.isEncrypted then KeyRows(d.keys, to) else map[]
  }

  /** An insert that fails after it has drawn its id. */
  function Burned(t: Tables): Tables { t.(nextId := t.nextId + 1) }

  /** persist. The chat, and the message replied to, must be there. */
  function Persisted(t: Tables, d: Draft, to: set<User>, seconds: nat, now: real): Tables {
    if d.chat in t.chats && ReplyExists(t, d.replyTo) then Inserted(t, RowOf(t, d, now, seconds), KeysOf(d, to))
    else Burned(t)
  }

  function MediaRow(t: Tables, chat: ChatId, user: User, filename: string, now: real): Message
    requires chat in t.chats
  {
    Message(t.nextId, chat, Some(user), filename, now, Sent, None, Media, ExpiresAt(t.chats[chat].selfDestruct, now), false,
            false, None)
  }

  function NoticeRow(t: Tables, chat: ChatId, text: string, now: real): Message {
    Message(t.nextId, chat, None, text, now, Seen, None, System, None, false, false, None)
  }

  // ------------------------------------------------------------------ statuses

  function WithStatus(ms: seq<Message>, p: Message -> bool, status: Status): seq<Message> {
    if ms == [] then [] else
      [if p(ms[0]) then ms[0].(status := status) else ms[0]] + WithStatus(ms[1..], p, status)
  }

  function DeliverOne(t: Tables, id: nat): Tables {
    t.(messages := WithStatus(t.messages, (m: Message) => m.id == id && m.status == Sent, Delivered))
  }

  /** Which rows MarkDelivered advances. */
  function Undelivered(members: set<(ChatId, User)>, user: User): Message -> bool {
    (m: Message) => (m.chat, user) in members && FromOther(m, user) && m.status == Sent
  }

  function DeliverAll(t: Tables, user: User): Tables {
    t.(messages := WithStatus(t.messages, Undelivered(t.members, user), Delivered))
  }

  /** Which rows a user's look at a chat makes seen; a history fetch leaves out rows
      marked deleted. */
  function Unseen(chat: ChatId, user: User, fetch: bool): Message -> bool {
    (m: Message) => m.chat == chat && FromOther(m, user) && m.status != Seen && !(fetch && m.softDeleted)
  }

  function SeeAll(t: Tables, chat: ChatId, user: User, fetch: bool): Tables {
    if (chat, user) in t.members then
      t.(messages := WithStatus(t.messages, Unseen(chat, user, fetch), Seen))
    else t
  }

  // ------------------------------------------------------------------ deleting

  function Unreferring(m: Message, gone: set<nat>): Message {
    if m.replyTo.Some? && m.replyTo.value in gone then m.(replyTo := None) else m
  }

  /** The rows that stay; replies to the others point nowhere (ON DELETE SET NULL). */
  function Kept(ms: seq<Message>, gone: set<nat>): seq<Message> {
    if ms == [] then []
    else if ms[0].id in gone then Kept(ms[1..], gone)
    else [Unreferring(ms[0], gone)] + Kept(ms[1..], gone)
  }

  /** Tombstones and keys go with their rows (ON DELETE CASCADE). */
  function Without(t: Tables, gone: set<nat>): Tables {
    t.(messages := Kept(t.messages, gone),
       tombstones := (set d | d in t.tombstones && d.0 !in gone),
       keys := map k | k in t.keys && k.0 !in gone :: t.keys[k])
  }

  function ExpiredIds(t: Tables, now: real): set<nat> {
    set m | m in t.messages && Expired(m, now) :: m.id
  }

  function Swept(t: Tables, now: real): Tables { Without(t, ExpiredIds(t, now)) }

  function Hidden(t: Tables, id: nat, user: User): Tables {
    if id in Ids(t.messages) then t.(tombstones := t.tombstones + {(id, user)}) else t
  }

  function Retired(ms: seq<Message>, id: nat): seq<Message> {
    if ms == [] then [] else [if ms[0].id == id then ms[0].(softDeleted := true) else ms[0]] + Retired(ms[1..], id)
  }

  function ChatIds(t: Tables, chat: ChatId): set<nat> {
    set m | m in t.messages && m.chat == chat :: m.id
  }

  /** Deleting the chat row takes its members and messages along. */
  function Removed(t: Tables, chat: ChatId): Tables {
    Without(t, ChatIds(t, chat)).(
      chats := t.chats - {chat},
      members := (set m | m in t.members && m.0 != chat))
  }

  /** The caller's own membership and tombstones. */
  function Departed(t: Tables, chat: ChatId, user: User): Tables {
    var mine := ChatIds(t, chat);
    t.(members := t.members - {(chat, user)},
       tombstones := (set d | d in t.tombstones && !(d.1 == user && d.0 in mine)))
  }

  /** DeleteChat with scope "me": the last to leave takes the chat along. */
  function LeftChat(t: Tables, chat: ChatId, user: User): Tables {
    if (chat, user) !in t.members then t else
      var left := Departed(t, chat, user);
      if Members(left, chat) == {} then Removed(left, chat) else left
  }

  // -------------------------------------------------------------------- events

  datatype Event =
    | Post(draft: Draft, to: set<User>, seconds: nat, at: real)
    | Attach(chat: ChatId, user: User, filename: string, at: real)
    | Notice(chat: ChatId, text: string, at: real)
    | Online(user: User, at: real)                    // a first connection is registered
    | Offline(user: User, at: real)                   // the last one is gone
    | Reach(id: nat, user: User, at: real)            // after a post, for one online recipient
    | Connect(user: User, at: real)                   // MarkDelivered
    | Look(chat: ChatId, user: User, fetch: bool, at: real)
    | DeleteForAll(id: nat, at: real)
    | Hide(id: nat, user: User, at: real)
    | Retire(id: nat, at: real)                       // marked deleted by an earlier version
    | Join(chat: ChatId, user: User, at: real)
    | Leave(chat: ChatId, user: User, at: real)
    | Remove(chat: ChatId, at: real)
    | Configure(chat: ChatId, settings: Chat, at: real)
    | Sweep(at: real)

  function Apply(t: Tables, e: Event): Tables {
    match e
    case Post(d, to, seconds, at) => Persisted(t, d, to, seconds, at)
    case Attach(chat, user, filename, at) =>
      if chat in t.chats then Inserted(t, MediaRow(t, chat, user, filename, at), map[]) else Burned(t)
    case Notice(chat, text, at) =>
      if chat in t.chats then Inserted(t, NoticeRow(t, chat, text, at), map[]) else Burned(t)
    case Online(_, _) => t
    case Offline(_, _) => t
    case Reach(id, _, _) => DeliverOne(t, id)
    case Connect(user, _) => DeliverAll(t, user)
    case Look(chat, user, fetch, _) => SeeAll(t, chat, user, fetch)
    case DeleteForAll(id, _) => Without(t, {id})
    case Hide(id, user, _) => Hidden(t, id, user)
    case Retire(id, _) => t.(messages := Retired(t.messages, id))
    case Join(chat, user, _) => if chat in t.chats then t.(members := t.members + {(chat, user)}) else t
    case Leave(chat, user, _) => LeftChat(t, chat, user)
    case Remove(chat, _) => Removed(t, chat)
    case Configure(chat, settings, _) => t.(chats := t.chats[chat := settings])
    case Sweep(at) => Swept(t, at)
  }

  function Run(es: seq<Event>): Tables {
    if es == [] then NO_TABLES else Apply(Run(Init(es)), Last(es))
  }

  ghost predicate InTime(es: seq<Event>, now: real) {
    es != [] ==> Last(es).at <= now && InTime(Init(es), Last(es).at)
  }

  // -------------------------------------------------------- what always holds

  ghost predicate Ascending(ms: seq<Message>) {
    forall i, j :: 0 <= i < j < |ms| ==> ms[i].id < ms[j].id
  }

  /** The row is known to the id counter and the expiry record, and its reply to the table. */
  ghost predicate RowSound(t: Tables, m: Message) {
    m.id < t.nextId && m.id in t.expiry && t.expiry[m.id] == m.expiresAt && ReplyExists(t, m.replyTo)
  }

  /** Ids ascend and are never used again, and foreign keys point at rows. */
  ghost predicate Sound(t: Tables) {
    && Ascending(t.messages)
    && (forall m :: m in t.messages ==> RowSound(t, m))
    && (forall d :: d in t.tombstones ==> d.0 in Ids(t.messages))
    && (forall k :: k in t.keys ==> k.0 in Ids(t.messages))
    && (forall id :: id in t.expiry ==> id < t.nextId)
  }

  lemma {:induction false} KeptRows(ms: seq<Message>, gone: set<nat>)
    ensures forall m :: m in Kept(ms, gone) <==> exists o :: o in ms && o.id !in gone && m == Unreferring(o, gone)
  {
    if ms != [] {
      KeptRows(ms[1..], gone);
      assert ms == [ms[0]] + ms[1..];
      var rest := Kept(ms[1..], gone);
      assert forall m :: m in Kept(ms, gone) <==> m in rest || (ms[0].id !in gone && m == Unreferring(ms[0], gone));
    }
  }

  lemma KeptIds(ms: seq<Message>, gone: set<nat>)
    ensures Ids(Kept(ms, gone)) == Ids(ms) - gone
  {
    KeptRows(ms, gone);
    forall id | id in Ids(ms) - gone
      ensures id in Ids(Kept(ms, gone))
    {
      var o :| o in ms && o.id == id;
      assert Unreferring(o, gone) in Kept(ms, gone);
    }
  }

  lemma {:induction false} KeptAscends(ms: seq<Message>, gone: set<nat>)
    requires Ascending(ms)
    ensures Ascending(Kept(ms, gone))
  {
    if ms != [] {
      KeptAscends(ms[1..], gone);
      KeptRows(ms[1..], gone);
      var rest := Kept(ms[1..], gone);
      forall j | 0 <= j < |rest|
        ensures ms[0].id < rest[j].id
      {
        assert rest[j] in rest;
      }
    }
  }

  lemma OneRowPerId(ms: seq<Message>, a: Message, b: Message)
    requires Ascending(ms) && a in ms && b in ms && a.id == b.id
    ensures a == b
  {
    var i :| 0 <= i < |ms| && ms[i] == a;
    var j :| 0 <= j < |ms| && ms[j] == b;
  }

  lemma WithoutKeepsSound(t: Tables, gone: set<nat>)
    requires Sound(t)
    ensures Sound(Without(t, gone))
  {
    KeptAscends(t.messages, gone);
    KeptRows(t.messages, gone);
    KeptIds(t.messages, gone);
    forall m | m in Kept(t.messages, gone)
      ensures RowSound(Without(t, gone), m)
    {
      var o :| o in t.messages && o.id !in gone && m == Unreferring(o, gone);
      assert RowSound(t, o);
    }
  }

  /** `after` lists the same rows as `ms`, changed at most in status and the deleted mark. */
  ghost predicate SameRows(ms: seq<Message>, after: seq<Message>) {
    |after| == |ms| && forall i :: 0 <= i < |ms| ==>
      after[i] == ms[i].(status := after[i].status, softDeleted := after[i].softDeleted)
  }

  lemma {:induction false} WithStatusRows(ms: seq<Message>, p: Message -> bool, status: Status)
    ensures |WithStatus(ms, p, status)| == |ms|
    ensures forall i :: 0 <= i < |ms| ==>
      WithStatus(ms, p, status)[i] == if p(ms[i]) then ms[i].(status := status) else ms[i]
  {
    if ms != [] {
      WithStatusRows(ms[1..], p, status);
    }
  }

  lemma {:induction false} RetiredRows(ms: seq<Message>, id: nat)
    ensures SameRows(ms, Retired(ms, id))
    ensures forall i :: 0 <= i < |ms| ==> Retired(ms, id)[i].status == ms[i].status
  {
    if ms != [] {
      RetiredRows(ms[1..], id);
    }
  }

  lemma SameRowsSameIds(ms: seq<Message>, after: seq<Message>)
    requires SameRows(ms, after)
    ensures Ids(after) == Ids(ms)
  {
    forall id | id in Ids(ms)
      ensures id in Ids(after)
    {
      var m :| m in ms && m.id == id;
      var i :| 0 <= i < |ms| && ms[i] == m;
      assert after[i] in after;
    }
    forall id | id in Ids(after)
      ensures id in Ids(ms)
    {
      var m :| m in after && m.id == id;
      var i :| 0 <= i < |after| && after[i] == m;
      assert ms[i] in ms;
    }
  }

  lemma SameRowsKeepSound(t: Tables, after: seq<Message>)
    requires Sound(t) && SameRows(t.messages, after)
    ensures Sound(t.(messages := after))
  {
    SameRowsSameIds(t.messages, after);
    forall m | m in after
      ensures RowSound(t.(messages := after), m)
    {
      var i :| 0 <= i < |after| && after[i] == m;
      assert RowSound(t, t.messages[i]);
    }
  }

  lemma InsertedRows(t: Tables, m: Message, keys: map<User, Key>)
    requires Sound(t) && m.id == t.nextId && ReplyExists(t, m.replyTo)
    ensures forall o :: o in Inserted(t, m, keys).messages ==> RowSound(Inserted(t, m, keys), o)
    ensures Ids(Inserted(t, m, keys).messages) == Ids(t.messages) + {m.id}
  {
    var t' := Inserted(t, m, keys);
    assert forall o :: o in t'.messages <==> o in t.messages || o == m;
    assert Ids(t'.messages) == Ids(t.messages) + {m.id};
    forall o | o in t'.messages
      ensures RowSound(t', o)
    {
      if o in t.messages {
        assert RowSound(t, o);
      }
    }
  }

  lemma AppendAscends(ms: seq<Message>, m: Message)
    requires Ascending(ms) && forall o :: o in ms ==> o.id < m.id
    ensures Ascending(ms + [m])
  {
  }

  lemma InsertedKeepsSound(t: Tables, m: Message, keys: map<User, Key>)
    requires Sound(t) && m.id == t.nextId && ReplyExists(t, m.replyTo)
    ensures Sound(Inserted(t, m, keys))
  {
    var t' := Inserted(t, m, keys);
    InsertedRows(t, m, keys);
    assert forall o :: o in t.messages ==> RowSound(t, o);
    AppendAscends(t.messages, m);
  }

  lemma BurningKeepsSound(t: Tables)
    requires Sound(t)
    ensures Sound(Burned(t))
  {
    assert forall m :: m in t.messages ==> RowSound(t, m);
  }

  lemma PostKeepsSound(t: Tables, d: Draft, to: set<User>, seconds: nat, at: real)
    requires Sound(t)
    ensures Sound(Persisted(t, d, to, seconds, at))
  {
    BurningKeepsSound(t);
    if d.chat in t.chats && ReplyExists(t, d.replyTo) {
      InsertedKeepsSound(t, RowOf(t, d, at, seconds), KeysOf(d, to));
    }
  }

  lemma AttachKeepsSound(t: Tables, chat: ChatId, user: User, filename: string, at: real)
    requires Sound(t)
    ensures Sound(Apply(t, Attach(chat, user, filename, at)))
  {
    BurningKeepsSound(t);
    if chat in t.chats {
      InsertedKeepsSound(t, MediaRow(t, chat, user, filename, at), map[]);
    }
  }

  lemma NoticeKeepsSound(t: Tables, chat: ChatId, text: string, at: real)
    requires Sound(t)
    ensures Sound(Apply(t, Notice(chat, text, at)))
  {
    BurningKeepsSound(t);
    if chat in t.chats {
      InsertedKeepsSound(t, NoticeRow(t, chat, text, at), map[]);
    }
  }

  predicate Marks(e: Event) { e.Reach? || e.Connect? || e.Look? || e.Retire? }

  /** Marking rows changes none of what is sound about them. */
  lemma MarkKeepsSound(t: Tables, e: Event)
    requires Sound(t) && Marks(e)
    ensures Sound(Apply(t, e))
  {
    match e
    case Reach(id, _, _) => StatusKeepsSound(t, (m: Message) => m.id == id && m.status == Sent, Delivered);
    case Connect(user, _) => StatusKeepsSound(t, Undelivered(t.members, user), Delivered);
    case Look(chat, user, fetch, _) => StatusKeepsSound(t, Unseen(chat, user, fetch), Seen);
    case Retire(id, _) =>
      RetiredRows(t.messages, id);
      SameRowsKeepSound(t, Retired(t.messages, id));
  }

  lemma HideKeepsSound(t: Tables, id: nat, user: User)
    requires Sound(t)
    ensures Sound(Hidden(t, id, user))
  {
    MetadataKeepsSound(t, Hidden(t, id, user));
  }

  lemma SettingsKeepSound(t: Tables, e: Event)
    requires Sound(t) && (e.Join? || e.Configure? || e.Online? || e.Offline?)
    ensures Sound(Apply(t, e))
  {
    MetadataKeepsSound(t, Apply(t, e));
  }

  lemma StepKeepsSound(t: Tables, e: Event)
    requires Sound(t)
    ensures Sound(Apply(t, e))
  {
    match e
    case Post(d, to, seconds, at) => PostKeepsSound(t, d, to, seconds, at);
    case Attach(chat, user, filename, at) => AttachKeepsSound(t, chat, user, filename, at);
    case Notice(chat, text, at) => NoticeKeepsSound(t, chat, text, at);
    case DeleteForAll(id, _) => WithoutKeepsSound(t, {id});
    case Hide(id, user, _) => HideKeepsSound(t, id, user);
    case Leave(chat, user, _) => LeaveKeepsSound(t, chat, user);
    case Remove(chat, _) => RemovalKeepsSound(t, chat);
    case Sweep(at) => WithoutKeepsSound(t, ExpiredIds(t, at));
    case _ =>
      if Marks(e) {
        MarkKeepsSound(t, e);
      } else {
        SettingsKeepSound(t, e);
      }
  }

  lemma StatusKeepsSound(t: Tables, p: Message -> bool, status: Status)
    requires Sound(t)
    ensures Sound(t.(messages := WithStatus(t.messages, p, status)))
  {
    WithStatusRows(t.messages, p, status);
    SameRowsKeepSound(t, WithStatus(t.messages, p, status));
  }

  lemma MetadataKeepsSound(t: Tables, t': Tables)
    requires Sound(t) && t'.messages == t.messages && t'.keys == t.keys && t'.nextId == t.nextId && t'.expiry == t.expiry
    requires forall d :: d in t'.tombstones ==> d.0 in Ids(t.messages)
    ensures Sound(t')
  {
    forall m | m in t'.messages
      ensures RowSound(t', m)
    {
      assert RowSound(t, m);
    }
  }

  lemma RemovalKeepsSound(t: Tables, chat: ChatId)
    requires Sound(t)
    ensures Sound(Removed(t, chat))
  {
    var bare := Without(t, ChatIds(t, chat));
    WithoutKeepsSound(t, ChatIds(t, chat));
    MetadataKeepsSound(bare, Removed(t, chat));
  }

  lemma LeaveKeepsSound(t: Tables, chat: ChatId, user: User)
    requires Sound(t)
    ensures Sound(LeftChat(t, chat, user))
  {
    var left := Departed(t, chat, user);
    MetadataKeepsSound(t, left);
    RemovalKeepsSound(left, chat);
  }

  lemma {:induction false} RunKeepsSound(es: seq<Event>)
    ensures Sound(Run(es))
  {
    if es != [] {
      RunKeepsSound(Init(es));
      StepKeepsSound(Run(Init(es)), Last(es));
    }
  }

  // -------------------------------------------- what is there, on any run

  lemma {:induction false} RunPrefix(es: seq<Event>, i: nat)
    requires i < |es|
    ensures Run(es[..i + 1]) == Apply(Run(es[..i]), es[i])
  {
    assert Init(es[..i + 1]) == es[..i] && Last(es[..i + 1]) == es[i];
  }

  /** A row that the event adds, as the event describes it. */
  ghost predicate Adds(t: Tables, e: Event, m: Message) {
    m.id == t.nextId && m.chat in t.chats && !m.softDeleted &&
    match e
    case Post(d, _, seconds, at) =>
      && m.chat == d.chat && m.sender == Some(d.from) && m.content == d.content && m.createdAt == at && m.status == Sent
      && m.kind == Text && m.replyTo == d.replyTo && (d.replyTo.Some? ==> Stored(t, d.replyTo.value))
      && (if seconds == 0 then m.expiresAt == None else m.expiresAt == Some(at + seconds as real))
      && m.isEncrypted == d.isEncrypted && (m.cipherIv == None <==> d.cipherIv == "")
      && (m.cipherIv.Some? ==> m.cipherIv.value == d.cipherIv)
    case Attach(chat, user, filename, at) =>
      && m.chat == chat && m.sender == Some(user) && m.content == filename && m.createdAt == at && m.status == Sent
      && m.kind == Media && m.replyTo == None && !m.isEncrypted && m.cipherIv == None
      && var seconds := t.chats[chat].selfDestruct;
         (if seconds == 0 then m.expiresAt == None else m.expiresAt == Some(at + seconds as real))
    case Notice(chat, text, at) =>
      && m.chat == chat && m.sender == None && m.content == text && m.createdAt == at && m.status == Seen
      && m.kind == System && m.replyTo == None && !m.isEncrypted && m.cipherIv == None && m.expiresAt == None
    case _ => false
  }

  ghost predicate Stored(t: Tables, id: nat) {
    exists m :: m in t.messages && m.id == id
  }

  ghost predicate StoredIn(t: Tables, id: nat, chat: ChatId) {
    exists m :: m in t.messages && m.id == id && m.chat == chat
  }

  /** The event removes the row: the message is deleted for everybody, it expired before the
      sweep, or its chat goes, deleted or left by its last member. */
  ghost predicate Erases(t: Tables, e: Event, id: nat) {
    match e
    case DeleteForAll(x, _) => x == id
    case Remove(chat, _) => StoredIn(t, id, chat)
    case Leave(chat, user, _) => StoredIn(t, id, chat) && LastMember(t, chat, user)
    case Sweep(at) => exists m :: m in t.messages && m.id == id && m.expiresAt.Some? && m.expiresAt.value <= at
    case _ => false
  }

  ghost predicate LastMember(t: Tables, chat: ChatId, user: User) {
    (chat, user) in t.members && forall other :: (chat, other) in t.members ==> other == user
  }

  ghost predicate AddsId(t: Tables, e: Event, id: nat) {
    exists m :: Adds(t, e, m) && m.id == id
  }

  /** Leaving a chat takes the one who leaves out of it, with their own deleted marks there,
      and nobody else; the chat and its messages go exactly when nobody is left. */
  lemma LeaveExactly(t: Tables, chat: ChatId, user: User)
    requires (chat, user) in t.members
    ensures var t' := LeftChat(t, chat, user);
      && (forall m :: m in t'.members <==> m in t.members && m != (chat, user))
      && (forall c :: c in t'.chats <==> c in t.chats && !(c == chat && LastMember(t, chat, user)))
      && (forall c :: c in t'.chats ==> t'.chats[c] == t.chats[c])
      && (!LastMember(t, chat, user) ==> t'.messages == t.messages && t'.keys == t.keys)
      && (LastMember(t, chat, user) ==> t'.messages == Kept(t.messages, ChatIds(t, chat)))
      && t'.nextId == t.nextId && t'.expiry == t.expiry
  {
    var left := Departed(t, chat, user);
    if LastMember(t, chat, user) {
      assert Members(left, chat) == {};
    } else {
      var other :| (chat, other) in t.members && other != user;
      assert other in Members(left, chat);
    }
    assert ChatIds(left, chat) == ChatIds(t, chat);
  }

  lemma StoredIsId(t: Tables, id: nat)
    ensures Stored(t, id) <==> id in Ids(t.messages)
  {
  }

  lemma StoredAppended(t: Tables, t': Tables, m: Message, id: nat)
    requires t'.messages == t.messages + [m]
    ensures Stored(t', id) <==> m.id == id || Stored(t, id)
  {
    assert forall o :: o in t'.messages <==> o == m || o in t.messages;
  }

  lemma PostAdds(t: Tables, d: Draft, to: set<User>, seconds: nat, at: real)
    requires d.chat in t.chats && ReplyExists(t, d.replyTo)
    ensures Adds(t, Post(d, to, seconds, at), RowOf(t, d, at, seconds))
  {
  }

  lemma AttachAdds(t: Tables, chat: ChatId, user: User, filename: string, at: real)
    requires chat in t.chats
    ensures Adds(t, Attach(chat, user, filename, at), MediaRow(t, chat, user, filename, at))
  {
  }

  lemma NoticeAdds(t: Tables, chat: ChatId, text: string, at: real)
    requires chat in t.chats
    ensures Adds(t, Notice(chat, text, at), NoticeRow(t, chat, text, at))
  {
  }

  lemma PostStep(t: Tables, d: Draft, to: set<User>, seconds: nat, at: real, id: nat)
    ensures var e := Post(d, to, seconds, at); Stored(Apply(t, e), id) <==> AddsId(t, e, id) || Stored(t, id)
  {
    var e, m := Post(d, to, seconds, at), RowOf(t, d, at, seconds);
    if d.chat in t.chats && ReplyExists(t, d.replyTo) {
      PostAdds(t, d, to, seconds, at);
      StoredAppended(t, Apply(t, e), m, id);
    }
  }

  lemma AttachStep(t: Tables, chat: ChatId, user: User, filename: string, at: real, id: nat)
    ensures var e := Attach(chat, user, filename, at); Stored(Apply(t, e), id) <==> AddsId(t, e, id) || Stored(t, id)
  {
    var e := Attach(chat, user, filename, at);
    if chat in t.chats {
      var m := MediaRow(t, chat, user, filename, at);
      AttachAdds(t, chat, user, filename, at);
      StoredAppended(t, Apply(t, e), m, id);
    }
  }

  lemma NoticeStep(t: Tables, chat: ChatId, text: string, at: real, id: nat)
    ensures var e := Notice(chat, text, at); Stored(Apply(t, e), id) <==> AddsId(t, e, id) || Stored(t, id)
  {
    var e, m := Notice(chat, text, at), NoticeRow(t, chat, text, at);
    if chat in t.chats {
      NoticeAdds(t, chat, text, at);
      StoredAppended(t, Apply(t, e), m, id);
    }
  }

  lemma EraseStep(t: Tables, e: Event, id: nat)
    requires Sound(t) && (e.DeleteForAll? || e.Remove? || e.Sweep? || e.Leave?)
    ensures Stored(Apply(t, e), id) <==> Stored(t, id) && !Erases(t, e, id)
  {
    StoredIsId(t, id);
    StoredIsId(Apply(t, e), id);
    match e
    case DeleteForAll(x, _) => KeptIds(t.messages, {x});
    case Remove(chat, _) => KeptIds(t.messages, ChatIds(t, chat));
    case Sweep(at) => KeptIds(t.messages, ExpiredIds(t, at));
    case Leave(chat, user, _) =>
      if (chat, user) in t.members {
        LeaveExactly(t, chat, user);
        KeptIds(t.messages, ChatIds(t, chat));
      }
  }

  lemma MarkStep(t: Tables, e: Event, id: nat)
    requires Marks(e)
    ensures Stored(Apply(t, e), id) <==> Stored(t, id)
  {
    StoredIsId(t, id);
    StoredIsId(Apply(t, e), id);
    match e
    case Reach(x, _, _) => StatusStep(t.messages, (m: Message) => m.id == x && m.status == Sent, Delivered);
    case Connect(user, _) => StatusStep(t.messages, Undelivered(t.members, user), Delivered);
    case Look(chat, user, fetch, _) => StatusStep(t.messages, Unseen(chat, user, fetch), Seen);
    case Retire(x, _) =>
      RetiredRows(t.messages, x);
      SameRowsSameIds(t.messages, Retired(t.messages, x));
  }

  lemma StatusStep(ms: seq<Message>, p: Message -> bool, status: Status)
    ensures Ids(WithStatus(ms, p, status)) == Ids(ms)
  {
    WithStatusRows(ms, p, status);
    SameRowsSameIds(ms, WithStatus(ms, p, status));
  }

  lemma StoredStep(t: Tables, e: Event, id: nat)
    requires Sound(t)
    ensures Stored(Apply(t, e), id) <==> AddsId(t, e, id) || (Stored(t, id) && !Erases(t, e, id))
  {
    match e
    case Post(d, to, seconds, at) => PostStep(t, d, to, seconds, at, id);
    case Attach(chat, user, filename, at) => AttachStep(t, chat, user, filename, at, id);
    case Notice(chat, text, at) => NoticeStep(t, chat, text, at, id);
    case _ =>
      if Marks(e) {
        MarkStep(t, e, id);
      } else if e.DeleteForAll? || e.Remove? || e.Sweep? || e.Leave? {
        EraseStep(t, e, id);
      }
  }

  ghost function Storing(es: seq<Event>, id: nat): nat -> bool {
    (i: nat) => i < |es| && AddsId(Run(es[..i]), es[i], id)
  }

  ghost function Erasing(es: seq<Event>, id: nat): nat -> bool {
    (i: nat) => i < |es| && Erases(Run(es[..i]), es[i], id)
  }

  ghost function Standing(es: seq<Event>, id: nat): nat -> bool {
    (i: nat) => i <= |es| && Stored(Run(es[..i]), id)
  }

  lemma StoredStepAt(es: seq<Event>, i: nat, id: nat)
    requires i < |es|
    ensures Switches(Standing(es, id), Storing(es, id), Erasing(es, id), i)
  {
    RunPrefix(es, i);
    RunKeepsSound(es[..i]);
    StoredStep(Run(es[..i]), es[i], id);
  }

  lemma StoredSwitches(es: seq<Event>, id: nat)
    ensures forall i: nat :: i < |es| ==> Switches(Standing(es, id), Storing(es, id), Erasing(es, id), i)
  {
    forall i: nat | i < |es|
      ensures Switches(Standing(es, id), Storing(es, id), Erasing(es, id), i)
    {
      StoredStepAt(es, i, id);
    }
  }

  lemma StoredEnds(es: seq<Event>, id: nat)
    ensures !Standing(es, id)(0) && (Standing(es, id)(|es|) <==> Stored(Run(es), id))
  {
    assert es[..0] == [] && es[..|es|] == es;
  }

  /** On any run, a message is stored if and only if an event stored it and none after that
      erased it: not deleted for everybody, not swept once expired, and neither its chat
      deleted nor left by its last member. */
  lemma StoredExactly(es: seq<Event>, id: nat)
    ensures Stored(Run(es), id) <==> HeldSince(Storing(es, id), Erasing(es, id), |es|)
  {
    StoredSwitches(es, id);
    StoredEnds(es, id);
    Since(Standing(es, id), Storing(es, id), Erasing(es, id), |es|);
  }

  /** A row before and after an event: its content stays, its reply stays while the message
      replied to is there, and only an event that says so marks it deleted. */
  ghost predicate RowAfter(t: Tables, e: Event, m: Message, m': Message) {
    && m' == m.(status := m'.status, softDeleted := m'.softDeleted, replyTo := m'.replyTo)
    && (m'.softDeleted <==> m.softDeleted || (e.Retire? && e.id == m.id))
    && Refers(Apply(t, e), m.replyTo, m'.replyTo)
  }

  ghost predicate Refers(t: Tables, meant: Option<nat>, is_: Option<nat>) {
    is_ == if meant.Some? && Stored(t, meant.value) then meant else None
  }

  lemma UnreferringRowAfter(t: Tables, e: Event, gone: set<nat>, m: Message)
    requires Sound(t) && Apply(t, e).messages == Kept(t.messages, gone) && m in t.messages && !e.Retire?
    ensures RowAfter(t, e, m, Unreferring(m, gone))
  {
    KeptIds(t.messages, gone);
    assert RowSound(t, m);
    if m.replyTo.Some? {
      StoredIsId(t, m.replyTo.value);
      StoredIsId(Apply(t, e), m.replyTo.value);
    }
  }

  lemma KeptRowAfter(t: Tables, e: Event, gone: set<nat>, m': Message)
    requires Sound(t) && Apply(t, e).messages == Kept(t.messages, gone) && m' in Apply(t, e).messages && !e.Retire?
    ensures exists m :: m in t.messages && RowAfter(t, e, m, m')
  {
    KeptRows(t.messages, gone);
    var m :| m in t.messages && m.id !in gone && m' == Unreferring(m, gone);
    UnreferringRowAfter(t, e, gone, m);
  }

  lemma EraseRowAfter(t: Tables, e: Event, m': Message)
    requires Sound(t) && (e.DeleteForAll? || e.Remove? || e.Sweep? || e.Leave?) && m' in Apply(t, e).messages
    ensures exists m :: m in t.messages && RowAfter(t, e, m, m')
  {
    match e
    case DeleteForAll(x, _) => KeptRowAfter(t, e, {x}, m');
    case Remove(chat, _) => KeptRowAfter(t, e, ChatIds(t, chat), m');
    case Sweep(at) => KeptRowAfter(t, e, ExpiredIds(t, at), m');
    case Leave(chat, user, _) =>
      if (chat, user) in t.members {
        LeaveExactly(t, chat, user);
        if LastMember(t, chat, user) {
          KeptRowAfter(t, e, ChatIds(t, chat), m');
        } else {
          SameRowAfter(t, e, m', m');
        }
      } else {
        SameRowAfter(t, e, m', m');
      }
  }

  lemma SameRowAfter(t: Tables, e: Event, m: Message, m': Message)
    requires Sound(t) && m in t.messages && m' == m.(status := m'.status, softDeleted := m'.softDeleted)
    requires m'.softDeleted <==> m.softDeleted || (e.Retire? && e.id == m.id)
    requires forall id :: Stored(t, id) ==> Stored(Apply(t, e), id)
    ensures RowAfter(t, e, m, m')
  {
    assert RowSound(t, m);
    if m.replyTo.Some? {
      StoredIsId(t, m.replyTo.value);
    }
  }

  lemma StatusRowAfter(t: Tables, e: Event, p: Message -> bool, status: Status, m': Message)
    requires Sound(t) && Marks(e) && Apply(t, e).messages == WithStatus(t.messages, p, status) && !e.Retire?
    requires m' in Apply(t, e).messages
    ensures exists m :: m in t.messages && RowAfter(t, e, m, m')
  {
    WithStatusRows(t.messages, p, status);
    var i :| 0 <= i < |t.messages| && Apply(t, e).messages[i] == m';
    forall id | Stored(t, id)
      ensures Stored(Apply(t, e), id)
    {
      MarkStep(t, e, id);
    }
    SameRowAfter(t, e, t.messages[i], m');
  }

  lemma {:induction false} RetiredRow(ms: seq<Message>, id: nat, i: nat)
    requires i < |ms|
    ensures |Retired(ms, id)| == |ms|
    ensures Retired(ms, id)[i] == ms[i].(softDeleted := ms[i].softDeleted || ms[i].id == id)
  {
    if i > 0 {
      RetiredRow(ms[1..], id, i - 1);
    } else {
      RetiredRows(ms, id);
    }
  }

  lemma RetireRowAfter(t: Tables, e: Event, m': Message)
    requires Sound(t) && e.Retire? && m' in Apply(t, e).messages
    ensures exists m :: m in t.messages && RowAfter(t, e, m, m')
  {
    RetiredRows(t.messages, e.id);
    var i :| 0 <= i < |t.messages| && Apply(t, e).messages[i] == m';
    RetiredRow(t.messages, e.id, i);
    forall id | Stored(t, id)
      ensures Stored(Apply(t, e), id)
    {
      MarkStep(t, e, id);
    }
    SameRowAfter(t, e, t.messages[i], m');
  }

  lemma MarkRowAfter(t: Tables, e: Event, m': Message)
    requires Sound(t) && Marks(e) && m' in Apply(t, e).messages
    ensures exists m :: m in t.messages && RowAfter(t, e, m, m')
  {
    match e
    case Reach(x, _, _) => StatusRowAfter(t, e, (m: Message) => m.id == x && m.status == Sent, Delivered, m');
    case Connect(user, _) => StatusRowAfter(t, e, Undelivered(t.members, user), Delivered, m');
    case Look(chat, user, fetch, _) =>
      if (chat, user) in t.members {
        StatusRowAfter(t, e, Unseen(chat, user, fetch), Seen, m');
      } else {
        SameRowAfter(t, e, m', m');
      }
    case Retire(_, _) => RetireRowAfter(t, e, m');
  }

  lemma NewRowAdded(t: Tables, e: Event, m': Message)
    requires (e.Post? || e.Attach? || e.Notice?) && m' in Apply(t, e).messages && m' !in t.messages
    ensures Adds(t, e, m')
  {
    match e
    case Post(d, to, seconds, at) =>
      if d.chat in t.chats && ReplyExists(t, d.replyTo) {
        PostAdds(t, d, to, seconds, at);
      }
    case Attach(chat, user, filename, at) =>
      if chat in t.chats {
        AttachAdds(t, chat, user, filename, at);
      }
    case Notice(chat, text, at) =>
      if chat in t.chats {
        NoticeAdds(t, chat, text, at);
      }
  }

  lemma AddRowAfter(t: Tables, e: Event, m': Message)
    requires Sound(t) && (e.Post? || e.Attach? || e.Notice?) && m' in Apply(t, e).messages
    ensures Adds(t, e, m') || (m' in t.messages && RowAfter(t, e, m', m'))
  {
    if m' in t.messages {
      forall id | Stored(t, id)
        ensures Stored(Apply(t, e), id)
      {
        StoredStep(t, e, id);
      }
      SameRowAfter(t, e, m', m');
    } else {
      NewRowAdded(t, e, m');
    }
  }

  lemma RowStep(t: Tables, e: Event, m': Message)
    requires Sound(t) && m' in Apply(t, e).messages
    ensures Adds(t, e, m') || exists m :: m in t.messages && RowAfter(t, e, m, m')
  {
    if Marks(e) {
      MarkRowAfter(t, e, m');
    } else if e.Post? || e.Attach? || e.Notice? {
      AddRowAfter(t, e, m');
    } else if e.DeleteForAll? || e.Remove? || e.Sweep? || e.Leave? {
      EraseRowAfter(t, e, m');
    } else {
      SameRowAfter(t, e, m', m');
    }
  }

  ghost predicate RetiredSince(es: seq<Event>, i: nat, id: nat) {
    exists j :: i < j < |es| && es[j].Retire? && es[j].id == id
  }

  /** The row is the one that the `i`-th event added. */
  ghost predicate IsRowOf(es: seq<Event>, i: nat, added: Message, m: Message) {
    && i < |es| && Adds(Run(es[..i]), es[i], added)
    && m == added.(status := m.status, softDeleted := m.softDeleted, replyTo := m.replyTo)
    && Refers(Run(es), added.replyTo, m.replyTo)
    && (m.softDeleted <==> RetiredSince(es, i, m.id))
  }

  lemma AddedNow(es: seq<Event>, m: Message)
    requires es != [] && Adds(Run(Init(es)), Last(es), m) && m in Run(es).messages
    ensures IsRowOf(es, |es| - 1, m, m)
  {
    assert es[..|es| - 1] == Init(es);
    RunKeepsSound(es);
    assert RowSound(Run(es), m);
    if m.replyTo.Some? {
      StoredIsId(Run(es), m.replyTo.value);
    }
  }

  lemma StillRowOf(es: seq<Event>, i: nat, added: Message, m: Message, m': Message)
    requires es != [] && IsRowOf(Init(es), i, added, m) && m in Run(Init(es)).messages
    requires RowAfter(Run(Init(es)), Last(es), m, m')
    ensures IsRowOf(es, i, added, m')
  {
    var so := Init(es);
    assert so[..i] == es[..i];
    RetiredSinceGrows(es, i, m.id);
    if added.replyTo.Some? && !Stored(Run(so), added.replyTo.value) {
      GoneForGood(so, i, added, added.replyTo.value);
      RunKeepsSound(so);
      StoredStep(Run(so), Last(es), added.replyTo.value);
    }
  }

  lemma RetiredSinceGrows(es: seq<Event>, i: nat, id: nat)
    requires i < |es| - 1
    ensures RetiredSince(es, i, id) <==> RetiredSince(Init(es), i, id) || (Last(es).Retire? && Last(es).id == id)
  {
    if RetiredSince(es, i, id) {
      var j :| i < j < |es| && es[j].Retire? && es[j].id == id;
      assert j < |es| - 1 ==> Init(es)[j] == es[j];
    }
    if RetiredSince(Init(es), i, id) {
      var j :| i < j < |es| - 1 && Init(es)[j].Retire? && Init(es)[j].id == id;
      assert es[j] == Init(es)[j];
    }
    if Last(es).Retire? && Last(es).id == id {
      assert es[|es| - 1] == Last(es);
    }
  }

  /** The id of a message that was there is not drawn again. */
  lemma {:induction false} IdsPass(es: seq<Event>, i: nat)
    requires i <= |es|
    ensures Run(es[..i]).nextId <= Run(es).nextId
    decreases |es|
  {
    if i == |es| {
      assert es[..i] == es;
    } else {
      IdsPass(Init(es), i);
      assert Init(es)[..i] == es[..i];
      NextIdStep(Run(Init(es)), Last(es));
    }
  }

  lemma NextIdStep(t: Tables, e: Event)
    ensures t.nextId <= Apply(t, e).nextId
  {
  }

  lemma GoneForGood(es: seq<Event>, i: nat, added: Message, id: nat)
    requires i < |es| && Adds(Run(es[..i]), es[i], added) && added.replyTo == Some(id)
    ensures id < Run(es).nextId && forall e :: !AddsId(Run(es), e, id)
  {
    RunKeepsSound(es[..i]);
    IdsPass(es, i);
    var m :| m in Run(es[..i]).messages && m.id == id;
    assert RowSound(Run(es[..i]), m);
  }

  /** Every stored row is as the event that added it said, but for its status: in particular it
      expires the chosen number of seconds after it was sent, or never; it replies to the same
      message as long as that is stored; and it is marked deleted exactly if an event since
      marked it. */
  lemma {:induction false} RowExactly(es: seq<Event>, m: Message)
    requires m in Run(es).messages
    ensures exists i, added :: IsRowOf(es, i, added, m)
  {
    var t, e := Run(Init(es)), Last(es);
    RunKeepsSound(Init(es));
    RowStep(t, e, m);
    if Adds(t, e, m) {
      AddedNow(es, m);
    } else {
      var o :| o in t.messages && RowAfter(t, e, o, m);
      RowExactly(Init(es), o);
      var i, added :| IsRowOf(Init(es), i, added, o);
      StillRowOf(es, i, added, o, m);
    }
  }

  /** An erased message does not come back: ids are never drawn again. */
  lemma {:induction false} ErasedForGood(es: seq<Event>, i: nat, id: nat)
    requires i < |es| && Erases(Run(es[..i]), es[i], id) && id < Run(es[..i]).nextId
    ensures !Stored(Run(es), id) && id < Run(es).nextId
    decreases |es|
  {
    var so := Init(es);
    RunKeepsSound(so);
    StoredStep(Run(so), Last(es), id);
    NextIdStep(Run(so), Last(es));
    if i == |es| - 1 {
      assert es[..i] == so;
    } else {
      assert so[..i] == es[..i];
      ErasedForGood(so, i, id);
    }
  }

  // ----------------------------------------- memberships and deleted marks

  ghost function InChat(es: seq<Event>, chat: ChatId, user: User): nat -> bool {
    (i: nat) => i <= |es| && (chat, user) in Run(es[..i]).members
  }

  ghost function Joining(es: seq<Event>, chat: ChatId, user: User): nat -> bool {
    (i: nat) => i < |es| && es[i].Join? && es[i].chat == chat && es[i].user == user && chat in Run(es[..i]).chats
  }

  ghost function Parting(es: seq<Event>, chat: ChatId, user: User): nat -> bool {
    (i: nat) => i < |es| && ((es[i].Leave? && es[i].user == user) || es[i].Remove?) && es[i].chat == chat
  }

  lemma MemberStep(t: Tables, e: Event, chat: ChatId, user: User)
    ensures (chat, user) in Apply(t, e).members <==>
      (e.Join? && e.chat == chat && e.user == user && chat in t.chats) ||
      ((chat, user) in t.members && !(((e.Leave? && e.user == user) || e.Remove?) && e.chat == chat))
  {
    if e.Leave? && (e.chat, e.user) in t.members {
      LeaveExactly(t, e.chat, e.user);
    }
  }

  lemma MemberStepAt(es: seq<Event>, i: nat, chat: ChatId, user: User)
    requires i < |es|
    ensures Switches(InChat(es, chat, user), Joining(es, chat, user), Parting(es, chat, user), i)
  {
    RunPrefix(es, i);
    MemberStep(Run(es[..i]), es[i], chat, user);
  }

  lemma MembersSwitches(es: seq<Event>, chat: ChatId, user: User)
    ensures forall i: nat :: i < |es| ==> Switches(InChat(es, chat, user), Joining(es, chat, user), Parting(es, chat, user), i)
  {
    forall i: nat | i < |es|
      ensures Switches(InChat(es, chat, user), Joining(es, chat, user), Parting(es, chat, user), i)
    {
      MemberStepAt(es, i, chat, user);
    }
  }

  lemma MembersEnds(es: seq<Event>, chat: ChatId, user: User)
    ensures !InChat(es, chat, user)(0) && (InChat(es, chat, user)(|es|) <==> (chat, user) in Run(es).members)
  {
    assert es[..0] == [] && es[..|es|] == es;
  }

  /** On any run, somebody is in a chat exactly if they joined it and since then have not left
      it and it has not been deleted. */
  lemma MembersExactly(es: seq<Event>, chat: ChatId, user: User)
    ensures (chat, user) in Run(es).members <==> HeldSince(Joining(es, chat, user), Parting(es, chat, user), |es|)
  {
    MembersSwitches(es, chat, user);
    MembersEnds(es, chat, user);
    Since(InChat(es, chat, user), Joining(es, chat, user), Parting(es, chat, user), |es|);
  }

  /** A user deletes a stored message for themselves. */
  ghost predicate Hides(t: Tables, e: Event, id: nat, user: User) {
    e.Hide? && e.id == id && e.user == user && Stored(t, id)
  }

  /** The mark goes with the message, or when the user leaves the message's chat. */
  ghost predicate Unhides(t: Tables, e: Event, id: nat, user: User) {
    Erases(t, e, id) ||
    (e.Leave? && e.user == user && (e.chat, user) in t.members && StoredIn(t, id, e.chat))
  }

  lemma LeaveHideStep(t: Tables, chat: ChatId, user: User, at: real, id: nat, who: User)
    requires Sound(t)
    ensures var e := Leave(chat, user, at);
      (id, who) in Apply(t, e).tombstones <==> (id, who) in t.tombstones && !Unhides(t, e, id, who)
  {
    var e := Leave(chat, user, at);
    if (chat, user) in t.members {
      LeaveExactly(t, chat, user);
      var left := Departed(t, chat, user);
      assert ChatIds(left, chat) == ChatIds(t, chat);
      assert LastMember(t, chat, user) <==> Members(left, chat) == {} by {
        if !LastMember(t, chat, user) {
          var other :| (chat, other) in t.members && other != user;
          assert other in Members(left, chat);
        }
      }
      assert StoredIn(t, id, chat) <==> id in ChatIds(t, chat);
    }
  }

  lemma HideStep(t: Tables, e: Event, id: nat, user: User)
    requires Sound(t)
    ensures (id, user) in Apply(t, e).tombstones <==>
      Hides(t, e, id, user) || ((id, user) in t.tombstones && !Unhides(t, e, id, user))
  {
    match e
    case Leave(chat, who, at) => LeaveHideStep(t, chat, who, at, id, user);
    case Hide(x, _, _) => StoredIsId(t, x);
    case _ =>
  }

  ghost function Marked(es: seq<Event>, id: nat, user: User): nat -> bool {
    (i: nat) => i <= |es| && (id, user) in Run(es[..i]).tombstones
  }

  ghost function Hiding(es: seq<Event>, id: nat, user: User): nat -> bool {
    (i: nat) => i < |es| && Hides(Run(es[..i]), es[i], id, user)
  }

  ghost function Unhiding(es: seq<Event>, id: nat, user: User): nat -> bool {
    (i: nat) => i < |es| && Unhides(Run(es[..i]), es[i], id, user)
  }

  lemma HideStepAt(es: seq<Event>, i: nat, id: nat, user: User)
    requires i < |es|
    ensures Switches(Marked(es, id, user), Hiding(es, id, user), Unhiding(es, id, user), i)
  {
    RunPrefix(es, i);
    RunKeepsSound(es[..i]);
    HideStep(Run(es[..i]), es[i], id, user);
  }

  lemma HiddenSwitches(es: seq<Event>, id: nat, user: User)
    ensures forall i: nat :: i < |es| ==> Switches(Marked(es, id, user), Hiding(es, id, user), Unhiding(es, id, user), i)
  {
    forall i: nat | i < |es|
      ensures Switches(Marked(es, id, user), Hiding(es, id, user), Unhiding(es, id, user), i)
    {
      HideStepAt(es, i, id, user);
    }
  }

  lemma HiddenEnds(es: seq<Event>, id: nat, user: User)
    ensures !Marked(es, id, user)(0) && (Marked(es, id, user)(|es|) <==> (id, user) in Run(es).tombstones)
  {
    assert es[..0] == [] && es[..|es|] == es;
  }

  /** On any run, a message is marked deleted for one user exactly if they deleted it for
      themselves and since then it has not been erased and they have not left its chat. */
  lemma HiddenExactly(es: seq<Event>, id: nat, user: User)
    ensures (id, user) in Run(es).tombstones <==> HeldSince(Hiding(es, id, user), Unhiding(es, id, user), |es|)
  {
    HiddenSwitches(es, id, user);
    HiddenEnds(es, id, user);
    Since(Marked(es, id, user), Hiding(es, id, user), Unhiding(es, id, user), |es|);
  }
}
