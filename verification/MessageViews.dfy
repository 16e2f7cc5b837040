/** What the two read queries show of the message tables: a chat's history
    (`messages.go`) and the list of chats with their unread counts (`chats.go`). */
module MessageViews {
  import opened Common
  import opened MessageStore

  // ------------------------------------------------------------------- history

  predicate Visible(t: Tables, m: Message, user: User, now: real) {
    !m.softDeleted && (m.id, user) !in t.tombstones && !Expired(m, now)
  }

  function Belongs(t: Tables, chat: ChatId, user: User, now: real): Message -> bool {
    (m: Message) => m.chat == chat && Visible(t, m, user, now)
  }

  /** A chat's messages as one member may see them, oldest first. */
  function History(t: Tables, chat: ChatId, user: User, now: real): seq<Message> {
    Filter(t.messages, Belongs(t, chat, user, now))
  }

  /** A history row, joined with the reader's own wrapped key. */
  datatype Row = Row(message: Message, key: Option<Key>)

  function RowFor(t: Tables, m: Message, user: User): Row {
    Row(m, if (m.id, user) in t.keys then Some(t.keys[(m.id, user)]) else None)
  }

  function RowsFor(t: Tables, ms: seq<Message>, user: User): seq<Row> {
    seq(|ms|, i requires 0 <= i < |ms| => RowFor(t, ms[i], user))
  }

  /** The newest `limit` messages, oldest first. */
  function Window(ms: seq<Message>, limit: nat): seq<Message> {
    if |ms| <= limit then ms else ms[|ms| - limit..]
  }

  /** What a reader gets: the end of their history, with their own keys. */
  function HistoryRows(t: Tables, chat: ChatId, user: User, now: real, limit: nat): seq<Row> {
    RowsFor(t, Window(History(t, chat, user, now), limit), user)
  }

  function Reversed<T>(s: seq<T>): seq<T> {
    seq(|s|, i requires 0 <= i < |s| => s[|s| - 1 - i])
  }

  /** `ORDER BY id DESC LIMIT n`. */
  function NewestFirst(ms: seq<Message>, limit: nat): seq<Message> {
    var all := Reversed(ms);
    if |all| <= limit then all else all[..limit]
  }

  /** The order in which the rows are listed is the order of their ids. */
  lemma {:induction false} FilterAscends(ms: seq<Message>, p: Message -> bool)
    requires Ascending(ms)
    ensures Ascending(Filter(ms, p))
  {
    if ms != [] {
      FilterAscends(ms[1..], p);
      FilterMembers(ms[1..], p);
      var rest := Filter(ms[1..], p);
      forall j | 0 <= j < |rest|
        ensures ms[0].id < rest[j].id
      {
        assert rest[j] in rest;
      }
    }
  }

  // ------------------------------------------------------------- unread counts

  predicate Counts(t: Tables, m: Message, user: User, now: real) {
    Visible(t, m, user, now) && FromOther(m, user) && m.status != Seen
  }

  function UnreadIn(ms: seq<Message>, t: Tables, chat: ChatId, user: User, now: real): set<nat> {
    set m | m in ms && m.chat == chat && Counts(t, m, user, now) :: m.id
  }

  /** What "unread" means: the visible messages of others that nobody has seen. */
  function Unread(t: Tables, chat: ChatId, user: User, now: real): set<nat> {
    UnreadIn(t.messages, t, chat, user, now)
  }

  /** Looking at a chat marks as seen, for everybody, all it shows from others: of what
      another member had unread there, only the messages of the one who looked remain. */
  lemma LookClears(t: Tables, chat: ChatId, user: User, fetch: bool, other: User, now: real)
    requires (chat, user) in t.members
    ensures Unread(SeeAll(t, chat, user, fetch), chat, other, now)
         == set m | m in t.messages && m.chat == chat && Counts(t, m, other, now) && m.sender == Some(user) :: m.id
    ensures Unread(SeeAll(t, chat, user, fetch), chat, user, now) == {}
  {
    var p := Unseen(chat, user, fetch);
    WithStatusRows(t.messages, p, Seen);
    var t' := SeeAll(t, chat, user, fetch);
    forall id | id in (set m | m in t.messages && m.chat == chat && Counts(t, m, other, now) && m.sender == Some(user) :: m.id)
      ensures id in Unread(t', chat, other, now)
    {
      var m :| m in t.messages && m.chat == chat && Counts(t, m, other, now) && m.sender == Some(user) && m.id == id;
      var i :| 0 <= i < |t.messages| && t.messages[i] == m;
      assert t'.messages[i] == m && m in t'.messages;
    }
    forall m | m in t'.messages && m.chat == chat && m.status != Seen && !m.softDeleted
      ensures m in t.messages && m.sender == Some(user)
    {
      var i :| 0 <= i < |t'.messages| && t'.messages[i] == m;
      assert t.messages[i] in t.messages;
    }
  }

  // ------------------------------------------------------------- the chat list

  /** The columns that GetChats takes from a chat's last message. */
  datatype Preview = Preview(content: string, createdAt: real, sender: Option<User>, isEncrypted: bool, kind: Kind)

  function PreviewOf(m: Message): Preview {
    Preview(m.content, m.createdAt, m.sender, m.isEncrypted, m.kind)
  }

  datatype ChatRow = ChatRow(chat: ChatId, members: set<User>, unread: nat, last: Option<Preview>)

  function MyChats(t: Tables, user: User): set<ChatId> {
    set m | m in t.members && m.1 == user :: m.0
  }

  /** `stats`: one pass over the messages, grouped by chat. */
  function Stats(ms: seq<Message>, t: Tables, user: User, now: real): map<ChatId, nat> {
    if ms == [] then map[] else
      var m := Last(ms);
      var stats := Stats(Init(ms), t, user, now);
      if m.chat in MyChats(t, user) && Visible(t, m, user, now) then
        stats[m.chat := (if m.chat in stats then stats[m.chat] else 0) + (if Counts(t, m, user, now) then 1 else 0)]
      else stats
  }

  /** `last_msg`: of every chat the visible message with the greatest id. */
  function LastMessages(ms: seq<Message>, t: Tables, user: User, now: real): map<ChatId, Message> {
    if ms == [] then map[] else
      var m := Last(ms);
      var last := LastMessages(Init(ms), t, user, now);
      if m.chat in MyChats(t, user) && Visible(t, m, user, now) && (m.chat in last ==> last[m.chat].id < m.id) then
        last[m.chat := m]
      else last
  }

  /** One chat joined with one of its members, its statistics and its last message. */
  datatype Joined = Joined(chat: ChatId, member: User, unread: nat, last: Option<Preview>)

  function Joins(t: Tables, user: User, now: real): set<Joined> {
    var stats := Stats(t.messages, t, user, now);
    var last := LastMessages(t.messages, t, user, now);
    set m | m in t.members && m.0 in t.chats && m.0 in MyChats(t, user) && !t.chats[m.0].softDeleted ::
      Joined(m.0, m.1, if m.0 in stats then stats[m.0] else 0,
             if m.0 in last then Some(PreviewOf(last[m.0])) else None)
  }

  predicate SameGroup(a: Joined, b: Joined) { a.chat == b.chat && a.unread == b.unread && a.last == b.last }

  /** GetChats: the joined rows, grouped. */
  function ChatRows(t: Tables, user: User, now: real): set<ChatRow> {
    var joins := Joins(t, user, now);
    set j | j in joins ::
      ChatRow(j.chat, (set k | k in joins && SameGroup(j, k) :: k.member), j.unread, j.last)
  }

  // ----------------------------------------------------------- what it reports

  lemma {:induction false} StatsCount(ms: seq<Message>, t: Tables, user: User, now: real, chat: ChatId)
    requires Ascending(ms) && chat in MyChats(t, user)
    ensures var stats := Stats(ms, t, user, now);
      (if chat in stats then stats[chat] else 0) == |UnreadIn(ms, t, chat, user, now)|
  {
    if ms == [] {
      assert UnreadIn(ms, t, chat, user, now) == {};
    } else {
      StatsCount(Init(ms), t, user, now, chat);
      UnreadGrows(ms, t, chat, user, now);
    }
  }

  lemma UnreadGrows(ms: seq<Message>, t: Tables, chat: ChatId, user: User, now: real)
    requires ms != [] && Ascending(ms)
    ensures |UnreadIn(ms, t, chat, user, now)|
         == |UnreadIn(Init(ms), t, chat, user, now)| + if Last(ms).chat == chat && Counts(t, Last(ms), user, now) then 1 else 0
  {
    var before, m := Init(ms), Last(ms);
    assert forall o :: o in ms <==> o in before || o == m;
    assert forall o :: o in before ==> o.id < m.id;
    if m.chat == chat && Counts(t, m, user, now) {
      assert UnreadIn(ms, t, chat, user, now) == UnreadIn(before, t, chat, user, now) + {m.id};
    } else {
      assert UnreadIn(ms, t, chat, user, now) == UnreadIn(before, t, chat, user, now);
    }
  }

  /** What a list of messages ends with, if it is not empty. */
  function Final(ms: seq<Message>): Option<Message> {
    if ms == [] then None else Some(Last(ms))
  }

  lemma FinalGrows(ms: seq<Message>, p: Message -> bool)
    requires ms != []
    ensures Final(Filter(ms, p)) == if p(Last(ms)) then Some(Last(ms)) else Final(Filter(Init(ms), p))
  {
    assert ms == Init(ms) + [Last(ms)];
    FilterAppend(Init(ms), [Last(ms)], p);
    if !p(Last(ms)) {
      assert Filter(ms, p) == Filter(Init(ms), p);
    }
  }

  /** What came before the last message has a smaller id. */
  lemma FinalIsEarlier(ms: seq<Message>, p: Message -> bool)
    requires ms != [] && Ascending(ms)
    ensures Final(Filter(Init(ms), p)).Some? ==> Final(Filter(Init(ms), p)).value.id < Last(ms).id
  {
    FilterMembers(Init(ms), p);
    var before := Filter(Init(ms), p);
    if before != [] {
      assert Last(before) in before;
    }
  }

  lemma {:induction false} LastIsFinal(ms: seq<Message>, t: Tables, user: User, now: real, chat: ChatId)
    requires Ascending(ms) && chat in MyChats(t, user)
    ensures var last := LastMessages(ms, t, user, now);
      Final(Filter(ms, Belongs(t, chat, user, now))) == if chat in last then Some(last[chat]) else None
  {
    if ms != [] {
      var p := Belongs(t, chat, user, now);
      LastIsFinal(Init(ms), t, user, now, chat);
      FinalGrows(ms, p);
      FinalIsEarlier(ms, p);
    }
  }

  /** What GetChats should report about one chat. */
  function Described(t: Tables, chat: ChatId, user: User, now: real): ChatRow {
    var final := Final(History(t, chat, user, now));
    ChatRow(chat, Members(t, chat), |Unread(t, chat, user, now)|, if final.Some? then Some(PreviewOf(final.value)) else None)
  }

  lemma JoinsAreDescribed(t: Tables, user: User, now: real, j: Joined)
    requires Sound(t)
    ensures j in Joins(t, user, now) <==>
      (j.chat in t.chats && j.chat in MyChats(t, user) && !t.chats[j.chat].softDeleted && (j.chat, j.member) in t.members &&
       var d := Described(t, j.chat, user, now); j.unread == d.unread && j.last == d.last)
  {
    if j.chat in MyChats(t, user) {
      StatsCount(t.messages, t, user, now, j.chat);
      LastIsFinal(t.messages, t, user, now, j.chat);
      var stats := Stats(t.messages, t, user, now);
      var last := LastMessages(t.messages, t, user, now);
      var m := (j.chat, j.member);
      if m in t.members && j.chat in t.chats && !t.chats[j.chat].softDeleted {
        assert Joined(m.0, m.1, if m.0 in stats then stats[m.0] else 0,
                      if m.0 in last then Some(PreviewOf(last[m.0])) else None) in Joins(t, user, now);
      }
    }
  }

  ghost predicate Lists(t: Tables, user: User, chat: ChatId) {
    chat in t.chats && !t.chats[chat].softDeleted && (chat, user) in t.members
  }

  /** GetChats lists exactly the user's own chats, each in one row, with the direct count of
      unread messages, whatever the number of members, and the message its history ends with. */
  lemma ChatListExactly(t: Tables, user: User, now: real, row: ChatRow)
    requires Sound(t)
    ensures row in ChatRows(t, user, now) <==>
      Lists(t, user, row.chat) && row == Described(t, row.chat, user, now)
  {
    var joins := Joins(t, user, now);
    forall j | j in joins
      ensures Lists(t, user, j.chat)
      ensures ChatRow(j.chat, (set k | k in joins && SameGroup(j, k) :: k.member), j.unread, j.last)
           == Described(t, j.chat, user, now)
    {
      JoinsAreDescribed(t, user, now, j);
      GroupIsMembers(t, user, now, j);
    }
    if Lists(t, user, row.chat) && row == Described(t, row.chat, user, now) {
      var j := Joined(row.chat, user, row.unread, row.last);
      assert row.chat in MyChats(t, user) by { assert (row.chat, user) in t.members; }
      JoinsAreDescribed(t, user, now, j);
      assert j in joins;
    }
  }

  lemma GroupIsMembers(t: Tables, user: User, now: real, j: Joined)
    requires Sound(t) && j in Joins(t, user, now)
    ensures (set k | k in Joins(t, user, now) && SameGroup(j, k) :: k.member) == Members(t, j.chat)
  {
    var joins := Joins(t, user, now);
    JoinsAreDescribed(t, user, now, j);
    forall u | u in Members(t, j.chat)
      ensures u in (set k | k in joins && SameGroup(j, k) :: k.member)
    {
      var k := j.(member := u);
      JoinsAreDescribed(t, user, now, k);
      assert k in joins && SameGroup(j, k);
    }
    forall k | k in joins && SameGroup(j, k)
      ensures k.member in Members(t, j.chat)
    {
      JoinsAreDescribed(t, user, now, k);
      assert (j.chat, k.member) in t.members;
    }
  }

  // -------------------------------------------------- deleted for oneself

  /** The row may be shown to this reader. */
  ghost predicate Showable(t: Tables, chat: ChatId, user: User, now: real, m: Message) {
    m in t.messages && m.chat == chat && !m.softDeleted && (m.id, user) !in t.tombstones &&
    (m.expiresAt.Some? ==> now < m.expiresAt.value)
  }

  /** A history holds, by ascending id, exactly the chat's rows that are not marked deleted, that
      the reader has not deleted for themselves, and whose time has not come. */
  lemma HistoryExactly(t: Tables, chat: ChatId, user: User, now: real)
    requires Sound(t)
    ensures Ascending(History(t, chat, user, now))
    ensures forall m :: m in History(t, chat, user, now) <==> Showable(t, chat, user, now, m)
  {
    FilterAscends(t.messages, Belongs(t, chat, user, now));
    FilterMembers(t.messages, Belongs(t, chat, user, now));
  }

  lemma RowsAreShowable(t: Tables, chat: ChatId, user: User, now: real, limit: nat)
    ensures forall i :: 0 <= i < |HistoryRows(t, chat, user, now, limit)| ==>
      Showable(t, chat, user, now, HistoryRows(t, chat, user, now, limit)[i].message)
  {
    FilterMembers(t.messages, Belongs(t, chat, user, now));
    var shown := Window(History(t, chat, user, now), limit);
    assert forall i :: 0 <= i < |shown| ==> shown[i] in History(t, chat, user, now);
  }

  /** Unread is what the history holds of others that nobody has seen. */
  lemma UnreadExactly(t: Tables, chat: ChatId, user: User, now: real, id: nat)
    ensures id in Unread(t, chat, user, now) <==>
      exists m :: m in History(t, chat, user, now) && m.id == id && m.sender != Some(user) && m.status != Seen
  {
    FilterMembers(t.messages, Belongs(t, chat, user, now));
    if id in Unread(t, chat, user, now) {
      var m :| m in t.messages && m.chat == chat && Counts(t, m, user, now) && m.id == id;
      assert m in History(t, chat, user, now);
    }
  }

  function OtherThan(id: nat): Message -> bool { (m: Message) => m.id != id }

  lemma HideChangesOwn(t: Tables, id: nat, user: User, chat: ChatId, now: real)
    requires id in Ids(t.messages)
    ensures History(Hidden(t, id, user), chat, user, now) == Filter(History(t, chat, user, now), OtherThan(id))
  {
    FilterTwice(t.messages, Belongs(t, chat, user, now), OtherThan(id), Belongs(Hidden(t, id, user), chat, user, now));
  }

  lemma HideLeavesOthers(t: Tables, id: nat, user: User, chat: ChatId, other: User, now: real)
    requires other != user
    ensures History(Hidden(t, id, user), chat, other, now) == History(t, chat, other, now)
    ensures Unread(Hidden(t, id, user), chat, other, now) == Unread(t, chat, other, now)
  {
    FilterSame(t.messages, Belongs(Hidden(t, id, user), chat, other, now), Belongs(t, chat, other, now));
    assert forall m :: Counts(Hidden(t, id, user), m, other, now) == Counts(t, m, other, now);
  }

  lemma HideClearsUnread(t: Tables, id: nat, user: User, chat: ChatId, now: real)
    requires id in Ids(t.messages)
    ensures Unread(Hidden(t, id, user), chat, user, now) == Unread(t, chat, user, now) - {id}
  {
    HideChangesOwn(t, id, user, chat, now);
    FilterMembers(History(t, chat, user, now), OtherThan(id));
    forall x
      ensures x in Unread(Hidden(t, id, user), chat, user, now) <==> x in Unread(t, chat, user, now) - {id}
    {
      UnreadExactly(t, chat, user, now, x);
      UnreadExactly(Hidden(t, id, user), chat, user, now, x);
    }
  }

  /** Deleting a message for oneself takes it out of one's own history, which otherwise keeps its
      order, and out of one's own count of unread messages; and it changes no view of anybody
      else, down to the rows of their chat list. */
  lemma HideExactly(t: Tables, id: nat, user: User, chat: ChatId, now: real)
    requires Sound(t) && id in Ids(t.messages)
    ensures var t' := Hidden(t, id, user);
      && History(t', chat, user, now) == Filter(History(t, chat, user, now), OtherThan(id))
      && Unread(t', chat, user, now) == Unread(t, chat, user, now) - {id}
      && (forall other :: other != user ==> History(t', chat, other, now) == History(t, chat, other, now))
      && (forall other :: other != user ==> Unread(t', chat, other, now) == Unread(t, chat, other, now))
      && (forall other :: other != user ==> ChatRows(t', other, now) == ChatRows(t, other, now))
  {
    HideChangesOwn(t, id, user, chat, now);
    HideClearsUnread(t, id, user, chat, now);
    forall other | other != user
      ensures History(Hidden(t, id, user), chat, other, now) == History(t, chat, other, now)
      ensures Unread(Hidden(t, id, user), chat, other, now) == Unread(t, chat, other, now)
      ensures ChatRows(Hidden(t, id, user), other, now) == ChatRows(t, other, now)
    {
      HideLeavesOthers(t, id, user, chat, other, now);
      HideLeavesList(t, id, user, other, now);
    }
  }

  lemma HideLeavesList(t: Tables, id: nat, user: User, other: User, now: real)
    requires Sound(t) && other != user
    ensures ChatRows(Hidden(t, id, user), other, now) == ChatRows(t, other, now)
  {
    var t' := Hidden(t, id, user);
    HideKeepsSound(t, id, user);
    forall row
      ensures row in ChatRows(t', other, now) <==> row in ChatRows(t, other, now)
    {
      ChatListExactly(t, other, now, row);
      ChatListExactly(t', other, now, row);
      HideLeavesOthers(t, id, user, row.chat, other, now);
      assert Members(t', row.chat) == Members(t, row.chat);
    }
  }

  /** On any run, a message is in somebody's history exactly if it is stored there, not marked
      deleted, not expired, and they have not deleted it for themselves since they last left
      the chat. */
  lemma ShownExactly(es: seq<Event>, m: Message, chat: ChatId, user: User, now: real)
    ensures m in History(Run(es), chat, user, now) <==>
      m in Run(es).messages && m.chat == chat && !m.softDeleted && (m.expiresAt.Some? ==> now < m.expiresAt.value) &&
      !HeldSince(Hiding(es, m.id, user), Unhiding(es, m.id, user), |es|)
  {
    RunKeepsSound(es);
    HistoryExactly(Run(es), chat, user, now);
    HiddenExactly(es, m.id, user);
  }

  /** The user leaves the chat that the message is in. */
  ghost predicate LeavesIts(es: seq<Event>, j: nat, id: nat, user: User) {
    j < |es| && es[j].Leave? && es[j].user == user && StoredIn(Run(es[..j]), id, es[j].chat)
  }

  lemma UnhidingErases(es: seq<Event>, j: nat, id: nat, user: User)
    requires Unhiding(es, id, user)(j) && !LeavesIts(es, j, id, user)
    ensures j < |es| && Erases(Run(es[..j]), es[j], id)
  {
  }

  lemma HidingNow(es: seq<Event>, i: nat, id: nat, user: User)
    requires i < |es| && Hides(Run(es[..i]), es[i], id, user)
    ensures Hiding(es, id, user)(i) && Stored(Run(es[..i]), id)
  {
  }

  lemma UnhiddenIsGone(es: seq<Event>, i: nat, j: nat, id: nat, user: User)
    requires i < j < |es| && Stored(Run(es[..i]), id) && Unhiding(es, id, user)(j) && !LeavesIts(es, j, id, user)
    ensures !Stored(Run(es), id)
  {
    UnhidingErases(es, j, id, user);
    DrawnBefore(es, i, j, id);
    ErasedForGood(es, j, id);
  }

  /** Once deleted, the mark stands or the message is gone. */
  lemma MarkedOrGone(es: seq<Event>, i: nat, id: nat, user: User)
    requires i < |es| && Hides(Run(es[..i]), es[i], id, user)
    requires forall j :: i < j < |es| ==> !LeavesIts(es, j, id, user)
    ensures HeldSince(Hiding(es, id, user), Unhiding(es, id, user), |es|) || !Stored(Run(es), id)
  {
    HidingNow(es, i, id, user);
    if j: nat :| i < j < |es| && Unhiding(es, id, user)(j) {
      UnhiddenIsGone(es, i, j, id, user);
    }
  }

  lemma DrawnBefore(es: seq<Event>, i: nat, j: nat, id: nat)
    requires i <= j <= |es| && Stored(Run(es[..i]), id)
    ensures id < Run(es[..j]).nextId
  {
    RunKeepsSound(es[..i]);
    var m :| m in Run(es[..i]).messages && m.id == id;
    assert RowSound(Run(es[..i]), m);
    assert es[..j][..i] == es[..i];
    IdsPass(es[..j], i);
  }

  /** Once somebody has deleted a message for themselves, no view of theirs shows it again on
      any run, unless they leave the chat. */
  lemma HiddenForGood(es: seq<Event>, i: nat, id: nat, user: User, chat: ChatId, now: real)
    requires i < |es| && Hides(Run(es[..i]), es[i], id, user)
    requires forall j :: i < j < |es| ==> !LeavesIts(es, j, id, user)
    ensures forall m :: m in History(Run(es), chat, user, now) ==> m.id != id
    ensures id !in Unread(Run(es), chat, user, now)
  {
    MarkedOrGone(es, i, id, user);
    forall m | m in History(Run(es), chat, user, now)
      ensures m.id != id
    {
      ShownExactly(es, m, chat, user, now);
    }
    UnreadExactly(Run(es), chat, user, now, id);
  }

  // ------------------------------------------------ why the counts come first

  function Pairs(ids: set<nat>, users: set<User>): set<(nat, User)> {
    set id, u | id in ids && u in users :: (id, u)
  }

  /** What the count would be next to the join with the members. */
  function JoinFirst(t: Tables, chat: ChatId, user: User, now: real): nat {
    |Pairs(Unread(t, chat, user, now), Members(t, chat))|
  }

  lemma PairsSplit(ids: set<nat>, id: nat, users: set<User>)
    requires id in ids
    ensures |Pairs(ids, users)| == |Pairs(ids - {id}, users)| + |Pairs({id}, users)|
  {
    var a, b := Pairs(ids - {id}, users), Pairs({id}, users);
    assert Pairs(ids, users) == a + b;
    assert a !! b;
  }

  lemma {:induction false} PairsMultiply(ids: set<nat>, users: set<User>)
    ensures |Pairs(ids, users)| == |ids| * |users|
  {
    if ids == {} {
      assert Pairs(ids, users) == {};
    } else {
      var id :| id in ids;
      PairsMultiply(ids - {id}, users);
      OneRow(id, users);
      PairsSplit(ids, id, users);
      OneMoreTimes(|ids - {id}|, |users|);
    }
  }

  lemma OneMoreTimes(a: nat, b: nat)
    ensures (a + 1) * b == a * b + b
  {
  }

  lemma {:induction false} OneRow(id: nat, users: set<User>)
    ensures |Pairs({id}, users)| == |users|
  {
    if users == {} {
      assert Pairs({id}, users) == {};
    } else {
      var u :| u in users;
      OneRow(id, users - {u});
      assert Pairs({id}, users) == Pairs({id}, users - {u}) + {(id, u)};
    }
  }

  /** Counting after the join multiplies by the number of members, so it is right only when
      there is nothing to count or a single member. */
  lemma JoinFirstIsWrong(t: Tables, chat: ChatId, user: User, now: real)
    ensures JoinFirst(t, chat, user, now) == |Unread(t, chat, user, now)| * |Members(t, chat)|
    ensures JoinFirst(t, chat, user, now) == |Unread(t, chat, user, now)|
        <==> (Unread(t, chat, user, now) == {} || |Members(t, chat)| == 1)
  {
    PairsMultiply(Unread(t, chat, user, now), Members(t, chat));
    OnlyOneKeeps(|Unread(t, chat, user, now)|, |Members(t, chat)|);
  }

  lemma OnlyOneKeeps(a: nat, b: nat)
    ensures a * b == a <==> a == 0 || b == 1
  {
    if a > 0 {
      assert b == 0 ==> a * b == 0;
      assert b > 1 ==> a * b >= a * 2;
    }
  }
}
