/** `sweep.go`: deleting expired messages for good changes nothing that anyone can see,
    because the read queries leave them out already. */
module Sweeping {
  import opened Common
  import opened MessageStore
  import opened MessageViews

  // -------------------------------------------------------- deleting in parts

  lemma {:induction false} KeptTwice(ms: seq<Message>, a: set<nat>, b: set<nat>)
    ensures Kept(Kept(ms, a), b) == Kept(ms, a + b)
  {
    if ms != [] {
      KeptTwice(ms[1..], a, b);
      if ms[0].id !in a {
        assert Kept(ms, a)[1..] == Kept(ms[1..], a);
      }
    }
  }

  lemma WithoutTwice(t: Tables, a: set<nat>, b: set<nat>)
    ensures Without(Without(t, a), b) == Without(t, a + b)
  {
    KeptTwice(t.messages, a, b);
    assert Without(Without(t, a), b).tombstones == Without(t, a + b).tombstones;
    assert Without(Without(t, a), b).keys == Without(t, a + b).keys;
  }

  lemma {:induction false} KeptAppend(ms: seq<Message>, m: Message, gone: set<nat>)
    requires m.id !in gone && Unreferring(m, gone) == m
    ensures Kept(ms + [m], gone) == Kept(ms, gone) + [m]
  {
    if ms == [] {
      assert ms + [m] == [m];
    } else {
      KeptAppend(ms[1..], m, gone);
      assert (ms + [m])[0] == ms[0] && (ms + [m])[1..] == ms[1..] + [m];
    }
  }

  lemma NothingToErase()
    ensures Without(NO_TABLES, {}) == NO_TABLES
  {
    assert Without(NO_TABLES, {}).keys == map[];
  }

  // ------------------------------------------- every statement, before or after

  lemma KeysCommute(was: map<(nat, User), Key>, id: nat, keys: map<User, Key>, gone: set<nat>)
    requires id !in gone
    ensures (map k | k in was && k.0 !in gone :: was[k]) + KeyTable(id, keys)
         == map k | k in was + KeyTable(id, keys) && k.0 !in gone :: (was + KeyTable(id, keys))[k]
  {
  }

  lemma InsertCommutes(t: Tables, m: Message, keys: map<User, Key>, gone: set<nat>)
    requires m.id !in gone && Unreferring(m, gone) == m
    ensures Inserted(Without(t, gone), m, keys) == Without(Inserted(t, m, keys), gone)
  {
    KeptAppend(t.messages, m, gone);
    KeysCommute(t.keys, m.id, keys, gone);
  }

  lemma {:induction false} StatusCommutes(ms: seq<Message>, p: Message -> bool, status: Status, gone: set<nat>)
    requires forall m :: m in ms ==> p(Unreferring(m, gone)) == p(m)
    ensures WithStatus(Kept(ms, gone), p, status) == Kept(WithStatus(ms, p, status), gone)
  {
    if ms != [] {
      assert ms[0] in ms;
      StatusCommutes(ms[1..], p, status, gone);
      if ms[0].id !in gone {
        assert Kept(ms, gone)[1..] == Kept(ms[1..], gone);
      }
    }
  }

  lemma {:induction false} RetireCommutes(ms: seq<Message>, id: nat, gone: set<nat>)
    ensures Retired(Kept(ms, gone), id) == Kept(Retired(ms, id), gone)
  {
    if ms != [] {
      RetireCommutes(ms[1..], id, gone);
      if ms[0].id !in gone {
        assert Kept(ms, gone)[1..] == Kept(ms[1..], gone);
      }
    }
  }

  lemma HideCommutes(t: Tables, id: nat, user: User, gone: set<nat>)
    ensures Hidden(Without(t, gone), id, user) == Without(Hidden(t, id, user), gone)
  {
    KeptIds(t.messages, gone);
    assert Hidden(Without(t, gone), id, user).tombstones == Without(Hidden(t, id, user), gone).tombstones;
  }

  lemma ChatIdsKept(t: Tables, chat: ChatId, gone: set<nat>)
    ensures ChatIds(Without(t, gone), chat) == ChatIds(t, chat) - gone
  {
    KeptRows(t.messages, gone);
    forall id | id in ChatIds(t, chat) - gone
      ensures id in ChatIds(Without(t, gone), chat)
    {
      var m :| m in t.messages && m.chat == chat && m.id == id;
      assert Unreferring(m, gone) in Kept(t.messages, gone);
    }
  }

  lemma DepartCommutes(t: Tables, chat: ChatId, user: User, gone: set<nat>)
    ensures Departed(Without(t, gone), chat, user) == Without(Departed(t, chat, user), gone)
  {
    ChatIdsKept(t, chat, gone);
    assert Departed(Without(t, gone), chat, user).tombstones == Without(Departed(t, chat, user), gone).tombstones;
  }

  lemma RemoveCommutes(t: Tables, chat: ChatId, gone: set<nat>)
    ensures Removed(Without(t, gone), chat) == Without(Removed(t, chat), gone)
  {
    var mine := ChatIds(t, chat);
    ChatIdsKept(t, chat, gone);
    WithoutTwice(t, gone, mine - gone);
    WithoutTwice(t, mine, gone);
    assert gone + (mine - gone) == mine + gone;
  }

  lemma LeaveCommutes(t: Tables, chat: ChatId, user: User, gone: set<nat>)
    ensures LeftChat(Without(t, gone), chat, user) == Without(LeftChat(t, chat, user), gone)
  {
    DepartCommutes(t, chat, user, gone);
    RemoveCommutes(Departed(t, chat, user), chat, gone);
    assert Members(Departed(Without(t, gone), chat, user), chat) == Members(Departed(t, chat, user), chat);
  }

  lemma DeleteCommutes(t: Tables, ids: set<nat>, gone: set<nat>)
    ensures Without(Without(t, gone), ids) == Without(Without(t, ids), gone)
  {
    WithoutTwice(t, gone, ids);
    WithoutTwice(t, ids, gone);
    assert gone + ids == ids + gone;
  }

  lemma ReplyExistsStill(t: Tables, replyTo: Option<nat>, gone: set<nat>)
    requires replyTo.Some? ==> replyTo.value !in gone
    ensures ReplyExists(Without(t, gone), replyTo) == ReplyExists(t, replyTo)
  {
    KeptIds(t.messages, gone);
  }

  lemma PostCommutes(t: Tables, d: Draft, to: set<User>, seconds: nat, at: real, gone: set<nat>)
    requires t.nextId !in gone && (d.replyTo.Some? ==> d.replyTo.value !in gone)
    ensures Persisted(Without(t, gone), d, to, seconds, at) == Without(Persisted(t, d, to, seconds, at), gone)
  {
    ReplyExistsStill(t, d.replyTo, gone);
    InsertCommutes(t, RowOf(t, d, at, seconds), KeysOf(d, to), gone);
  }

  /** The reply refers to no message in `gone`. */
  ghost predicate Avoids(e: Event, gone: set<nat>) {
    e.Post? && e.draft.replyTo.Some? ==> e.draft.replyTo.value !in gone
  }

  lemma AttachCommutes(t: Tables, chat: ChatId, user: User, filename: string, at: real, gone: set<nat>)
    requires t.nextId !in gone
    ensures var e := Attach(chat, user, filename, at); Apply(Without(t, gone), e) == Without(Apply(t, e), gone)
  {
    if chat in t.chats {
      InsertCommutes(t, MediaRow(t, chat, user, filename, at), map[], gone);
    }
  }

  lemma NoticeCommutes(t: Tables, chat: ChatId, text: string, at: real, gone: set<nat>)
    requires t.nextId !in gone
    ensures var e := Notice(chat, text, at); Apply(Without(t, gone), e) == Without(Apply(t, e), gone)
  {
    InsertCommutes(t, NoticeRow(t, chat, text, at), map[], gone);
  }

  lemma MarkCommutes(t: Tables, e: Event, gone: set<nat>)
    requires Marks(e)
    ensures Apply(Without(t, gone), e) == Without(Apply(t, e), gone)
  {
    match e
    case Reach(id, _, _) => StatusCommutes(t.messages, (m: Message) => m.id == id && m.status == Sent, Delivered, gone);
    case Connect(user, _) => StatusCommutes(t.messages, Undelivered(t.members, user), Delivered, gone);
    case Look(chat, user, fetch, _) => StatusCommutes(t.messages, Unseen(chat, user, fetch), Seen, gone);
    case Retire(id, _) => RetireCommutes(t.messages, id, gone);
  }

  lemma SettingCommutes(t: Tables, e: Event, gone: set<nat>)
    requires e.Join? || e.Configure? || e.Online? || e.Offline?
    ensures Apply(Without(t, gone), e) == Without(Apply(t, e), gone)
  {
  }

  /** Whatever an event does, it does the same with the rows in `gone` deleted before it or after. */
  lemma EventCommutes(t: Tables, e: Event, gone: set<nat>)
    requires !e.Sweep? && t.nextId !in gone && Avoids(e, gone)
    ensures Apply(Without(t, gone), e) == Without(Apply(t, e), gone)
  {
    match e
    case Post(d, to, seconds, at) => PostCommutes(t, d, to, seconds, at, gone);
    case Attach(chat, user, filename, at) => AttachCommutes(t, chat, user, filename, at, gone);
    case Notice(chat, text, at) => NoticeCommutes(t, chat, text, at, gone);
    case DeleteForAll(id, _) => DeleteCommutes(t, {id}, gone);
    case Hide(id, user, _) => HideCommutes(t, id, user, gone);
    case Leave(chat, user, _) => LeaveCommutes(t, chat, user, gone);
    case Remove(chat, _) => RemoveCommutes(t, chat, gone);
    case _ =>
      if Marks(e) {
        MarkCommutes(t, e, gone);
      } else {
        SettingCommutes(t, e, gone);
      }
  }

  // ----------------------------------------------------- runs without a sweep

  function Unswept(es: seq<Event>): seq<Event> {
    Filter(es, (e: Event) => !e.Sweep?)
  }

  lemma UnsweptGrows(es: seq<Event>)
    requires es != []
    ensures Unswept(es) == Unswept(Init(es)) + if Last(es).Sweep? then [] else [Last(es)]
  {
    assert es == Init(es) + [Last(es)];
    FilterAppend(Init(es), [Last(es)], (e: Event) => !e.Sweep?);
  }

  lemma RunGrows(es: seq<Event>, e: Event)
    ensures Run(es + [e]) == Apply(Run(es), e)
  {
    assert Init(es + [e]) == es;
  }

  /** The ids the sweeps of a run have deleted. */
  function Gone(es: seq<Event>): set<nat> {
    if es == [] then {} else
      Gone(Init(es)) + if Last(es).Sweep? then ExpiredIds(Run(Unswept(Init(es))), Last(es).at) else {}
  }

  /** Every id in the set belongs to a message, still stored or not, that has expired. */
  ghost predicate Due(t: Tables, ids: set<nat>, now: real) {
    forall id :: id in ids ==> id in DueIds(t, now)
  }

  ghost function DueIds(t: Tables, now: real): set<nat> {
    set id | id in t.expiry && t.expiry[id].Some? && t.expiry[id].value <= now
  }

  /** Nobody replies to a message that has expired by then. */
  ghost predicate RepliesLive(es: seq<Event>) {
    es != [] ==> RepliesLive(Init(es)) && Avoids(Last(es), DueIds(Run(Unswept(Init(es))), Last(es).at))
  }

  lemma ExpiryOnlyGrows(t: Tables, e: Event)
    requires Sound(t)
    ensures forall id :: id in t.expiry ==> id in Apply(t, e).expiry && Apply(t, e).expiry[id] == t.expiry[id]
  {
    assert t.nextId !in t.expiry;
  }

  lemma ExpiredAreDue(t: Tables, now: real)
    requires Sound(t)
    ensures Due(t, ExpiredIds(t, now), now)
  {
    forall id | id in ExpiredIds(t, now)
      ensures id in DueIds(t, now)
    {
      var m :| m in t.messages && Expired(m, now) && m.id == id;
      assert RowSound(t, m);
    }
  }

  lemma ExpiredKept(t: Tables, gone: set<nat>, now: real)
    ensures ExpiredIds(Without(t, gone), now) == ExpiredIds(t, now) - gone
  {
    KeptRows(t.messages, gone);
    forall id | id in ExpiredIds(t, now) - gone
      ensures id in ExpiredIds(Without(t, gone), now)
    {
      var m :| m in t.messages && Expired(m, now) && m.id == id;
      assert Unreferring(m, gone) in Kept(t.messages, gone);
    }
  }

  lemma SweepStep(t: Tables, gone: set<nat>, at: real)
    requires Sound(t) && Due(t, gone, at)
    ensures Swept(Without(t, gone), at) == Without(t, gone + ExpiredIds(t, at))
    ensures Due(t, gone + ExpiredIds(t, at), at)
  {
    var due := ExpiredIds(t, at);
    ExpiredAreDue(t, at);
    ExpiredKept(t, gone, at);
    WithoutTwice(t, gone, due - gone);
    assert gone + (due - gone) == gone + due;
  }

  lemma OtherStep(t: Tables, gone: set<nat>, e: Event)
    requires Sound(t) && Due(t, gone, e.at) && !e.Sweep? && Avoids(e, DueIds(t, e.at))
    ensures Apply(Without(t, gone), e) == Without(Apply(t, e), gone)
    ensures Due(Apply(t, e), gone, e.at)
  {
    assert t.nextId !in gone by { assert t.nextId !in DueIds(t, e.at); }
    EventCommutes(t, e, gone);
    ExpiryOnlyGrows(t, e);
  }

  lemma DueStays(t: Tables, ids: set<nat>, at: real, now: real)
    requires Due(t, ids, at) && at <= now
    ensures Due(t, ids, now)
  {
    assert DueIds(t, at) <= DueIds(t, now);
  }

  /** What the run has stored is the run without sweeps, less what they deleted. */
  ghost predicate Erased(es: seq<Event>, now: real) {
    Run(es) == Without(Run(Unswept(es)), Gone(es)) && Due(Run(Unswept(es)), Gone(es), now)
  }

  lemma EraseSweep(es: seq<Event>)
    requires es != [] && Last(es).Sweep? && Erased(Init(es), Last(es).at)
    ensures Erased(es, Last(es).at)
  {
    UnsweptGrows(es);
    assert Unswept(es) == Unswept(Init(es));
    RunKeepsSound(Unswept(es));
    SweepStep(Run(Unswept(es)), Gone(Init(es)), Last(es).at);
  }

  lemma EraseOther(es: seq<Event>)
    requires es != [] && !Last(es).Sweep? && Erased(Init(es), Last(es).at)
    requires Avoids(Last(es), DueIds(Run(Unswept(Init(es))), Last(es).at))
    ensures Erased(es, Last(es).at)
  {
    var before := Unswept(Init(es));
    UnsweptGrows(es);
    RunKeepsSound(before);
    RunGrows(before, Last(es));
    OtherStep(Run(before), Gone(Init(es)), Last(es));
    assert Gone(es) == Gone(Init(es));
  }

  /** A run with sweeps stores what the run without them stores, less expired rows. */
  lemma {:induction false} SweepsOnlyErase(es: seq<Event>, now: real)
    requires InTime(es, now) && RepliesLive(es)
    ensures Run(es) == Without(Run(Unswept(es)), Gone(es))
    ensures Due(Run(Unswept(es)), Gone(es), now)
  {
    if es == [] {
      NothingToErase();
    } else {
      SweepsOnlyErase(Init(es), Last(es).at);
      if Last(es).Sweep? {
        EraseSweep(es);
      } else {
        EraseOther(es);
      }
      DueStays(Run(Unswept(es)), Gone(es), Last(es).at, now);
    }
  }

  // ------------------------------------------------------------ what is shown

  /** The same messages, less the reply pointers into `ids`. */
  function Blanked(ms: seq<Message>, ids: set<nat>): seq<Message> {
    seq(|ms|, i requires 0 <= i < |ms| => Unreferring(ms[i], ids))
  }

  lemma FilterHead(m: Message, rest: seq<Message>, p: Message -> bool)
    ensures Filter([m] + rest, p) == if p(m) then [m] + Filter(rest, p) else Filter(rest, p)
  {
    assert ([m] + rest)[1..] == rest;
  }

  lemma BlankedHead(m: Message, rest: seq<Message>, ids: set<nat>)
    ensures Blanked([m] + rest, ids) == [Unreferring(m, ids)] + Blanked(rest, ids)
  {
  }

  lemma {:induction false} KeptThenFiltered(ms: seq<Message>, gone: set<nat>, p: Message -> bool, q: Message -> bool)
    requires forall m :: m in ms && m.id in gone ==> !p(m)
    requires forall m :: m in ms && m.id !in gone ==> p(m) == q(Unreferring(m, gone))
    ensures Filter(Kept(ms, gone), q) == Blanked(Filter(ms, p), gone)
  {
    if ms != [] {
      var m, rest := ms[0], ms[1..];
      assert m in ms && ms == [m] + rest;
      KeptThenFiltered(rest, gone, p, q);
      FilterHead(m, rest, p);
      if m.id !in gone {
        FilterHead(Unreferring(m, gone), Kept(rest, gone), q);
        BlankedHead(m, Filter(rest, p), gone);
      }
    }
  }

  lemma DueAreExpired(t: Tables, gone: set<nat>, now: real)
    requires Sound(t) && Due(t, gone, now)
    ensures forall m :: m in t.messages && m.id in gone ==> Expired(m, now)
  {
    forall m | m in t.messages && m.id in gone
      ensures Expired(m, now)
    {
      assert RowSound(t, m);
      assert m.id in DueIds(t, now);
    }
  }

  lemma ErasedHistory(t: Tables, gone: set<nat>, chat: ChatId, user: User, now: real)
    requires Sound(t) && Due(t, gone, now)
    ensures History(Without(t, gone), chat, user, now) == Blanked(History(t, chat, user, now), gone)
  {
    DueAreExpired(t, gone, now);
    KeptThenFiltered(t.messages, gone, Belongs(t, chat, user, now), Belongs(Without(t, gone), chat, user, now));
  }

  lemma ErasedUnread(t: Tables, gone: set<nat>, chat: ChatId, user: User, now: real)
    requires Sound(t) && Due(t, gone, now)
    ensures Unread(Without(t, gone), chat, user, now) == Unread(t, chat, user, now)
  {
    DueAreExpired(t, gone, now);
    KeptRows(t.messages, gone);
    var t' := Without(t, gone);
    forall m | m in t.messages && m.chat == chat && Counts(t, m, user, now)
      ensures m.id in Unread(t', chat, user, now)
    {
      var k := Unreferring(m, gone);
      assert k in t'.messages && k.chat == chat && Counts(t', k, user, now);
    }
  }

  lemma ErasedChatRows(t: Tables, gone: set<nat>, user: User, now: real)
    requires Sound(t) && Due(t, gone, now)
    ensures ChatRows(Without(t, gone), user, now) == ChatRows(t, user, now)
  {
    forall row: ChatRow
      ensures row in ChatRows(Without(t, gone), user, now) <==> row in ChatRows(t, user, now)
    {
      ErasedRow(t, gone, user, now, row);
    }
  }

  lemma ErasedDescription(t: Tables, gone: set<nat>, chat: ChatId, user: User, now: real)
    requires Sound(t) && Due(t, gone, now)
    ensures Described(Without(t, gone), chat, user, now) == Described(t, chat, user, now)
  {
    ErasedHistory(t, gone, chat, user, now);
    ErasedUnread(t, gone, chat, user, now);
    assert Members(Without(t, gone), chat) == Members(t, chat);
  }

  lemma ErasedRow(t: Tables, gone: set<nat>, user: User, now: real, row: ChatRow)
    requires Sound(t) && Due(t, gone, now)
    ensures row in ChatRows(Without(t, gone), user, now) <==> row in ChatRows(t, user, now)
  {
    WithoutKeepsSound(t, gone);
    ChatListExactly(t, user, now, row);
    ChatListExactly(Without(t, gone), user, now, row);
    ErasedDescription(t, gone, row.chat, user, now);
  }

  // ------------------------------------------------------------------- results

  /** One sweep, of any sound tables: at every later time everyone's chat list, unread
      counts and last messages included, is the same, and so is every history, except that
      replies to the deleted messages point nowhere. */
  lemma SweepIsUnobservable(t: Tables, at: real, chat: ChatId, user: User, now: real)
    requires Sound(t) && at <= now
    ensures ChatRows(Swept(t, at), user, now) == ChatRows(t, user, now)
    ensures Unread(Swept(t, at), chat, user, now) == Unread(t, chat, user, now)
    ensures History(Swept(t, at), chat, user, now) == Blanked(History(t, chat, user, now), ExpiredIds(t, at))
  {
    ExpiredAreDue(t, at);
    assert Due(t, ExpiredIds(t, at), now);
    ErasedHistory(t, ExpiredIds(t, at), chat, user, now);
    ErasedUnread(t, ExpiredIds(t, at), chat, user, now);
    ErasedChatRows(t, ExpiredIds(t, at), user, now);
  }

  lemma BlankedTwice(ms: seq<Message>, a: set<nat>, b: set<nat>)
    requires a <= b
    ensures Blanked(Blanked(ms, a), b) == Blanked(ms, b)
  {
  }

  lemma ShownAsUnswept(es: seq<Event>, chat: ChatId, user: User, now: real)
    requires InTime(es, now) && RepliesLive(es)
    ensures var t := Run(Unswept(es));
      && ChatRows(Run(es), user, now) == ChatRows(t, user, now)
      && Run(es).expiry == t.expiry
      && Blanked(History(Run(es), chat, user, now), DueIds(t, now)) == Blanked(History(t, chat, user, now), DueIds(t, now))
  {
    var t := Run(Unswept(es));
    SweepsOnlyErase(es, now);
    RunKeepsSound(Unswept(es));
    ErasedChatRows(t, Gone(es), user, now);
    ErasedHistory(t, Gone(es), chat, user, now);
    BlankedTwice(History(t, chat, user, now), Gone(es), DueIds(t, now));
  }

  /** Two runs that differ only in when sweeps ran, if at all, and in which nobody replies to
      an expired message, show everyone the same chat list and the same histories, up to
      reply pointers into expired messages. */
  lemma AnyScheduleShowsTheSame(es: seq<Event>, fs: seq<Event>, chat: ChatId, user: User, now: real)
    requires Unswept(es) == Unswept(fs)
    requires InTime(es, now) && RepliesLive(es)
    requires InTime(fs, now) && RepliesLive(fs)
    ensures ChatRows(Run(es), user, now) == ChatRows(Run(fs), user, now)
    ensures var due := DueIds(Run(es), now);
      Blanked(History(Run(es), chat, user, now), due) == Blanked(History(Run(fs), chat, user, now), due)
  {
    ShownAsUnswept(es, chat, user, now);
    ShownAsUnswept(fs, chat, user, now);
  }

  /** Why replies matter: a post after a sweep leaves the same rows as the post without the
      sweep, less the expired ones, exactly unless it replies to a message that was swept;
      then it is refused. */
  lemma ReplyNeedsItsMessage(t: Tables, swept: real, d: Draft, to: set<User>, seconds: nat, at: real)
    requires Sound(t) && d.chat in t.chats
    ensures Persisted(Swept(t, swept), d, to, seconds, at) == Without(Persisted(t, d, to, seconds, at), ExpiredIds(t, swept))
        <==> (d.replyTo.Some? ==> d.replyTo.value !in ExpiredIds(t, swept))
  {
    var gone := ExpiredIds(t, swept);
    ExpiredAreDue(t, swept);
    assert t.nextId !in gone by { assert t.nextId !in DueIds(t, swept); }
    if d.replyTo.Some? && d.replyTo.value in gone {
      SweptReplyRefused(t, gone, d, to, seconds, at);
    } else {
      PostCommutes(t, d, to, seconds, at, gone);
    }
  }

  /** A reply to a deleted message stores no row; without the deletion it would have. */
  lemma SweptReplyRefused(t: Tables, gone: set<nat>, d: Draft, to: set<User>, seconds: nat, at: real)
    requires Sound(t) && d.chat in t.chats && gone <= Ids(t.messages) && t.nextId !in gone
    requires d.replyTo.Some? && d.replyTo.value in gone
    ensures t.nextId !in Ids(Persisted(Without(t, gone), d, to, seconds, at).messages)
    ensures t.nextId in Ids(Without(Persisted(t, d, to, seconds, at), gone).messages)
  {
    KeptIds(t.messages, gone);
    assert !ReplyExists(Without(t, gone), d.replyTo);
    assert t.nextId !in Ids(t.messages) by { assert forall o :: o in t.messages ==> RowSound(t, o); }
    var stored := Persisted(t, d, to, seconds, at);
    assert RowOf(t, d, at, seconds) in stored.messages;
    KeptIds(stored.messages, gone);
  }
}
