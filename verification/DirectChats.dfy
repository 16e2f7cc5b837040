/** One ordinary conversation per pair of people (`chats.go`, `deletions.go`).

    Each statement outside a transaction and each commit is one step. A transaction's rows
    are invisible until it commits, except that the unique index makes a second claim of a
    pair wait for the first; accounts named in an open claim stay as they are until then. */
module DirectChats {
  import opened Common
  import opened Usernames

  type ChatId = nat

  datatype Chat = Chat(isGroup: bool, isSecret: bool, softDeleted: bool)

  datatype PairRow = PairRow(chat: ChatId, a: Name, b: Name)

  datatype Tables = Tables(
    users: set<Name>,
    chats: map<ChatId, Chat>,
    members: set<(ChatId, Name)>,
    pairs: set<PairRow>)

  function Members(t: Tables, chat: ChatId): set<Name> {
    set m | m in t.members && m.0 == chat :: m.1
  }

  // -------------------------------------------------------------- statements

  const MAX_GROUP_MEMBERS: nat := 200

  function Ordered(x: Name, y: Name): (Name, Name) {
    if Less(y, x) then (y, x) else (x, y)
  }

  ghost predicate HasPair(t: Tables, a: Name, b: Name) {
    exists r :: r in t.pairs && r.a == a && r.b == b
  }

  /** A pair, its names in order, that has no conversation yet. */
  ghost predicate NewPair(t: Tables, a: Name, b: Name) {
    Less(a, b) && !HasPair(t, a, b)
  }

  /** The chat of a pair's row. */
  ghost function ChatOf(t: Tables, a: Name, b: Name): ChatId
    requires HasPair(t, a, b)
  {
    (var r :| r in t.pairs && r.a == a && r.b == b; r).chat
  }

  predicate Visible(t: Tables, chat: ChatId) {
    chat in t.chats && !t.chats[chat].softDeleted
  }

  function Created(t: Tables, chat: ChatId, a: Name, b: Name): Tables {
    t.(chats := t.chats[chat := Chat(false, false, false)],
       members := t.members + {(chat, a), (chat, b)},
       pairs := t.pairs + {PairRow(chat, a, b)})
  }

  function WithChat(t: Tables, chat: ChatId, kind: Chat, who: set<Name>): Tables {
    t.(chats := t.chats[chat := kind], members := t.members + (set u | u in who :: (chat, u)))
  }

  /** ON DELETE CASCADE. */
  function ChatDeleted(t: Tables, chat: ChatId): Tables {
    t.(chats := t.chats - {chat},
       members := (set m | m in t.members && m.0 != chat),
       pairs := (set r | r in t.pairs && r.chat != chat))
  }

  function Retired(t: Tables, chat: ChatId): Tables {
    if chat in t.chats then t.(chats := t.chats[chat := t.chats[chat].(softDeleted := true)]) else t
  }

  /** Leaving frees the pair; the last to leave takes the chat along. */
  function Left(t: Tables, chat: ChatId, user: Name): Tables {
    var t' := t.(members := t.members - {(chat, user)});
    if Members(t', chat) == {} then ChatDeleted(t', chat)
    else t'.(pairs := (set r | r in t.pairs && r.chat != chat))
  }

  function MemberAdded(t: Tables, chat: ChatId, user: Name): Tables {
    if chat in t.chats && user in t.users then t.(members := t.members + {(chat, user)}) else t
  }

  function UserDeleted(t: Tables, user: Name): Tables {
    t.(users := t.users - {user},
       members := (set m | m in t.members && m.1 != user),
       pairs := (set r | r in t.pairs && r.a != user && r.b != user))
  }

  function NewName(u: Name, from: Name, to: Name): Name { if u == from then to else u }

  function PairRenamed(r: PairRow, from: Name, to: Name): PairRow {
    PairRow(r.chat, NewName(r.a, from, to), NewName(r.b, from, to))
  }

  /** A pair row must keep its names in order, or the whole rename is refused. */
  predicate RenameBreaksOrder(pairs: set<PairRow>, from: Name, to: Name) {
    exists r :: r in pairs && !Less(PairRenamed(r, from, to).a, PairRenamed(r, from, to).b)
  }

  function Renamed(t: Tables, from: Name, to: Name): Tables {
    if from !in t.users || to in t.users || RenameBreaksOrder(t.pairs, from, to) then t else
      t.(users := t.users - {from} + {to},
         members := (set m | m in t.members :: (m.0, NewName(m.1, from, to))),
         pairs := (set r | r in t.pairs :: PairRenamed(r, from, to)))
  }

  /** AddMember's check: the caller is a member and the chat is a group with room. (It also
      looks at the new member's name and key, which only refuses more.) */
  ghost predicate MayAdd(t: Tables, chat: ChatId, caller: Name) {
    chat in t.chats && (chat, caller) in t.members && t.chats[chat].isGroup && |Members(t, chat)| < MAX_GROUP_MEMBERS
  }

  // -------------------------------------------------------------- the handlers

  datatype CreateResult = NewChat(chat: ChatId) | Existing(chat: ChatId) | TooFew | TooMany | NotAPair | NoSuchUser

  datatype AddResult = Added | InvalidName | NotMember | NotGroup | GroupFull | NoKey | UserUnknown

  /** What CreateChat answers for a set of people, and what it leaves in the tables. */
  ghost predicate CreateAnswer(t: Tables, who: set<Name>, isGroup: bool, drawn: ChatId, r: CreateResult, t': Tables) {
    match r
    case TooFew => |who| < 2 && t' == t
    case TooMany => |who| > MAX_GROUP_MEMBERS && t' == t
    case NotAPair => !isGroup && 2 < |who| <= MAX_GROUP_MEMBERS && t' == t
    case NoSuchUser => 2 <= |who| <= MAX_GROUP_MEMBERS && !(who <= t.users) && t' == t
    case Existing(chat) =>
      !isGroup && t' == t && exists a, b :: who == {a, b} && Less(a, b) && PairRow(chat, a, b) in t.pairs
    case NewChat(chat) =>
      && chat == drawn && 2 <= |who| <= MAX_GROUP_MEMBERS && who <= t.users
      && (isGroup ==> t' == WithChat(t, drawn, Chat(true, false, false), who))
      && (!isGroup ==> exists a, b :: who == {a, b} && NewPair(t, a, b) && t' == Created(t, drawn, a, b))
  }

  class Chats {
    var users: set<Name>
    var chats: map<ChatId, Chat>
    var members: set<(ChatId, Name)>
    var pairs: set<PairRow>
    // Columns that other handlers fill: which chats are end-to-end encrypted, and whose
    // account has published a key.
    var secure: set<ChatId>
    var keyed: set<Name>

    function Now(): Tables
      reads this
    {
      Tables(users, chats, members, pairs)
    }

    constructor ()
      ensures Now() == Tables({}, map[], {}, {})
    {
      users, chats, members, pairs, secure, keyed := {}, map[], {}, {}, {}, {};
    }

    method CollectMembers(creator: Name, others: seq<Name>) returns (who: set<Name>)
      ensures who == MemberSet(creator, others)
    {
      who := {creator};
      for i := 0 to |others|
        invariant who == MemberSet(creator, others[..i])
      {
        assert others[..i + 1] == others[..i] + [others[i]];
        if others[i] != "" {
          who := who + {others[i]};
        }
      }
      assert others[..|others|] == others;
    }

    /** CreateChat with no other request in between; `drawn` is the id the database draws. */
    method CreateChat(creator: Name, others: seq<Name>, isGroup: bool, drawn: ChatId) returns (r: CreateResult)
      requires drawn !in chats
      modifies `chats, `members, `pairs
      ensures CreateAnswer(old(Now()), MemberSet(creator, others), isGroup, drawn, r, Now())
    {
      var who := CollectMembers(creator, others);
      if |who| < 2 {
        return TooFew;
      }
      if |who| > MAX_GROUP_MEMBERS {
        return TooMany;
      }
      if !isGroup && |who| != 2 {
        return NotAPair;
      }
      if isGroup {
        if !(who <= users) {
          return NoSuchUser;
        }
        chats := chats[drawn := Chat(true, false, false)];
        members := members + set u | u in who :: (drawn, u);
        return NewChat(drawn);
      }
      r := CreateDirect(who, drawn);
    }

    method CreateDirect(who: set<Name>, drawn: ChatId) returns (r: CreateResult)
      requires drawn !in chats && |who| == 2
      modifies `chats, `members, `pairs
      ensures CreateAnswer(old(Now()), who, false, drawn, r, Now())
    {
      var x :| x in who;
      assert |who - {x}| == 1;
      var y :| y in who - {x};
      TwoElements(who, x, y);
      var (a, b) := Ordered(x, y);
      LessIsTotal(x, y);
      assert who == {a, b} && Less(a, b);
      if row :| row in pairs && row.a == a && row.b == b {
        assert row == PairRow(row.chat, a, b);
        return Existing(row.chat);
      }
      if a !in users || b !in users {
        return NoSuchUser;
      }
      chats := chats[drawn := Chat(false, false, false)];
      pairs := pairs + {PairRow(drawn, a, b)};
      members := members + {(drawn, a), (drawn, b)};
      return NewChat(drawn);
    }

    method AddMember(chat: ChatId, caller: Name, user: Name) returns (r: AddResult)
      modifies `members
      ensures r.InvalidName? <==> !ValidUsername(user)
      ensures r.NotMember? <==> ValidUsername(user) && (chat !in chats || (chat, caller) !in old(members))
      ensures r.NotGroup? <==>
        ValidUsername(user) && chat in chats && (chat, caller) in old(members) && !chats[chat].isGroup
      ensures r.GroupFull? <==>
        ValidUsername(user) && chat in chats && (chat, caller) in old(members) && chats[chat].isGroup &&
        |Members(old(Now()), chat)| >= MAX_GROUP_MEMBERS
      ensures r.NoKey? <==>
        ValidUsername(user) && MayAdd(old(Now()), chat, caller) && chat in secure && user !in keyed
      ensures r.UserUnknown? <==>
        ValidUsername(user) && MayAdd(old(Now()), chat, caller) && (chat in secure ==> user in keyed) && user !in users
      ensures Now() == if r.Added? then MemberAdded(old(Now()), chat, user) else old(Now())
    {
      if !ValidUsername(user) {
        return InvalidName;
      }
      if chat !in chats || (chat, caller) !in members {
        return NotMember;
      }
      if !chats[chat].isGroup {
        return NotGroup;
      }
      if |set m | m in members && m.0 == chat :: m.1| >= MAX_GROUP_MEMBERS {
        return GroupFull;
      }
      if chat in secure && user !in keyed {
        return NoKey;
      }
      if user !in users {
        return UserUnknown;
      }
      members := members + {(chat, user)};
      return Added;
    }

    /** DeleteChat with scope "me". */
    method Leave(chat: ChatId, user: Name) returns (ok: bool)
      modifies `chats, `members, `pairs
      ensures ok <==> chat in old(chats) && (chat, user) in old(members)
      ensures ok ==> Members(Now(), chat) == Members(old(Now()), chat) - {user}
      ensures ok ==> (chat in chats <==> exists other :: (chat, other) in old(members) && other != user)
      ensures Now() == if ok then Left(old(Now()), chat, user) else old(Now())
    {
      if chat !in chats || (chat, user) !in members {
        return false;
      }
      LeaveExactly(Now(), chat, user);
      members := members - {(chat, user)};
      var remaining := set m | m in members && m.0 == chat :: m.1;
      assert remaining == Members(Now(), chat);
      if |remaining| == 0 {
        chats := chats - {chat};
        members := set m | m in members && m.0 != chat;
      }
      pairs := set r | r in pairs && r.chat != chat;
      return true;
    }

    /** DeleteChat with scope "everyone". */
    method DeleteForEveryone(chat: ChatId, user: Name) returns (ok: bool)
      modifies `chats, `members, `pairs
      ensures ok <==> chat in old(chats) && (chat, user) in old(members) && !old(chats)[chat].isGroup
      ensures Now() == if ok then ChatDeleted(old(Now()), chat) else old(Now())
    {
      if chat !in chats || (chat, user) !in members || chats[chat].isGroup {
        return false;
      }
      chats := chats - {chat};
      members := set m | m in members && m.0 != chat;
      pairs := set r | r in pairs && r.chat != chat;
      return true;
    }
  }

  /** The people a new chat is for: its creator and everybody named, blanks aside. */
  function MemberSet(creator: Name, others: seq<Name>): set<Name> {
    {creator} + set m | m in others && m != ""
  }

  lemma TwoElements<T>(s: set<T>, x: T, y: T)
    requires |s| == 2 && x in s && y in s - {x}
    ensures s == {x, y}
  {
    assert |s - {x, y}| == 0;
  }

  lemma NewChatMembers(t: Tables, who: set<Name>, isGroup: bool, drawn: ChatId, t': Tables)
    requires Referential(t) && drawn !in t.chats && CreateAnswer(t, who, isGroup, drawn, NewChat(drawn), t')
    ensures drawn in t'.chats && t'.chats[drawn] == Chat(isGroup, false, false) && Members(t', drawn) == who
  {
    assert forall m :: m in t.members ==> m.0 != drawn;
    if !isGroup {
      var a, b :| who == {a, b} && NewPair(t, a, b) && t' == Created(t, drawn, a, b);
      assert Members(Created(t, drawn, a, b), drawn) == {a, b};
    } else {
      assert forall u :: u in who ==> (drawn, u) in t'.members;
    }
  }

  lemma ExistingMembers(t: Tables, who: set<Name>, drawn: ChatId, chat: ChatId, t': Tables)
    requires PairsTrue(t) && CreateAnswer(t, who, false, drawn, Existing(chat), t')
    ensures Members(t', chat) == who
  {
    var a, b :| who == {a, b} && Less(a, b) && PairRow(chat, a, b) in t.pairs;
    assert RowTrue(t, PairRow(chat, a, b));
  }

  /** The chat that the creator is given is theirs and everybody's who was named, and of nobody
      else. */
  lemma CreatorIsMember(t: Tables, creator: Name, others: seq<Name>, isGroup: bool, drawn: ChatId, r: CreateResult, t': Tables)
    requires TablesTrue(t) && drawn !in t.chats && CreateAnswer(t, MemberSet(creator, others), isGroup, drawn, r, t')
    ensures r.NewChat? ==> r.chat == drawn && drawn in t'.chats && t'.chats[drawn] == Chat(isGroup, false, false)
    ensures r.NewChat? || r.Existing? ==>
      forall u :: u in Members(t', r.chat) <==> u == creator || (u in others && u != "")
  {
    if r.NewChat? {
      NewChatMembers(t, MemberSet(creator, others), isGroup, drawn, t');
    } else if r.Existing? {
      ExistingMembers(t, MemberSet(creator, others), drawn, r.chat, t');
    }
  }

  /** The one who leaves is gone and nobody else; the chat goes exactly when nobody is left; its
      pair may be claimed again; and nothing of any other chat changes. */
  lemma LeaveExactly(t: Tables, chat: ChatId, user: Name)
    requires (chat, user) in t.members
    ensures var t' := Left(t, chat, user);
      && Members(t', chat) == Members(t, chat) - {user}
      && (forall m :: m in t'.members <==> m in t.members && m != (chat, user))
      && (chat in t'.chats <==> chat in t.chats && exists other :: (chat, other) in t.members && other != user)
      && (forall c :: c in t'.chats ==> c in t.chats && t'.chats[c] == t.chats[c])
      && (forall c :: c in t.chats && c != chat ==> c in t'.chats)
      && (forall r :: r in t'.pairs <==> r in t.pairs && r.chat != chat)
      && t'.users == t.users
  {
    var t' := Left(t, chat, user);
    var bare := t.(members := t.members - {(chat, user)});
    if other :| (chat, other) in t.members && other != user {
      assert other in Members(bare, chat);
    } else {
      assert Members(bare, chat) == {};
    }
    assert forall m :: m in t.members && m.0 == chat && m.1 != user ==> m.1 in Members(bare, chat);
  }

  // ------------------------------------------------------------------- runs

  datatype Result = Given(chat: ChatId) | Failed

  /** Where a CreateChat request stands. */
  datatype Phase =
    | Looking
    | Opening                       // the lookup found nothing
    | Opened(chat: ChatId)          // the transaction holds a chat row
    | Claimed(chat: ChatId)         // and the pair
    | Populated(chat: ChatId)       // and the members
    | Lost                          // somebody else has the pair; rolled back
    | Done(result: Result)

  datatype Request = Request(a: Name, b: Name, phase: Phase)

  datatype State = State(
    db: Tables,
    used: set<ChatId>,                       // chat ids are random and never drawn twice
    requests: map<nat, Request>,
    adding: map<nat, (ChatId, Name)>,        // AddMember requests past their check
    made: seq<PairRow>)                      // what CreateChat has committed

  datatype Event =
    | Start(p: nat, x: Name, y: Name)
    | Lookup(p: nat)
    | Open(p: nat, chat: ChatId)
    | Claim(p: nat)
    | Populate(p: nat)
    | Commit(p: nat)
    | Abort(p: nat)
    | Winner(p: nat)
    | CreateGroup(chat: ChatId, who: set<Name>)
    | CreateSecret(chat: ChatId, x: Name, y: Name)
    | AddCheck(q: nat, chat: ChatId, caller: Name, user: Name)
    | AddInsert(q: nat)
    | Leave(chat: ChatId, user: Name)
    | DeleteForEveryone(chat: ChatId, user: Name)
    | AdminDelete(chat: ChatId)
    | Retire(chat: ChatId)          // marked deleted by an earlier version, which kept the row
    | Register(user: Name)
    | DeleteUser(user: Name)
    | Rename(from: Name, to: Name)

  ghost predicate Holds(s: State, p: nat) {
    p in s.requests && (s.requests[p].phase.Claimed? || s.requests[p].phase.Populated?)
  }

  ghost predicate Named(s: State, user: Name) {
    exists p :: Holds(s, p) && (s.requests[p].a == user || s.requests[p].b == user)
  }

  ghost predicate SomeoneElseHolds(s: State, p: nat, a: Name, b: Name) {
    exists q :: q != p && Holds(s, q) && s.requests[q].a == a && s.requests[q].b == b
  }

  ghost predicate Enabled(s: State, e: Event) {
    match e
    case Start(p, x, y) => p !in s.requests && x != y
    case Lookup(p) => p in s.requests && s.requests[p].phase.Looking?
    case Open(p, chat) => p in s.requests && s.requests[p].phase.Opening? && chat !in s.used
    case Claim(p) =>
      p in s.requests && s.requests[p].phase.Opened? && !SomeoneElseHolds(s, p, s.requests[p].a, s.requests[p].b)
    case Populate(p) => p in s.requests && s.requests[p].phase.Claimed?
    case Commit(p) => p in s.requests && s.requests[p].phase.Populated?
    case Abort(p) => p in s.requests && !s.requests[p].phase.Done?
    case Winner(p) => p in s.requests && s.requests[p].phase.Lost?
    case CreateGroup(chat, who) => chat !in s.used && who <= s.db.users
    case CreateSecret(chat, x, y) => chat !in s.used && {x, y} <= s.db.users
    case AddCheck(q, _, _, _) => q !in s.adding
    case AddInsert(q) => q in s.adding
    case Leave(chat, user) => (chat, user) in s.db.members
    case DeleteForEveryone(chat, user) =>
      (chat, user) in s.db.members && chat in s.db.chats && !s.db.chats[chat].isGroup
    case DeleteUser(user) => !Named(s, user)
    case Rename(from, _) => !Named(s, from)
    case _ => true
  }

  function Move(s: State, p: nat, phase: Phase): State
    requires p in s.requests
  {
    s.(requests := s.requests[p := s.requests[p].(phase := phase)])
  }

  /** What a request does next; all its other effects are in its phase until it commits. */
  ghost function Advance(s: State, p: nat, e: Event): State
    requires p in s.requests
  {
    var r := s.requests[p];
    match e
    case Lookup(_) =>
      if HasPair(s.db, r.a, r.b) && Visible(s.db, ChatOf(s.db, r.a, r.b))
      then Move(s, p, Done(Given(ChatOf(s.db, r.a, r.b)))) else Move(s, p, Opening)
    case Open(_, chat) => Move(s, p, Opened(chat)).(used := s.used + {chat})
    case Claim(_) =>
      if !r.phase.Opened? then s
      else if HasPair(s.db, r.a, r.b) then Move(s, p, Lost)
      else if r.a in s.db.users && r.b in s.db.users then Move(s, p, Claimed(r.phase.chat))
      else Move(s, p, Done(Failed))
    case Populate(_) => if r.phase.Claimed? then Move(s, p, Populated(r.phase.chat)) else s
    case Commit(_) =>
      if !r.phase.Populated? then s else
        Move(s, p, Done(Given(r.phase.chat))).(db := Created(s.db, r.phase.chat, r.a, r.b),
                                               made := s.made + [PairRow(r.phase.chat, r.a, r.b)])
    case Winner(_) =>
      Move(s, p, Done(if HasPair(s.db, r.a, r.b) then Given(ChatOf(s.db, r.a, r.b)) else Failed))
    case _ => Move(s, p, Done(Failed))
  }

  ghost function Step(s: State, e: Event): State {
    match e
    case Start(p, x, y) => s.(requests := s.requests[p := Request(Ordered(x, y).0, Ordered(x, y).1, Looking)])
    case CreateGroup(chat, who) =>
      s.(db := WithChat(s.db, chat, Chat(true, false, false), who), used := s.used + {chat})
    case CreateSecret(chat, x, y) =>
      s.(db := WithChat(s.db, chat, Chat(false, true, false), {x, y}), used := s.used + {chat})
    case AddCheck(q, chat, caller, user) =>
      if MayAdd(s.db, chat, caller) then s.(adding := s.adding[q := (chat, user)]) else s
    case AddInsert(q) =>
      if q in s.adding then
        s.(db := MemberAdded(s.db, s.adding[q].0, s.adding[q].1), adding := s.adding - {q})
      else s
    case Leave(chat, user) => s.(db := Left(s.db, chat, user))
    case DeleteForEveryone(chat, _) => s.(db := ChatDeleted(s.db, chat))
    case AdminDelete(chat) => s.(db := ChatDeleted(s.db, chat))
    case Retire(chat) => s.(db := Retired(s.db, chat))
    case Register(user) => s.(db := s.db.(users := s.db.users + {user}))
    case DeleteUser(user) => s.(db := UserDeleted(s.db, user))
    case Rename(from, to) => s.(db := Renamed(s.db, from, to))
    case _ => if e.p in s.requests then Advance(s, e.p, e) else s
  }

  const FRESH := State(Tables({}, map[], {}, {}), {}, map[], map[], [])

  ghost function Run(es: seq<Event>): State {
    if es == [] then FRESH else Step(Run(Init(es)), Last(es))
  }

  ghost predicate Legal(es: seq<Event>) {
    es != [] ==> Legal(Init(es)) && Enabled(Run(Init(es)), Last(es))
  }

  // -------------------------------------------------------------- invariant

  /** What a pair row promises. */
  ghost predicate RowTrue(t: Tables, r: PairRow) {
    && r.chat in t.chats && !t.chats[r.chat].isGroup && !t.chats[r.chat].isSecret
    && Members(t, r.chat) == {r.a, r.b}
    && Less(r.a, r.b) && r.a in t.users && r.b in t.users
  }

  ghost predicate PairsTrue(t: Tables) {
    && (forall r :: r in t.pairs ==> RowTrue(t, r))
    && (forall r, r' :: r in t.pairs && r' in t.pairs && (r.chat == r'.chat || (r.a, r.b) == (r'.a, r'.b)) ==> r == r')
  }

  ghost predicate Referential(t: Tables) {
    forall m :: m in t.members ==> m.0 in t.chats && m.1 in t.users
  }

  ghost function Pending(r: Request): set<ChatId> {
    if r.phase.Opened? || r.phase.Claimed? || r.phase.Populated? then {r.phase.chat} else {}
  }

  /** Chat ids in transactions are private to them. */
  ghost predicate IdsPrivate(s: State) {
    && (forall c :: c in s.db.chats ==> c in s.used)
    && (forall p, c :: p in s.requests && c in Pending(s.requests[p]) ==> c in s.used && c !in s.db.chats)
    && (forall p, q, c :: p in s.requests && q in s.requests && c in Pending(s.requests[p]) && c in Pending(s.requests[q])
          ==> p == q)
    && (forall q :: q in s.adding ==> s.adding[q].0 in s.used)
    && (forall q :: q in s.adding && s.adding[q].0 in s.db.chats ==> s.db.chats[s.adding[q].0].isGroup)
    && (forall p, q :: p in s.requests && q in s.adding ==> s.adding[q].0 !in Pending(s.requests[p]))
  }

  /** A claimed pair is free in the tables and has one claimant. */
  ghost predicate ClaimsExclusive(s: State) {
    && (forall p :: p in s.requests ==> Less(s.requests[p].a, s.requests[p].b))
    && (forall p :: Holds(s, p) ==> Free(s.db, s.requests[p].a, s.requests[p].b))
    && (forall p, q :: Holds(s, p) && Holds(s, q) && p != q ==>
          (s.requests[p].a, s.requests[p].b) != (s.requests[q].a, s.requests[q].b))
  }

  ghost predicate Inv(s: State) {
    PairsTrue(s.db) && Referential(s.db) && IdsPrivate(s) && ClaimsExclusive(s)
  }

  ghost predicate TablesTrue(t: Tables) { PairsTrue(t) && Referential(t) }

  // --------------------------------------------- what each statement does to pairs

  lemma NewChatKeeps(t: Tables, chat: ChatId, kind: Chat, who: set<Name>)
    requires TablesTrue(t) && chat !in t.chats && who <= t.users
    ensures TablesTrue(WithChat(t, chat, kind, who))
  {
    var t' := WithChat(t, chat, kind, who);
    forall r | r in t'.pairs
      ensures RowTrue(t', r)
    {
      assert Members(t', r.chat) == Members(t, r.chat);
    }
  }

  lemma CreatedKeeps(t: Tables, chat: ChatId, a: Name, b: Name)
    requires TablesTrue(t) && chat !in t.chats && Less(a, b) && {a, b} <= t.users && !HasPair(t, a, b)
    ensures TablesTrue(Created(t, chat, a, b)) && HasPair(Created(t, chat, a, b), a, b)
  {
    var t' := Created(t, chat, a, b);
    assert forall m :: m in t.members ==> m.0 != chat;
    assert PairRow(chat, a, b) in t'.pairs;
    forall r | r in t'.pairs
      ensures RowTrue(t', r)
    {
      if r == PairRow(chat, a, b) {
        assert Members(t', chat) == {a, b};
      } else {
        assert RowTrue(t, r);
        assert Members(t', r.chat) == Members(t, r.chat);
      }
    }
    forall r | r in t.pairs
      ensures r.chat != chat && (r.a, r.b) != (a, b)
    {
      assert RowTrue(t, r);
    }
  }

  lemma ChatDeletedKeeps(t: Tables, chat: ChatId)
    requires TablesTrue(t)
    ensures TablesTrue(ChatDeleted(t, chat))
  {
    var t' := ChatDeleted(t, chat);
    forall r | r in t'.pairs
      ensures RowTrue(t', r)
    {
      assert RowTrue(t, r);
      assert Members(t', r.chat) == Members(t, r.chat);
    }
  }

  lemma LeftKeeps(t: Tables, chat: ChatId, user: Name)
    requires TablesTrue(t)
    ensures TablesTrue(Left(t, chat, user))
  {
    var t' := Left(t, chat, user);
    forall r | r in t'.pairs
      ensures RowTrue(t', r)
    {
      assert RowTrue(t, r);
      assert Members(t', r.chat) == Members(t, r.chat);
    }
  }

  lemma MemberAddedKeeps(t: Tables, chat: ChatId, user: Name)
    requires TablesTrue(t) && (chat in t.chats ==> t.chats[chat].isGroup)
    ensures TablesTrue(MemberAdded(t, chat, user))
  {
    var t' := MemberAdded(t, chat, user);
    forall r | r in t'.pairs
      ensures RowTrue(t', r)
    {
      assert RowTrue(t, r);
      assert Members(t', r.chat) == Members(t, r.chat);
    }
  }

  lemma UserDeletedKeeps(t: Tables, user: Name)
    requires TablesTrue(t)
    ensures TablesTrue(UserDeleted(t, user))
  {
    var t' := UserDeleted(t, user);
    forall r | r in t'.pairs
      ensures RowTrue(t', r)
    {
      assert RowTrue(t, r);
      assert Members(t', r.chat) == Members(t, r.chat) - {user};
    }
  }

  lemma RenamedMembers(t: Tables, from: Name, to: Name, chat: ChatId)
    requires from in t.users && to !in t.users && !RenameBreaksOrder(t.pairs, from, to)
    ensures Members(Renamed(t, from, to), chat) == set u | u in Members(t, chat) :: NewName(u, from, to)
  {
    var t' := Renamed(t, from, to);
    forall u | u in Members(t, chat)
      ensures NewName(u, from, to) in Members(t', chat)
    {
      assert (chat, u) in t.members;
      assert (chat, NewName(u, from, to)) in t'.members;
    }
    forall v | v in Members(t', chat)
      ensures exists u :: u in Members(t, chat) && v == NewName(u, from, to)
    {
      var m :| m in t.members && (m.0, NewName(m.1, from, to)) == (chat, v);
      assert m.1 in Members(t, chat);
    }
  }

  lemma RenamedRowTrue(t: Tables, from: Name, to: Name, r: PairRow)
    requires TablesTrue(t) && from in t.users && to !in t.users && !RenameBreaksOrder(t.pairs, from, to)
    requires r in t.pairs
    ensures RowTrue(Renamed(t, from, to), PairRenamed(r, from, to))
  {
    assert RowTrue(t, r);
    RenamedMembers(t, from, to, r.chat);
    var q := PairRenamed(r, from, to);
    assert (set u | u in {r.a, r.b} :: NewName(u, from, to)) == {q.a, q.b};
  }

  lemma RenamedKeeps(t: Tables, from: Name, to: Name)
    requires TablesTrue(t)
    ensures TablesTrue(Renamed(t, from, to))
  {
    if from in t.users && to !in t.users && !RenameBreaksOrder(t.pairs, from, to) {
      var t' := Renamed(t, from, to);
      forall q | q in t'.pairs
        ensures RowTrue(t', q)
      {
        var r :| r in t.pairs && q == PairRenamed(r, from, to);
        RenamedRowTrue(t, from, to, r);
      }
      forall q, q' | q in t'.pairs && q' in t'.pairs && (q.chat == q'.chat || (q.a, q.b) == (q'.a, q'.b))
        ensures q == q'
      {
        var r :| r in t.pairs && q == PairRenamed(r, from, to);
        var r' :| r' in t.pairs && q' == PairRenamed(r', from, to);
        assert RowTrue(t, r) && RowTrue(t, r');
      }
    }
  }

  // ------------------------------------------------------- every step keeps it

  lemma StepKeepsTables(s: State, e: Event)
    requires Inv(s) && Enabled(s, e)
    ensures TablesTrue(Step(s, e).db)
  {
    match e
    case CreateGroup(chat, who) => NewChatKeeps(s.db, chat, Chat(true, false, false), who);
    case CreateSecret(chat, x, y) => NewChatKeeps(s.db, chat, Chat(false, true, false), {x, y});
    case AddInsert(q) => MemberAddedKeeps(s.db, s.adding[q].0, s.adding[q].1);
    case Leave(chat, user) => LeftKeeps(s.db, chat, user);
    case DeleteForEveryone(chat, _) => ChatDeletedKeeps(s.db, chat);
    case AdminDelete(chat) => ChatDeletedKeeps(s.db, chat);
    case DeleteUser(user) => UserDeletedKeeps(s.db, user);
    case Rename(from, to) => RenamedKeeps(s.db, from, to);
    case Register(user) =>
      forall r | r in s.db.pairs
        ensures RowTrue(Step(s, e).db, r)
      {
        assert RowTrue(s.db, r);
        assert Members(Step(s, e).db, r.chat) == Members(s.db, r.chat);
      }
    case Commit(p) =>
      var r := s.requests[p];
      assert Holds(s, p);
      assert r.phase.chat in Pending(r);
      CreatedKeeps(s.db, r.phase.chat, r.a, r.b);
    case _ =>
  }

  /** No chat appears, and none becomes or ceases to be a group. */
  ghost predicate QuietChats(s: State, s': State) {
    s'.used == s.used &&
    forall c :: c in s'.db.chats ==> c in s.db.chats && s'.db.chats[c].isGroup == s.db.chats[c].isGroup
  }

  /** Neither requests nor additions get hold of a chat they had not. */
  ghost predicate QuietHands(s: State, s': State) {
    && (forall p :: p in s'.requests ==>
          Pending(s'.requests[p]) == {} || (p in s.requests && Pending(s'.requests[p]) <= Pending(s.requests[p])))
    && (forall q :: q in s'.adding ==> q in s.adding && s'.adding[q] == s.adding[q])
  }

  /** A step that draws no chat id and publishes none. */
  ghost predicate Quiet(s: State, s': State) { QuietChats(s, s') && QuietHands(s, s') }

  lemma QuietKeepsIds(s: State, s': State)
    requires IdsPrivate(s) && Quiet(s, s')
    ensures IdsPrivate(s')
  {
  }

  predicate DrawsOrChecks(e: Event) {
    e.Open? || e.Commit? || e.CreateGroup? || e.CreateSecret? || e.AddCheck?
  }

  lemma StepLeavesChats(s: State, e: Event)
    requires Enabled(s, e) && !DrawsOrChecks(e)
    ensures QuietChats(s, Step(s, e))
  {
  }

  lemma StepLeavesHands(s: State, e: Event)
    requires Enabled(s, e) && !DrawsOrChecks(e)
    ensures QuietHands(s, Step(s, e))
  {
  }

  lemma StepIsQuiet(s: State, e: Event)
    requires Enabled(s, e) && !DrawsOrChecks(e)
    ensures Quiet(s, Step(s, e))
  {
    StepLeavesChats(s, e);
    StepLeavesHands(s, e);
  }

  lemma DrawingKeepsIds(s: State, e: Event)
    requires IdsPrivate(s) && Enabled(s, e) && (e.Open? || e.CreateGroup? || e.CreateSecret?)
    ensures IdsPrivate(Step(s, e))
  {
  }

  lemma CommitKeepsIds(s: State, p: nat)
    requires IdsPrivate(s) && Enabled(s, Commit(p))
    ensures IdsPrivate(Step(s, Commit(p)))
  {
    assert s.requests[p].phase.chat in Pending(s.requests[p]);
  }

  lemma StepKeepsIds(s: State, e: Event)
    requires IdsPrivate(s) && Enabled(s, e)
    ensures IdsPrivate(Step(s, e))
  {
    if e.Open? || e.CreateGroup? || e.CreateSecret? {
      DrawingKeepsIds(s, e);
    } else if e.Commit? {
      CommitKeepsIds(s, e.p);
    } else if e.AddCheck? {
    } else {
      StepIsQuiet(s, e);
      QuietKeepsIds(s, Step(s, e));
    }
  }

  // ------------------------------------------------------------------ claims

  /** Where a claimed pair may gain a row, or an account it names may go. */
  ghost predicate Disturbs(s: State, t: Tables, a: Name, b: Name) {
    (HasPair(t, a, b) && !HasPair(s.db, a, b)) || !({a, b} * s.db.users <= t.users)
  }

  lemma RenameDisturbsNobody(s: State, from: Name, to: Name, a: Name, b: Name)
    requires TablesTrue(s.db) && {a, b} <= s.db.users && from != a && from != b
    ensures !Disturbs(s, Renamed(s.db, from, to), a, b)
  {
    var t := Renamed(s.db, from, to);
    if from in s.db.users && to !in s.db.users && HasPair(t, a, b) && !RenameBreaksOrder(s.db.pairs, from, to) {
      var q :| q in t.pairs && q.a == a && q.b == b;
      var r :| r in s.db.pairs && q == PairRenamed(r, from, to);
      assert r == q;
    }
  }

  lemma TableEventsDisturbNobody(s: State, e: Event, a: Name, b: Name)
    requires TablesTrue(s.db) && {a, b} <= s.db.users && Enabled(s, e) && !e.Commit?
    requires e.DeleteUser? ==> e.user != a && e.user != b
    requires e.Rename? ==> e.from != a && e.from != b
    ensures !Disturbs(s, Step(s, e).db, a, b)
  {
    if e.Rename? {
      RenameDisturbsNobody(s, e.from, e.to, a, b);
    }
  }

  ghost predicate Free(t: Tables, a: Name, b: Name) {
    !HasPair(t, a, b) && a in t.users && b in t.users
  }

  /** Only a claim makes a new holder. */
  lemma HoldersStay(s: State, e: Event, p: nat)
    requires Enabled(s, e) && Holds(Step(s, e), p) && e != Claim(p)
    ensures Holds(s, p)
    ensures Step(s, e).requests[p].a == s.requests[p].a && Step(s, e).requests[p].b == s.requests[p].b
  {
  }

  lemma ClaimTakesFreePair(s: State, p: nat)
    requires Inv(s) && Enabled(s, Claim(p)) && Holds(Step(s, Claim(p)), p)
    ensures Free(s.db, s.requests[p].a, s.requests[p].b) && Step(s, Claim(p)).db == s.db
    ensures Step(s, Claim(p)).requests[p].a == s.requests[p].a && Step(s, Claim(p)).requests[p].b == s.requests[p].b
  {
  }

  lemma HeldStaysFree(s: State, e: Event, p: nat)
    requires Inv(s) && Enabled(s, e) && !e.Commit? && Holds(Step(s, e), p)
    ensures Free(Step(s, e).db, Step(s, e).requests[p].a, Step(s, e).requests[p].b)
  {
    if e == Claim(p) {
      ClaimTakesFreePair(s, p);
    } else {
      HoldersStay(s, e, p);
      TableEventsDisturbNobody(s, e, s.requests[p].a, s.requests[p].b);
    }
  }

  lemma HoldersDiffer(s: State, e: Event, p: nat, q: nat)
    requires Inv(s) && Enabled(s, e) && Holds(Step(s, e), p) && Holds(Step(s, e), q) && p != q
    ensures var rs := Step(s, e).requests; (rs[p].a, rs[p].b) != (rs[q].a, rs[q].b)
  {
    if e == Claim(p) {
      HoldersStay(s, e, q);
      ClaimTakesFreePair(s, p);
    } else if e == Claim(q) {
      HoldersStay(s, e, p);
      ClaimTakesFreePair(s, q);
    } else {
      HoldersStay(s, e, p);
      HoldersStay(s, e, q);
    }
  }

  lemma OwnStepOrUnmoved(s: State, e: Event, p: nat)
    requires Enabled(s, e) && p in Step(s, e).requests
    ensures p !in s.requests ==> Step(s, e).requests[p].phase == Looking
    ensures p in s.requests ==> Step(s, e).requests[p].a == s.requests[p].a && Step(s, e).requests[p].b == s.requests[p].b
    ensures p in s.requests && Step(s, e).requests[p] != s.requests[p] ==>
      (e.Lookup? || e.Open? || e.Claim? || e.Populate? || e.Commit? || e.Abort? || e.Winner?) && e.p == p
  {
  }

  lemma BegunInOrder(s: State, e: Event, p: nat)
    requires p !in s.requests && p in Step(s, e).requests && Enabled(s, e)
    ensures Less(Step(s, e).requests[p].a, Step(s, e).requests[p].b)
  {
    LessIsTotal(e.x, e.y);
  }

  lemma PairsStayOrdered(s: State, e: Event)
    requires Inv(s) && Enabled(s, e)
    ensures forall p :: p in Step(s, e).requests ==> Less(Step(s, e).requests[p].a, Step(s, e).requests[p].b)
  {
    forall p | p in Step(s, e).requests
      ensures Less(Step(s, e).requests[p].a, Step(s, e).requests[p].b)
    {
      OwnStepOrUnmoved(s, e, p);
      if p !in s.requests {
        BegunInOrder(s, e, p);
      }
    }
  }

  lemma CommitKeepsOthersFree(s: State, p: nat, q: nat)
    requires Inv(s) && Enabled(s, Commit(p)) && Holds(Step(s, Commit(p)), q)
    ensures Free(Step(s, Commit(p)).db, Step(s, Commit(p)).requests[q].a, Step(s, Commit(p)).requests[q].b)
  {
    HoldersStay(s, Commit(p), q);
    assert Holds(s, p) && p != q;
  }

  lemma StepKeepsClaims(s: State, e: Event)
    requires Inv(s) && Enabled(s, e)
    ensures ClaimsExclusive(Step(s, e))
  {
    PairsStayOrdered(s, e);
    forall p | Holds(Step(s, e), p)
      ensures Free(Step(s, e).db, Step(s, e).requests[p].a, Step(s, e).requests[p].b)
    {
      if e.Commit? {
        CommitKeepsOthersFree(s, e.p, p);
      } else {
        HeldStaysFree(s, e, p);
      }
    }
    forall p, q | Holds(Step(s, e), p) && Holds(Step(s, e), q) && p != q
      ensures (Step(s, e).requests[p].a, Step(s, e).requests[p].b) != (Step(s, e).requests[q].a, Step(s, e).requests[q].b)
    {
      HoldersDiffer(s, e, p, q);
    }
  }

  lemma {:induction false} RunKeepsInv(es: seq<Event>)
    requires Legal(es)
    ensures Inv(Run(es))
  {
    if es != [] {
      var s, e := Run(Init(es)), Last(es);
      RunKeepsInv(Init(es));
      StepKeepsTables(s, e);
      StepKeepsIds(s, e);
      StepKeepsClaims(s, e);
    }
  }

  // ---------------------------------------------------------------- results

  /** In every run a pair row stands for an ordinary chat whose members are exactly the pair,
      and no two rows share a pair or a chat. */
  lemma PairRowMeansItsChat(es: seq<Event>, r: PairRow)
    requires Legal(es) && r in Run(es).db.pairs
    ensures RowTrue(Run(es).db, r)
    ensures forall r' :: r' in Run(es).db.pairs && (r'.chat == r.chat || (r'.a, r'.b) == (r.a, r.b)) ==> r' == r
  {
    RunKeepsInv(es);
  }

  /** The event may end a conversation of `a` and `b`, or rename one of them. */
  ghost predicate Touches(s: State, e: Event, a: Name, b: Name) {
    match e
    case Leave(chat, _) => PairRow(chat, a, b) in s.db.pairs
    case DeleteForEveryone(chat, _) => PairRow(chat, a, b) in s.db.pairs
    case AdminDelete(chat) => PairRow(chat, a, b) in s.db.pairs
    case DeleteUser(user) => user == a || user == b
    case Rename(from, to) => from == a || from == b || to == a || to == b
    case _ => false
  }

  ghost predicate Untouched(before: seq<Event>, race: seq<Event>, a: Name, b: Name)
    decreases |race|
  {
    race != [] ==>
      Untouched(before, Init(race), a, b) && !Touches(Run(before + Init(race)), Last(race), a, b)
  }

  lemma RenameKeepsRowsOf(t: Tables, from: Name, to: Name, a: Name, b: Name, chat: ChatId)
    requires from != a && from != b && to != a && to != b
    ensures PairRow(chat, a, b) in t.pairs <==> PairRow(chat, a, b) in Renamed(t, from, to).pairs
  {
    var row := PairRow(chat, a, b);
    assert PairRenamed(row, from, to) == row;
    if row in Renamed(t, from, to).pairs && from in t.users && to !in t.users && !RenameBreaksOrder(t.pairs, from, to) {
      var r :| r in t.pairs && row == PairRenamed(r, from, to);
      assert r == row;
    }
  }

  /** An untouched pair keeps its row, and gains one only from a commit of CreateChat. */
  lemma UntouchedRow(s: State, e: Event, a: Name, b: Name, chat: ChatId)
    requires Enabled(s, e) && !Touches(s, e, a, b)
    ensures PairRow(chat, a, b) in s.db.pairs ==> PairRow(chat, a, b) in Step(s, e).db.pairs
    ensures PairRow(chat, a, b) in Step(s, e).db.pairs && PairRow(chat, a, b) !in s.db.pairs ==>
      e.Commit? && Step(s, e).made == s.made + [PairRow(chat, a, b)]
  {
    if e.Rename? {
      RenameKeepsRowsOf(s.db, e.from, e.to, a, b, chat);
    }
  }

  ghost function MadeFor(made: seq<PairRow>, a: Name, b: Name): nat {
    if made == [] then 0 else
      MadeFor(Init(made), a, b) + if Last(made).a == a && Last(made).b == b then 1 else 0
  }

  /** A request's answer, or its loss of the race, is backed by the pair's row. */
  ghost predicate Backed(s: State, p: nat) {
    p in s.requests ==>
      var r := s.requests[p];
      && (r.phase.Lost? ==> HasPair(s.db, r.a, r.b))
      && (r.phase.Done? && r.phase.result.Given? ==> PairRow(r.phase.result.chat, r.a, r.b) in s.db.pairs)
  }

  /** A request's own next step leaves it backed. */
  lemma AdvanceIsBacked(s: State, e: Event, p: nat)
    requires Inv(s) && Enabled(s, e) && p in s.requests && Backed(s, p)
    requires e.Lookup? || e.Open? || e.Claim? || e.Populate? || e.Commit? || e.Abort? || e.Winner?
    requires e.p == p
    ensures Backed(Step(s, e), p)
  {
    var r := s.requests[p];
    if HasPair(s.db, r.a, r.b) {
      var row :| row in s.db.pairs && row.a == r.a && row.b == r.b;
      assert PairRow(ChatOf(s.db, r.a, r.b), r.a, r.b) in s.db.pairs;
    }
  }

  lemma OthersLeaveBacked(s: State, e: Event, p: nat)
    requires Enabled(s, e) && p in s.requests && Backed(s, p)
    requires !Touches(s, e, s.requests[p].a, s.requests[p].b)
    requires Step(s, e).requests[p] == s.requests[p]
    ensures Backed(Step(s, e), p)
  {
    var r := s.requests[p];
    if r.phase.Lost? {
      var row :| row in s.db.pairs && row.a == r.a && row.b == r.b;
      assert row == PairRow(row.chat, r.a, r.b);
      UntouchedRow(s, e, r.a, r.b, row.chat);
    } else if r.phase.Done? && r.phase.result.Given? {
      UntouchedRow(s, e, r.a, r.b, r.phase.result.chat);
    }
  }

  lemma StepKeepsBacked(s: State, e: Event, p: nat)
    requires Inv(s) && Enabled(s, e) && Backed(s, p) && p in Step(s, e).requests
    requires !Touches(s, e, Step(s, e).requests[p].a, Step(s, e).requests[p].b)
    ensures Backed(Step(s, e), p)
  {
    OwnStepOrUnmoved(s, e, p);
    if p in s.requests {
      if Step(s, e).requests[p] == s.requests[p] {
        OthersLeaveBacked(s, e, p);
      } else {
        AdvanceIsBacked(s, e, p);
      }
    }
  }

  lemma UntouchedPairStays(s: State, e: Event, a: Name, b: Name)
    requires Enabled(s, e) && !Touches(s, e, a, b) && HasPair(s.db, a, b)
    ensures HasPair(Step(s, e).db, a, b)
  {
    var row :| row in s.db.pairs && row.a == a && row.b == b;
    assert row == PairRow(row.chat, a, b);
    UntouchedRow(s, e, a, b, row.chat);
  }

  lemma UntouchedPairGained(s: State, e: Event, a: Name, b: Name)
    requires Enabled(s, e) && !Touches(s, e, a, b) && !HasPair(s.db, a, b) && HasPair(Step(s, e).db, a, b)
    ensures e.Commit? && exists chat :: Step(s, e).made == s.made + [PairRow(chat, a, b)]
  {
    var row :| row in Step(s, e).db.pairs && row.a == a && row.b == b;
    assert row == PairRow(row.chat, a, b);
    UntouchedRow(s, e, a, b, row.chat);
  }

  ghost predicate Makes(s: State, s': State, row: PairRow) {
    s'.made == s.made + [row] && !HasPair(s.db, row.a, row.b) && HasPair(s'.db, row.a, row.b)
  }

  /** A commit makes a row for a pair that had none; nothing else makes any. */
  lemma MadeOnlyNew(s: State, e: Event)
    requires Inv(s) && Enabled(s, e)
    ensures !e.Commit? ==> Step(s, e).made == s.made
    ensures e.Commit? ==> exists row :: Makes(s, Step(s, e), row)
  {
    if e.Commit? {
      assert Holds(s, e.p);
      var r := s.requests[e.p];
      var row := PairRow(r.phase.chat, r.a, r.b);
      assert row in Step(s, e).db.pairs && Makes(s, Step(s, e), row);
    }
  }

  lemma MadeForGrows(made: seq<PairRow>, row: PairRow, a: Name, b: Name)
    ensures MadeFor(made + [row], a, b) == MadeFor(made, a, b) + if row.a == a && row.b == b then 1 else 0
  {
    assert Init(made + [row]) == made;
  }

  /** The commits of an untouched pair account for the row it gained. */
  lemma StepCountsMade(s: State, e: Event, a: Name, b: Name)
    requires Inv(s) && Enabled(s, e) && !Touches(s, e, a, b)
    ensures HasPair(s.db, a, b) ==> HasPair(Step(s, e).db, a, b)
    ensures MadeFor(Step(s, e).made, a, b) ==
      MadeFor(s.made, a, b) + if HasPair(Step(s, e).db, a, b) && !HasPair(s.db, a, b) then 1 else 0
  {
    MadeOnlyNew(s, e);
    if HasPair(s.db, a, b) {
      UntouchedPairStays(s, e, a, b);
    } else if HasPair(Step(s, e).db, a, b) {
      UntouchedPairGained(s, e, a, b);
    }
    if e.Commit? {
      var row :| Makes(s, Step(s, e), row);
      MadeForGrows(s.made, row, a, b);
      assert Last(Step(s, e).made) == row;
    }
  }

  lemma {:induction false} RaceBacks(before: seq<Event>, race: seq<Event>, p: nat)
    requires Legal(before + race) && p in Run(before + race).requests && p !in Run(before).requests
    requires Untouched(before, race, Run(before + race).requests[p].a, Run(before + race).requests[p].b)
    ensures Backed(Run(before + race), p)
    decreases |race|
  {
    assert before + [] == before;
    if race != [] {
      var es, e := before + Init(race), Last(race);
      assert Init(before + race) == es && Last(before + race) == e;
      RunKeepsInv(es);
      OwnStepOrUnmoved(Run(es), e, p);
      if p in Run(es).requests {
        RaceBacks(before, Init(race), p);
      }
      StepKeepsBacked(Run(es), e, p);
    }
  }

  lemma {:induction false} RaceCounts(before: seq<Event>, race: seq<Event>, a: Name, b: Name)
    requires Legal(before + race) && Untouched(before, race, a, b)
    ensures HasPair(Run(before).db, a, b) ==> HasPair(Run(before + race).db, a, b)
    ensures MadeFor(Run(before + race).made, a, b) == MadeFor(Run(before).made, a, b)
      + if HasPair(Run(before + race).db, a, b) && !HasPair(Run(before).db, a, b) then 1 else 0
    decreases |race|
  {
    if race == [] {
      assert before + race == before;
    } else {
      var es, e := before + Init(race), Last(race);
      assert Init(before + race) == es && Last(before + race) == e;
      RaceCounts(before, Init(race), a, b);
      RunKeepsInv(es);
      StepCountsMade(Run(es), e, a, b);
    }
  }

  /** The request answers with this chat. */
  ghost predicate Gave(s: State, p: nat, a: Name, b: Name, chat: ChatId) {
    p in s.requests && s.requests[p] == Request(a, b, Done(Given(chat)))
  }

  /** However concurrent requests for one pair interleave, as long as nobody ends that
      conversation meanwhile: every request begun in the race that succeeds is given the
      pair's one chat, and the race commits that chat if it did not exist and none if it did. */
  lemma OneChatPerPair(before: seq<Event>, race: seq<Event>, a: Name, b: Name, p: nat, q: nat, c: ChatId, d: ChatId)
    requires Legal(before + race) && Untouched(before, race, a, b)
    requires p !in Run(before).requests && Gave(Run(before + race), p, a, b, c)
    requires q !in Run(before).requests && Gave(Run(before + race), q, a, b, d)
    ensures c == d && PairRow(c, a, b) in Run(before + race).db.pairs
    ensures MadeFor(Run(before + race).made, a, b)
         == MadeFor(Run(before).made, a, b) + if HasPair(Run(before).db, a, b) then 0 else 1
  {
    RaceBacks(before, race, p);
    RaceBacks(before, race, q);
    RaceCounts(before, race, a, b);
    RunKeepsInv(before + race);
  }

  /** A request that loses the race is given the winner's chat, never an error. */
  lemma LoserAdoptsWinner(before: seq<Event>, race: seq<Event>, p: nat)
    requires Legal(before + race) && p in Run(before + race).requests && p !in Run(before).requests
    requires Run(before + race).requests[p].phase.Lost?
    requires Untouched(before, race, Run(before + race).requests[p].a, Run(before + race).requests[p].b)
    ensures var s := Run(before + race); var r := s.requests[p];
      exists c :: PairRow(c, r.a, r.b) in s.db.pairs && Gave(Step(s, Winner(p)), p, r.a, r.b, c)
  {
    var s := Run(before + race);
    var r := s.requests[p];
    RaceBacks(before, race, p);
    var row :| row in s.db.pairs && row.a == r.a && row.b == r.b;
    var c := ChatOf(s.db, r.a, r.b);
    assert PairRow(c, r.a, r.b) in s.db.pairs && Gave(Step(s, Winner(p)), p, r.a, r.b, c);
  }

  /** A request that nobody else interferes with, from its lookup to its answer. */
  ghost function Alone(s: State, p: nat, chat: ChatId): State
    requires p in s.requests
  {
    var looked := Step(s, Lookup(p));
    if looked.requests[p].phase.Done? then looked else
      var claimed := Step(Step(looked, Open(p, chat)), Claim(p));
      if claimed.requests[p].phase.Lost? then Step(claimed, Winner(p))
      else if claimed.requests[p].phase.Done? then claimed
      else Step(Step(claimed, Populate(p)), Commit(p))
  }

  ghost function AsCreateResult(result: Result, drawn: ChatId): CreateResult {
    match result
    case Given(chat) => if chat == drawn then NewChat(chat) else Existing(chat)
    case Failed => NoSuchUser
  }

  ghost predicate AnswersAlone(s: State, p: nat, drawn: ChatId)
    requires p in s.requests
  {
    var r, end := s.requests[p], Alone(s, p, drawn);
    && p in end.requests && end.requests[p].phase.Done?
    && CreateAnswer(s.db, {r.a, r.b}, false, drawn, AsCreateResult(end.requests[p].phase.result, drawn), end.db)
  }

  lemma PathWithPair(s: State, p: nat, drawn: ChatId)
    requires p in s.requests && s.requests[p].phase.Looking? && HasPair(s.db, s.requests[p].a, s.requests[p].b)
    ensures var r, end := s.requests[p], Alone(s, p, drawn);
      p in end.requests && end.requests[p].phase == Done(Given(ChatOf(s.db, r.a, r.b))) && end.db == s.db
  {
    var r := s.requests[p];
    if !Visible(s.db, ChatOf(s.db, r.a, r.b)) {
      var begun := Step(Step(s, Lookup(p)), Open(p, drawn));
      assert begun == Move(s, p, Opened(drawn)).(used := s.used + {drawn});
      assert Step(begun, Claim(p)) == Move(begun, p, Lost);
    }
  }

  lemma PathWithoutPair(s: State, p: nat, drawn: ChatId)
    requires p in s.requests && s.requests[p].phase.Looking? && !HasPair(s.db, s.requests[p].a, s.requests[p].b)
    ensures var r, end := s.requests[p], Alone(s, p, drawn);
      && p in end.requests
      && (if r.a in s.db.users && r.b in s.db.users
          then end.requests[p].phase == Done(Given(drawn)) && end.db == Created(s.db, drawn, r.a, r.b)
          else end.requests[p].phase == Done(Failed) && end.db == s.db)
  {
    var begun := Step(Step(s, Lookup(p)), Open(p, drawn));
    assert begun == Move(s, p, Opened(drawn)).(used := s.used + {drawn});
    var claimed := Step(begun, Claim(p));
    if s.requests[p].a in s.db.users && s.requests[p].b in s.db.users {
      assert claimed == Move(begun, p, Claimed(drawn));
      assert Step(claimed, Populate(p)) == Move(claimed, p, Populated(drawn));
    }
  }

  lemma TwoNames(a: Name, b: Name)
    requires Less(a, b)
    ensures |{a, b}| == 2
  {
    LessIsTotal(a, b);
  }

  lemma ExistingAnswers(t: Tables, a: Name, b: Name, drawn: ChatId)
    requires TablesTrue(t) && HasPair(t, a, b) && Less(a, b) && drawn !in t.chats
    ensures ChatOf(t, a, b) != drawn && CreateAnswer(t, {a, b}, false, drawn, Existing(ChatOf(t, a, b)), t)
  {
    var row :| row in t.pairs && row.a == a && row.b == b;
    assert PairRow(ChatOf(t, a, b), a, b) in t.pairs;
    assert RowTrue(t, PairRow(ChatOf(t, a, b), a, b));
  }

  /** Taken one by one, the steps of a request are the method CreateDirect: the same answer
      and the same tables, also when the pair's chat was retired and the lookup passes it by. */
  lemma AloneIsCreateChat(s: State, p: nat, drawn: ChatId)
    requires Inv(s) && p in s.requests && s.requests[p].phase.Looking? && drawn !in s.used
    ensures AnswersAlone(s, p, drawn)
  {
    var r := s.requests[p];
    TwoNames(r.a, r.b);
    if HasPair(s.db, r.a, r.b) {
      PathWithPair(s, p, drawn);
      ExistingAnswers(s.db, r.a, r.b, drawn);
    } else {
      PathWithoutPair(s, p, drawn);
    }
  }

  // ------------------------------------------ who and what is there, on any run

  ghost predicate CarriedOut(t: Tables, from: Name, to: Name) {
    from in t.users && to !in t.users && !RenameBreaksOrder(t.pairs, from, to)
  }

  /** The event makes the user a member. */
  ghost predicate Joins(s: State, e: Event, chat: ChatId, user: Name) {
    match e
    case CreateGroup(c, who) => c == chat && user in who
    case CreateSecret(c, x, y) => c == chat && (user == x || user == y)
    case Commit(p) =>
      p in s.requests && s.requests[p].phase == Populated(chat) && (user == s.requests[p].a || user == s.requests[p].b)
    case AddInsert(q) => q in s.adding && s.adding[q] == (chat, user) && chat in s.db.chats && user in s.db.users
    case Rename(from, to) => user == to && CarriedOut(s.db, from, to) && (chat, from) in s.db.members
    case _ => false
  }

  /** The event ends a membership: the member leaves, the chat or the account goes, or the
      account takes another name. */
  ghost predicate Parts(s: State, e: Event, chat: ChatId, user: Name) {
    match e
    case Leave(c, u) => c == chat && u == user
    case DeleteForEveryone(c, _) => c == chat
    case AdminDelete(c) => c == chat
    case DeleteUser(u) => u == user
    case Rename(from, to) => user == from && CarriedOut(s.db, from, to)
    case _ => false
  }

  lemma RenamedMember(t: Tables, from: Name, to: Name, chat: ChatId, user: Name)
    ensures (chat, user) in Renamed(t, from, to).members <==>
      (user == to && CarriedOut(t, from, to) && (chat, from) in t.members) ||
      ((chat, user) in t.members && !(user == from && CarriedOut(t, from, to)))
  {
    if CarriedOut(t, from, to) {
      RenamedMembers(t, from, to, chat);
      assert (chat, user) in Renamed(t, from, to).members <==> user in Members(Renamed(t, from, to), chat);
      assert user in Members(t, chat) ==> NewName(user, from, to) in Members(Renamed(t, from, to), chat);
      assert from in Members(t, chat) ==> NewName(from, from, to) in Members(Renamed(t, from, to), chat);
    }
  }

  lemma MemberStep(s: State, e: Event, chat: ChatId, user: Name)
    requires Enabled(s, e)
    ensures (chat, user) in Step(s, e).db.members <==>
      Joins(s, e, chat, user) || ((chat, user) in s.db.members && !Parts(s, e, chat, user))
  {
    match e
    case Rename(from, to) => RenamedMember(s.db, from, to, chat, user);
    case Leave(c, u) => LeaveExactly(s.db, c, u);
    case _ =>
  }

  lemma {:induction false} LegalPrefix(es: seq<Event>, i: nat)
    requires Legal(es) && i < |es|
    ensures Legal(es[..i]) && Enabled(Run(es[..i]), es[i]) && Run(es[..i + 1]) == Step(Run(es[..i]), es[i])
  {
    if i + 1 == |es| {
      assert es[..i] == Init(es) && es[..i + 1] == es;
    } else {
      LegalPrefix(Init(es), i);
      assert Init(es)[..i] == es[..i] && Init(es)[..i + 1] == es[..i + 1];
    }
  }

  ghost function Belongs(es: seq<Event>, chat: ChatId, user: Name): nat -> bool {
    (i: nat) => i <= |es| && (chat, user) in Run(es[..i]).db.members
  }

  ghost function Joining(es: seq<Event>, chat: ChatId, user: Name): nat -> bool {
    (i: nat) => i < |es| && Joins(Run(es[..i]), es[i], chat, user)
  }

  ghost function Parting(es: seq<Event>, chat: ChatId, user: Name): nat -> bool {
    (i: nat) => i < |es| && Parts(Run(es[..i]), es[i], chat, user)
  }

  lemma MemberStepAt(es: seq<Event>, i: nat, chat: ChatId, user: Name)
    requires Legal(es) && i < |es|
    ensures Switches(Belongs(es, chat, user), Joining(es, chat, user), Parting(es, chat, user), i)
  {
    LegalPrefix(es, i);
    MemberStep(Run(es[..i]), es[i], chat, user);
  }

  lemma MembersSwitches(es: seq<Event>, chat: ChatId, user: Name)
    requires Legal(es)
    ensures forall i: nat :: i < |es| ==> Switches(Belongs(es, chat, user), Joining(es, chat, user), Parting(es, chat, user), i)
  {
    forall i: nat | i < |es|
      ensures Switches(Belongs(es, chat, user), Joining(es, chat, user), Parting(es, chat, user), i)
    {
      MemberStepAt(es, i, chat, user);
    }
  }

  lemma MembersEnds(es: seq<Event>, chat: ChatId, user: Name)
    requires Legal(es)
    ensures !Belongs(es, chat, user)(0) && (Belongs(es, chat, user)(|es|) <==> (chat, user) in Run(es).db.members)
  {
    assert es[..0] == [] && es[..|es|] == es;
  }

  /** Somebody is in a chat if and only if something made them a member and since then they
      have not left, been deleted or renamed, and the chat has not been deleted. */
  lemma MembersExactly(es: seq<Event>, chat: ChatId, user: Name)
    requires Legal(es)
    ensures (chat, user) in Run(es).db.members <==> HeldSince(Joining(es, chat, user), Parting(es, chat, user), |es|)
  {
    MembersSwitches(es, chat, user);
    MembersEnds(es, chat, user);
    Since(Belongs(es, chat, user), Joining(es, chat, user), Parting(es, chat, user), |es|);
  }

  /** The event brings the chat about. */
  ghost predicate Opens(s: State, e: Event, chat: ChatId) {
    match e
    case CreateGroup(c, _) => c == chat
    case CreateSecret(c, _, _) => c == chat
    case Commit(p) => p in s.requests && s.requests[p].phase == Populated(chat)
    case _ => false
  }

  /** The event ends the chat: somebody deletes it, or the last member leaves. */
  ghost predicate Closes(s: State, e: Event, chat: ChatId) {
    match e
    case Leave(c, u) => c == chat && forall other :: (chat, other) in s.db.members ==> other == u
    case DeleteForEveryone(c, _) => c == chat
    case AdminDelete(c) => c == chat
    case _ => false
  }

  lemma ChatStep(s: State, e: Event, chat: ChatId)
    requires Enabled(s, e)
    ensures chat in Step(s, e).db.chats <==> Opens(s, e, chat) || (chat in s.db.chats && !Closes(s, e, chat))
  {
    match e
    case Leave(c, u) => LeaveExactly(s.db, c, u);
    case _ =>
  }

  ghost function Stands(es: seq<Event>, chat: ChatId): nat -> bool {
    (i: nat) => i <= |es| && chat in Run(es[..i]).db.chats
  }

  ghost function Founding(es: seq<Event>, chat: ChatId): nat -> bool {
    (i: nat) => i < |es| && Opens(Run(es[..i]), es[i], chat)
  }

  ghost function Ending(es: seq<Event>, chat: ChatId): nat -> bool {
    (i: nat) => i < |es| && Closes(Run(es[..i]), es[i], chat)
  }

  lemma ChatStepAt(es: seq<Event>, i: nat, chat: ChatId)
    requires Legal(es) && i < |es|
    ensures Switches(Stands(es, chat), Founding(es, chat), Ending(es, chat), i)
  {
    LegalPrefix(es, i);
    ChatStep(Run(es[..i]), es[i], chat);
  }

  lemma ChatsSwitches(es: seq<Event>, chat: ChatId)
    requires Legal(es)
    ensures forall i: nat :: i < |es| ==> Switches(Stands(es, chat), Founding(es, chat), Ending(es, chat), i)
  {
    forall i: nat | i < |es|
      ensures Switches(Stands(es, chat), Founding(es, chat), Ending(es, chat), i)
    {
      ChatStepAt(es, i, chat);
    }
  }

  lemma ChatsEnds(es: seq<Event>, chat: ChatId)
    requires Legal(es)
    ensures !Stands(es, chat)(0) && (Stands(es, chat)(|es|) <==> chat in Run(es).db.chats)
  {
    assert es[..0] == [] && es[..|es|] == es;
  }

  /** A chat is there if and only if it was created and since then nobody has deleted it and
      its last member has not left. */
  lemma ChatsExactly(es: seq<Event>, chat: ChatId)
    requires Legal(es)
    ensures chat in Run(es).db.chats <==> HeldSince(Founding(es, chat), Ending(es, chat), |es|)
  {
    ChatsSwitches(es, chat);
    ChatsEnds(es, chat);
    Since(Stands(es, chat), Founding(es, chat), Ending(es, chat), |es|);
  }

  /** The event gives the pair this chat: a commit, or a rename of one of the two. */
  ghost predicate Pairs(s: State, e: Event, row: PairRow) {
    match e
    case Commit(p) => p in s.requests && s.requests[p] == Request(row.a, row.b, Populated(row.chat))
    case Rename(from, to) =>
      CarriedOut(s.db, from, to) &&
      ((row.a == to && PairRow(row.chat, from, row.b) in s.db.pairs) ||
       (row.b == to && PairRow(row.chat, row.a, from) in s.db.pairs))
    case _ => false
  }

  /** The event frees the pair: somebody leaves, or the chat or an account goes or is renamed. */
  ghost predicate Frees(s: State, e: Event, row: PairRow) {
    match e
    case Leave(c, _) => c == row.chat
    case DeleteForEveryone(c, _) => c == row.chat
    case AdminDelete(c) => c == row.chat
    case DeleteUser(u) => u == row.a || u == row.b
    case Rename(from, to) => (from == row.a || from == row.b) && CarriedOut(s.db, from, to)
    case _ => false
  }

  lemma RenamedPair(t: Tables, from: Name, to: Name, row: PairRow)
    requires TablesTrue(t) && CarriedOut(t, from, to)
    ensures row in Renamed(t, from, to).pairs <==>
      (row.a == to && PairRow(row.chat, from, row.b) in t.pairs) ||
      (row.b == to && PairRow(row.chat, row.a, from) in t.pairs) ||
      (row in t.pairs && from != row.a && from != row.b)
  {
    forall r | r in t.pairs
      ensures RowTrue(t, r) && r.a != r.b && r.a != to && r.b != to
      ensures PairRenamed(r, from, to) in Renamed(t, from, to).pairs
    {
      assert RowTrue(t, r);
      LessIsTotal(r.a, r.b);
    }
    if row in Renamed(t, from, to).pairs {
      var r :| r in t.pairs && row == PairRenamed(r, from, to);
      assert r == PairRow(r.chat, r.a, r.b);
    }
    var x, y := PairRow(row.chat, from, row.b), PairRow(row.chat, row.a, from);
    assert x in t.pairs && row.a == to ==> PairRenamed(x, from, to) == row;
    assert y in t.pairs && row.b == to ==> PairRenamed(y, from, to) == row;
    assert row in t.pairs && from != row.a && from != row.b ==> PairRenamed(row, from, to) == row;
  }

  lemma OtherPairStep(s: State, e: Event, row: PairRow)
    requires Enabled(s, e) && !e.Rename? && !e.Leave?
    ensures row in Step(s, e).db.pairs <==> Pairs(s, e, row) || (row in s.db.pairs && !Frees(s, e, row))
  {
  }

  lemma PairStep(s: State, e: Event, row: PairRow)
    requires Inv(s) && Enabled(s, e)
    ensures row in Step(s, e).db.pairs <==> Pairs(s, e, row) || (row in s.db.pairs && !Frees(s, e, row))
  {
    match e
    case Rename(from, to) =>
      if CarriedOut(s.db, from, to) {
        RenamedPair(s.db, from, to, row);
      }
    case Leave(c, u) => LeaveExactly(s.db, c, u);
    case _ => OtherPairStep(s, e, row);
  }

  ghost function Talking(es: seq<Event>, row: PairRow): nat -> bool {
    (i: nat) => i <= |es| && row in Run(es[..i]).db.pairs
  }

  ghost function Pairing(es: seq<Event>, row: PairRow): nat -> bool {
    (i: nat) => i < |es| && Pairs(Run(es[..i]), es[i], row)
  }

  ghost function Freeing(es: seq<Event>, row: PairRow): nat -> bool {
    (i: nat) => i < |es| && Frees(Run(es[..i]), es[i], row)
  }

  lemma PairStepAt(es: seq<Event>, i: nat, row: PairRow)
    requires Legal(es) && i < |es|
    ensures Switches(Talking(es, row), Pairing(es, row), Freeing(es, row), i)
  {
    LegalPrefix(es, i);
    RunKeepsInv(es[..i]);
    PairStep(Run(es[..i]), es[i], row);
  }

  lemma PairsSwitches(es: seq<Event>, row: PairRow)
    requires Legal(es)
    ensures forall i: nat :: i < |es| ==> Switches(Talking(es, row), Pairing(es, row), Freeing(es, row), i)
  {
    forall i: nat | i < |es|
      ensures Switches(Talking(es, row), Pairing(es, row), Freeing(es, row), i)
    {
      PairStepAt(es, i, row);
    }
  }

  lemma PairsEnds(es: seq<Event>, row: PairRow)
    requires Legal(es)
    ensures !Talking(es, row)(0) && (Talking(es, row)(|es|) <==> row in Run(es).db.pairs)
  {
    assert es[..0] == [] && es[..|es|] == es;
  }

  /** A pair has a conversation if and only if a request committed it (or a rename made it
      theirs) and since then neither has left it, been deleted or renamed, and it has not been
      deleted. */
  lemma PairsExactly(es: seq<Event>, row: PairRow)
    requires Legal(es)
    ensures row in Run(es).db.pairs <==> HeldSince(Pairing(es, row), Freeing(es, row), |es|)
  {
    PairsSwitches(es, row);
    PairsEnds(es, row);
    Since(Talking(es, row), Pairing(es, row), Freeing(es, row), |es|);
  }

  /** The two have a direct chat. */
  ghost predicate Peers(t: Tables, x: Name, y: Name) { HasPair(t, x, y) || HasPair(t, y, x) }

  lemma RowBreaks(t: Tables, r: PairRow, from: Name, to: Name)
    requires TablesTrue(t) && r in t.pairs && to !in t.users
    ensures !Less(PairRenamed(r, from, to).a, PairRenamed(r, from, to).b) <==>
      (r.a == from && Less(r.b, to)) || (r.b == from && Less(to, r.a))
  {
    assert RowTrue(t, r);
    LessIsTotal(r.a, r.b);
    LessIsTotal(r.b, to);
    LessIsTotal(r.a, to);
  }

  lemma BreaksMeansPast(t: Tables, from: Name, to: Name)
    requires TablesTrue(t) && to !in t.users && RenameBreaksOrder(t.pairs, from, to)
    ensures exists y :: Peers(t, from, y) && (Less(from, y) <==> Less(y, to))
  {
    var r :| r in t.pairs && !Less(PairRenamed(r, from, to).a, PairRenamed(r, from, to).b);
    assert RowTrue(t, r);
    RowBreaks(t, r, from, to);
    LessIsTotal(r.a, r.b);
    var y := if r.a == from then r.b else r.a;
    LessIsTotal(y, to);
    assert Peers(t, from, y);
  }

  lemma PastMeansBreaks(t: Tables, from: Name, to: Name, y: Name)
    requires TablesTrue(t) && to !in t.users && Peers(t, from, y) && (Less(from, y) <==> Less(y, to))
    ensures RenameBreaksOrder(t.pairs, from, to)
  {
    var r :| r in t.pairs && ((r.a == from && r.b == y) || (r.a == y && r.b == from));
    assert RowTrue(t, r);
    RowBreaks(t, r, from, to);
    LessIsTotal(r.a, r.b);
    LessIsTotal(y, to);
  }

  /** A rename to a free name takes effect unless it carries somebody past a person they
      have a direct chat with, upwards or downwards: the pair row cannot follow, and the
      whole rename is refused. */
  lemma RenameRefusedExactly(es: seq<Event>, from: Name, to: Name)
    requires Legal(es) && from in Run(es).db.users && to !in Run(es).db.users
    ensures var t := Run(es).db;
      Renamed(t, from, to) == t <==> exists y :: Peers(t, from, y) && (Less(from, y) <==> Less(y, to))
  {
    RunKeepsInv(es);
    var t := Run(es).db;
    if RenameBreaksOrder(t.pairs, from, to) {
      BreaksMeansPast(t, from, to);
    } else {
      assert to in Renamed(t, from, to).users;
      if y :| Peers(t, from, y) && (Less(from, y) <==> Less(y, to)) {
        PastMeansBreaks(t, from, to, y);
      }
    }
  }
}
