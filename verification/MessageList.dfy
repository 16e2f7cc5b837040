/** `useChat.js`: the message list of the open conversation, and what answers that arrive
    late do to it. */
module MessageList {
  import opened Common

  // --------------------------------------------------------- delivery states

  /** Position of a delivery state; `None` for `undefined` and for unknown names. */
  function Order(status: Option<string>): Option<nat> {
    match status
    case Some("sent") => Some(0)
    case Some("delivered") => Some(1)
    case Some("seen") => Some(2)
    case _ => None
  }

  function Rank(status: Option<string>): nat {
    match Order(status) case Some(n) => n case None => 0
  }

  function AdvanceStatus(current: Option<string>, next: Option<string>): Option<string> {
    match Order(next)
    case None => current
    case Some(to) => if to > Rank(current) then next else current
  }

  /** A state only moves forwards, an unknown one is ignored, and the order in which a set
      of states arrives does not matter to where the message ends up. */
  lemma AdvanceIsMaximum(current: Option<string>, a: Option<string>, b: Option<string>)
    ensures Rank(AdvanceStatus(current, a)) == if Rank(a) > Rank(current) then Rank(a) else Rank(current)
    ensures Order(a).None? ==> AdvanceStatus(current, a) == current
    ensures Order(current).Some? ==>
      AdvanceStatus(AdvanceStatus(current, a), b) == AdvanceStatus(AdvanceStatus(current, b), a)
  {
  }

  // ---------------------------------------------------------------- messages

  /** Ids handed out by this client start here; the server's stay far below. */
  const CLIENT_ID_BASE: int := 1_000_000_000_000_000

  datatype File = File(name: string, size: nat)

  /** What only this client knows about a message. */
  datatype Local = Local(pending: bool, failed: bool, progress: nat, url: Option<string>, file: Option<File>)

  const NOT_LOCAL := Local(false, false, 0, None, None)

  /** A message as the server sends it. */
  datatype Wire = Wire(id: int, status: Option<string>, body: string)

  datatype Message = Message(id: int, status: Option<string>, body: string, local: Local)

  type List = seq<Message>

  type ChatId = string

  function Ids(s: List): set<int> {
    set m | m in s :: m.id
  }

  ghost predicate UniqueIds(s: List) {
    forall i, j :: 0 <= i < j < |s| ==> s[i].id != s[j].id
  }

  ghost predicate Ascending(s: List) {
    forall i, j :: 0 <= i < j < |s| ==> s[i].id < s[j].id
  }

  // ------------------------------------------------------------ list updates

  /** Position of the message with this id; the length when there is none. */
  function At(s: List, id: int): (i: nat)
    ensures i <= |s| && (i < |s| ==> s[i].id == id)
    ensures forall j :: 0 <= j < i ==> s[j].id != id
  {
    FirstWhere(s, (m: Message) => m.id == id)
  }

  /** Set one entry of the Map keyed by id: the copy's own fields win, the rest stay. */
  function Upsert(s: List, w: Wire): List {
    var i := At(s, w.id);
    if i < |s| then s[i := Message(w.id, w.status, w.body, s[i].local)]
    else s + [Message(w.id, w.status, w.body, NOT_LOCAL)]
  }

  function UpsertAll(s: List, ws: seq<Wire>): List {
    if ws == [] then s else Upsert(UpsertAll(s, Init(ws)), Last(ws))
  }

  function Insert(m: Message, s: List): List {
    if s == [] || m.id <= s[0].id then [m] + s else [s[0]] + Insert(m, s[1..])
  }

  function Sort(s: List): List {
    if s == [] then [] else Insert(s[0], Sort(s[1..]))
  }

  function Merge(s: List, ws: seq<Wire>): List { Sort(UpsertAll(s, ws)) }

  function Advance(s: List, ids: set<int>, next: Option<string>): List {
    seq(|s|, i requires 0 <= i < |s| =>
      if s[i].id in ids then s[i].(status := AdvanceStatus(s[i].status, next)) else s[i])
  }

  function Drop(s: List, ids: set<int>): List {
    if s == [] then [] else (if s[0].id in ids then [] else [s[0]]) + Drop(s[1..], ids)
  }

  /** Change what is local to the message with this id. */
  function WithLocal(s: List, id: int, local: Local -> Local): List {
    seq(|s|, i requires 0 <= i < |s| =>
      if s[i].id == id then s[i].(local := local(s[i].local)) else s[i])
  }

  /** The temporary bubble gives way to the server's message. */
  function Settle(s: List, temp: int, optimistic: Message, id: int): List {
    var rest := Drop(s, {temp});
    var l := optimistic.local;
    if At(rest, id) < |rest| then
      Sort(WithLocal(rest, id, (was: Local) => if was.url.None? then was.(url := l.url) else was))
    else
      Sort(rest + [optimistic.(id := id, local := Local(false, false, 100, l.url, None))])
  }

  // ------------------------------------------------------------ the open chat

  /** An upload under way: the bubble it began as, and the chat that was open then. */
  datatype Task = Task(bubble: Message, chat: ChatId)

  /** A live message that has passed the handler's checks and is being decrypted. */
  datatype Rendering = Rendering(chat: ChatId, msg: Wire)

  datatype View = View(
    chat: ChatId,                    // the open chat
    list: List,
    counter: nat,                    // temporary ids handed out so far
    uploads: map<int, Task>,
    pendingNames: set<string>,
    rendering: multiset<Rendering>)

  /** What comes from the server names its chat. Only live messages, status events and
      deletions are compared with the open chat; the answer to a history request or to an
      upload is not, and neither is a live message once it is decrypted. */
  datatype Event =
    | Loaded(chat: ChatId, batch: seq<Wire>)
    | Live(chat: ChatId, msg: Wire, ownFile: Option<string>)    // `ownFile`: the name of our own attachment, if it is one
    | Rendered(chat: ChatId, msg: Wire)
    | StatusEvent(chat: ChatId, ids: set<int>, next: Option<string>)
    | Deleted(chat: ChatId, ids: set<int>)
    | Upload(file: File, preview: Option<string>)
    | Progress(temp: int, percent: nat)
    | UploadDone(temp: int, id: int)
    | UploadFailed(temp: int)
    | Retry(temp: int, file: File, preview: Option<string>)
    | Switch(chat: ChatId)

  const CLOSED := View("", [], 0, map[], {}, multiset{})

  function Bubble(v: View, file: File, preview: Option<string>): Message {
    Message(CLIENT_ID_BASE + v.counter, Some("sent"), file.name, Local(true, false, 0, preview, Some(file)))
  }

  function Begin(v: View, file: File, preview: Option<string>): View {
    var m := Bubble(v, file, preview);
    v.(list := Sort(v.list + [m]), counter := v.counter + 1, uploads := v.uploads[m.id := Task(m, v.chat)],
       pendingNames := v.pendingNames + {file.name})
  }

  function Finished(v: View, temp: int): View {
    if temp in v.uploads then
      v.(uploads := v.uploads - {temp}, pendingNames := v.pendingNames - {v.uploads[temp].bubble.body})
    else v
  }

  predicate OwnEcho(v: View, ownFile: Option<string>) {
    ownFile.Some? && ownFile.value in v.pendingNames
  }

  function Step(v: View, e: Event): View {
    match e
    case Loaded(_, batch) => v.(list := Merge(v.list, batch))
    case Live(chat, msg, ownFile) =>
      if chat != v.chat || OwnEcho(v, ownFile) then v
      else v.(rendering := v.rendering + multiset{Rendering(chat, msg)})
    case Rendered(chat, msg) =>
      v.(list := Merge(v.list, [msg]), rendering := v.rendering - multiset{Rendering(chat, msg)})
    case StatusEvent(chat, ids, next) => if chat != v.chat then v else v.(list := Advance(v.list, ids, next))
    case Deleted(chat, ids) => if chat != v.chat then v else v.(list := Drop(v.list, ids))
    case Upload(file, preview) => Begin(v, file, preview)
    case Progress(temp, p) => v.(list := WithLocal(v.list, temp, (l: Local) => l.(progress := p)))
    case UploadDone(temp, id) =>
      if temp in v.uploads then Finished(v, temp).(list := Settle(v.list, temp, v.uploads[temp].bubble, id)) else v
    case UploadFailed(temp) =>
      Finished(v, temp).(list := WithLocal(v.list, temp, (l: Local) => l.(pending := false, failed := true)))
    case Retry(temp, file, preview) => Begin(v.(list := Drop(v.list, {temp})), file, preview)
    case Switch(chat) => v.(chat := chat, list := [], pendingNames := {})
  }

  /** Server ids lie below the temporary range; an upload ends once; only a bubble that
      still has its file can be retried, and those have temporary ids. */
  ghost predicate Enabled(v: View, e: Event) {
    match e
    case Loaded(_, batch) => forall w :: w in batch ==> w.id < CLIENT_ID_BASE
    case Live(_, msg, _) => msg.id < CLIENT_ID_BASE
    case Rendered(chat, msg) => Rendering(chat, msg) in v.rendering
    case UploadDone(temp, id) => temp in v.uploads && id < CLIENT_ID_BASE
    case UploadFailed(temp) => temp in v.uploads
    case Retry(temp, _, _) => CLIENT_ID_BASE <= temp < CLIENT_ID_BASE + v.counter
    case _ => true
  }

  function Run(es: seq<Event>): View {
    if es == [] then CLOSED else Step(Run(Init(es)), Last(es))
  }

  ghost predicate Legal(es: seq<Event>) {
    es != [] ==> Legal(Init(es)) && Enabled(Run(Init(es)), Last(es))
  }

  /** The hook's state: the list React renders, and the refs it changes in place. */
  class ChatHook {
    var chatId: ChatId
    var messages: List
    var mediaCounter: nat
    var pendingMediaNames: set<string>
    ghost var uploads: map<int, Task>
    ghost var rendering: multiset<Rendering>

    ghost function Now(): View
      reads this
    {
      View(chatId, messages, mediaCounter, uploads, pendingMediaNames, rendering)
    }

    constructor ()
      ensures Now() == CLOSED
    {
      chatId, messages, mediaCounter, pendingMediaNames := "", [], 0, {};
      uploads, rendering := map[], multiset{};
    }

    /** Also the end of a load, whichever chat it was for. */
    method MergeMessages(incoming: seq<Wire>, ghost chat: ChatId)
      modifies `messages
      ensures Now() == Step(old(Now()), Loaded(chat, incoming))
      ensures UniqueIds(old(messages)) ==> forall m :: m in messages <==> Merged(old(messages), incoming, m)
    {
      var byId := messages;
      for i := 0 to |incoming|
        invariant byId == UpsertAll(messages, incoming[..i])
      {
        assert Init(incoming[..i + 1]) == incoming[..i];
        byId := Upsert(byId, incoming[i]);
      }
      assert incoming[..|incoming|] == incoming;
      if UniqueIds(messages) {
        MergeMeaning(messages, incoming);
      }
      messages := Sort(byId);
    }

    /** The checks of the message handler, before it decrypts. */
    method OnMessage(chat: ChatId, msg: Wire, ownFile: Option<string>) returns (render: bool)
      modifies `rendering
      ensures Now() == Step(old(Now()), Live(chat, msg, ownFile))
      ensures render <==> chat == chatId && !(ownFile.Some? && ownFile.value in pendingMediaNames)
    {
      if chat != chatId {
        return false;
      }
      if ownFile.Some? && ownFile.value in pendingMediaNames {
        return false;
      }
      rendering := rendering + multiset{Rendering(chat, msg)};
      return true;
    }

    /** The rest of the handler. */
    method OnRendered(chat: ChatId, msg: Wire)
      modifies `messages, `rendering
      ensures Now() == Step(old(Now()), Rendered(chat, msg))
    {
      MergeMessages([msg], chat);
      rendering := rendering - multiset{Rendering(chat, msg)};
    }

    /** A status event or a deletion. */
    method OnChange(chat: ChatId, ids: set<int>, deleted: bool, next: Option<string>)
      modifies `messages
      ensures Now() == Step(old(Now()), if deleted then Deleted(chat, ids) else StatusEvent(chat, ids, next))
    {
      if chat != chatId {
        return;
      }
      messages := if deleted then Drop(messages, ids) else Advance(messages, ids, next);
    }

    /** The synchronous part of sendMedia: the optimistic bubble. */
    method SendMedia(file: File, preview: Option<string>) returns (optimistic: Message)
      modifies `messages, `mediaCounter, `pendingMediaNames, `uploads
      ensures Now() == Step(old(Now()), Upload(file, preview))
      ensures optimistic == Bubble(old(Now()), file, preview)
    {
      var tempId := CLIENT_ID_BASE + mediaCounter;
      mediaCounter := mediaCounter + 1;
      pendingMediaNames := pendingMediaNames + {file.name};
      optimistic := Message(tempId, Some("sent"), file.name, Local(true, false, 0, preview, Some(file)));
      messages := Sort(messages + [optimistic]);
      uploads := uploads[tempId := Task(optimistic, chatId)];
    }

    /** sendMedia after its upload has been answered with the server's id. */
    method OnUploaded(optimistic: Message, id: int)
      requires optimistic.id in uploads && uploads[optimistic.id].bubble == optimistic
      modifies `messages, `pendingMediaNames, `uploads
      ensures Now() == Step(old(Now()), UploadDone(optimistic.id, id))
    {
      messages := Settle(messages, optimistic.id, optimistic, id);
      pendingMediaNames := pendingMediaNames - {optimistic.body};
      uploads := uploads - {optimistic.id};
    }

    /** What the effects do when another conversation is opened, before its load. */
    method SwitchTo(chat: ChatId)
      modifies `chatId, `messages, `pendingMediaNames
      ensures Now() == Step(old(Now()), Switch(chat))
    {
      chatId := chat;
      messages := [];
      pendingMediaNames := {};
    }
  }

  // -------------------------------------------------- what the updates do to ids

  lemma {:induction false} InsertKeeps(m: Message, s: List)
    requires Ascending(s) && m.id !in Ids(s)
    ensures Ascending(Insert(m, s))
    ensures forall x :: x in Insert(m, s) <==> x == m || x in s
  {
    if s != [] && m.id > s[0].id {
      assert s == [s[0]] + s[1..];
      assert Ids(s[1..]) <= Ids(s);
      InsertKeeps(m, s[1..]);
      var r := Insert(m, s[1..]);
      forall j | 0 <= j < |r|
        ensures s[0].id < r[j].id
      {
        assert r[j] in r;
      }
    } else {
      assert forall j :: 0 <= j < |s| ==> s[j] in s;
      assert s != [] ==> s[0].id in Ids(s);
    }
  }

  /** Sorting messages with unique ids puts them in strictly ascending order. */
  lemma {:induction false} SortAscends(s: List)
    requires UniqueIds(s)
    ensures Ascending(Sort(s))
    ensures forall x :: x in Sort(s) <==> x in s
  {
    if s != [] {
      SortAscends(s[1..]);
      assert s == [s[0]] + s[1..];
      assert s[0].id !in Ids(Sort(s[1..]));
      InsertKeeps(s[0], Sort(s[1..]));
    }
  }

  lemma UpsertIds(s: List, w: Wire)
    requires UniqueIds(s)
    ensures UniqueIds(Upsert(s, w)) && Ids(Upsert(s, w)) == Ids(s) + {w.id}
  {
    var i := At(s, w.id);
    var r := Upsert(s, w);
    forall j | 0 <= j < |r|
      ensures r[j].id in Ids(s) + {w.id}
    {
      if j < |s| {
        assert s[j] in s && s[j].id == r[j].id;
      }
    }
    forall id | id in Ids(s) + {w.id}
      ensures id in Ids(r)
    {
      var j := if id == w.id then i else At(s, id);
      if id != w.id {
        var m :| m in s && m.id == id;
      }
      assert r[j] in r && r[j].id == id;
    }
  }

  ghost function WireIds(ws: seq<Wire>): set<int> { set w | w in ws :: w.id }

  lemma {:induction false} UpsertAllIds(s: List, ws: seq<Wire>)
    requires UniqueIds(s)
    ensures UniqueIds(UpsertAll(s, ws)) && Ids(UpsertAll(s, ws)) == Ids(s) + WireIds(ws)
  {
    if ws != [] {
      UpsertAllIds(s, Init(ws));
      UpsertIds(UpsertAll(s, Init(ws)), Last(ws));
      assert ws == Init(ws) + [Last(ws)];
    }
  }

  lemma SameMembersSameIds(a: List, b: List)
    requires forall x :: x in a <==> x in b
    ensures Ids(a) == Ids(b)
  {
  }

  lemma MergeIds(s: List, ws: seq<Wire>)
    requires UniqueIds(s)
    ensures Ascending(Merge(s, ws)) && Ids(Merge(s, ws)) == Ids(s) + WireIds(ws)
  {
    UpsertAllIds(s, ws);
    SortAscends(UpsertAll(s, ws));
    SameMembersSameIds(Merge(s, ws), UpsertAll(s, ws));
  }

  lemma {:induction false} DropMembers(s: List, ids: set<int>)
    ensures forall m :: m in Drop(s, ids) <==> m in s && m.id !in ids
  {
    if s != [] {
      DropMembers(s[1..], ids);
      assert s == [s[0]] + s[1..];
    }
  }

  lemma {:induction false} DropAscends(s: List, ids: set<int>)
    requires Ascending(s)
    ensures Ascending(Drop(s, ids))
  {
    if s != [] {
      DropAscends(s[1..], ids);
      DropMembers(s[1..], ids);
      var rest := Drop(s[1..], ids);
      forall j | 0 <= j < |rest|
        ensures s[0].id < rest[j].id
      {
        assert rest[j] in rest;
      }
    }
  }

  lemma DropIds(s: List, ids: set<int>)
    requires Ascending(s)
    ensures Ascending(Drop(s, ids)) && Ids(Drop(s, ids)) == Ids(s) - ids
    ensures forall m :: m in Drop(s, ids) <==> m in s && m.id !in ids
  {
    DropAscends(s, ids);
    DropMembers(s, ids);
  }

  lemma AppendSortedIds(s: List, m: Message)
    requires UniqueIds(s) && m.id !in Ids(s)
    ensures Ascending(Sort(s + [m])) && Ids(Sort(s + [m])) == Ids(s) + {m.id}
  {
    assert forall j :: 0 <= j < |s| ==> s[j].id in Ids(s);
    SortAscends(s + [m]);
    SameMembersSameIds(Sort(s + [m]), s + [m]);
    assert Ids(s + [m]) == Ids(s) + {m.id};
  }

  lemma WithLocalIds(s: List, id: int, local: Local -> Local)
    requires Ascending(s)
    ensures Ascending(WithLocal(s, id, local)) && Ids(WithLocal(s, id, local)) == Ids(s)
  {
    var r := WithLocal(s, id, local);
    assert forall i :: 0 <= i < |s| ==> r[i].id == s[i].id && s[i] in s && r[i] in r;
  }

  lemma AdvanceIds(s: List, ids: set<int>, next: Option<string>)
    requires Ascending(s)
    ensures Ascending(Advance(s, ids, next)) && Ids(Advance(s, ids, next)) == Ids(s)
  {
    var r := Advance(s, ids, next);
    assert forall i :: 0 <= i < |s| ==> r[i].id == s[i].id && s[i] in s && r[i] in r;
  }

  lemma SettleIds(s: List, temp: int, optimistic: Message, id: int)
    requires Ascending(s) && id != temp
    ensures Ascending(Settle(s, temp, optimistic, id))
    ensures Ids(Settle(s, temp, optimistic, id)) == Ids(s) - {temp} + {id}
  {
    DropIds(s, {temp});
    var rest := Drop(s, {temp});
    var i := At(rest, id);
    var l := optimistic.local;
    if i < |rest| {
      assert rest[i] in rest;
      var f := (was: Local) => if was.url.None? then was.(url := l.url) else was;
      WithLocalIds(rest, id, f);
      SortAscends(WithLocal(rest, id, f));
      SameMembersSameIds(Sort(WithLocal(rest, id, f)), WithLocal(rest, id, f));
    } else {
      AppendSortedIds(rest, optimistic.(id := id, local := Local(false, false, 100, l.url, None)));
    }
  }

  // -------------------------------------------------------------- invariant

  ghost predicate UploadsInv(v: View) {
    forall t :: t in v.uploads ==> CLIENT_ID_BASE <= t < CLIENT_ID_BASE + v.counter && v.uploads[t].bubble.id == t
  }

  ghost predicate RenderingInv(v: View) {
    forall r :: r in v.rendering ==> r.msg.id < CLIENT_ID_BASE
  }

  ghost predicate Inv(v: View) {
    && Ascending(v.list)
    && (forall id :: id in Ids(v.list) ==> id < CLIENT_ID_BASE + v.counter)
    && UploadsInv(v) && RenderingInv(v)
  }

  /** The ids shown after an event. */
  ghost function IdsAfter(v: View, e: Event): set<int> {
    match e
    case Loaded(_, batch) => Ids(v.list) + WireIds(batch)
    case Rendered(_, msg) => Ids(v.list) + {msg.id}
    case Deleted(chat, ids) => if chat == v.chat then Ids(v.list) - ids else Ids(v.list)
    case Upload(_, _) => Ids(v.list) + {CLIENT_ID_BASE + v.counter}
    case UploadDone(temp, id) => Ids(v.list) - {temp} + {id}
    case Retry(temp, _, _) => Ids(v.list) - {temp} + {CLIENT_ID_BASE + v.counter}
    case Switch(_) => {}
    case _ => Ids(v.list)
  }

  lemma StepIds(v: View, e: Event)
    requires Inv(v) && Enabled(v, e)
    ensures Ascending(Step(v, e).list) && Ids(Step(v, e).list) == IdsAfter(v, e)
  {
    match e
    case Loaded(_, batch) => MergeIds(v.list, batch);
    case Live(_, _, _) =>
    case Rendered(_, msg) =>
      MergeIds(v.list, [msg]);
      assert WireIds([msg]) == {msg.id};
    case StatusEvent(_, ids, next) => AdvanceIds(v.list, ids, next);
    case Deleted(_, ids) => DropIds(v.list, ids);
    case Upload(file, preview) => BeginIds(v, file, preview);
    case Progress(temp, p) => WithLocalIds(v.list, temp, (l: Local) => l.(progress := p));
    case UploadDone(temp, id) => SettleIds(v.list, temp, v.uploads[temp].bubble, id);
    case UploadFailed(temp) =>
      WithLocalIds(v.list, temp, (l: Local) => l.(pending := false, failed := true));
    case Retry(temp, file, preview) =>
      DropIds(v.list, {temp});
      BeginIds(v.(list := Drop(v.list, {temp})), file, preview);
    case Switch(_) =>
  }

  lemma BeginIds(v: View, file: File, preview: Option<string>)
    requires Ascending(v.list) && CLIENT_ID_BASE + v.counter !in Ids(v.list)
    ensures Ascending(Begin(v, file, preview).list)
    ensures Ids(Begin(v, file, preview).list) == Ids(v.list) + {CLIENT_ID_BASE + v.counter}
  {
    AppendSortedIds(v.list, Bubble(v, file, preview));
  }

  lemma StepKeepsInv(v: View, e: Event)
    requires Inv(v) && Enabled(v, e)
    ensures Inv(Step(v, e))
  {
    StepIds(v, e);
    StepKeepsUploads(v, e);
    StepKeepsRendering(v, e);
  }

  lemma StepKeepsUploads(v: View, e: Event)
    requires UploadsInv(v)
    ensures UploadsInv(Step(v, e)) && v.counter <= Step(v, e).counter
  {
  }

  lemma StepKeepsRendering(v: View, e: Event)
    requires RenderingInv(v) && Enabled(v, e)
    ensures RenderingInv(Step(v, e))
  {
  }

  lemma {:induction false} RunKeepsInv(es: seq<Event>)
    requires Legal(es)
    ensures Inv(Run(es))
  {
    if es != [] {
      RunKeepsInv(Init(es));
      StepKeepsInv(Run(Init(es)), Last(es));
    }
  }

  // ---------------------------------------------------------------- results

  /** After any sequence of events the list has strictly ascending ids. */
  lemma AlwaysAscending(es: seq<Event>)
    requires Legal(es)
    ensures Ascending(Run(es).list)
  {
    RunKeepsInv(es);
  }

  /** Two clients that show the same set of messages show them in the same order. */
  lemma {:induction false} SameIdsSameOrder(a: List, b: List)
    requires Ascending(a) && Ascending(b) && Ids(a) == Ids(b)
    ensures |a| == |b| && forall i :: 0 <= i < |a| ==> a[i].id == b[i].id
  {
    if a == [] {
      assert b != [] ==> b[0].id in Ids(b);
    } else {
      assert a[0].id in Ids(b);
      assert b[0].id in Ids(a);
      assert a[0].id == b[0].id;
      TailIds(a);
      TailIds(b);
      SameIdsSameOrder(a[1..], b[1..]);
    }
  }

  lemma TailIds(s: List)
    requires s != [] && Ascending(s)
    ensures Ids(s[1..]) == Ids(s) - {s[0].id}
  {
    assert s == [s[0]] + s[1..];
    assert forall m :: m in s[1..] ==> m.id != s[0].id;
  }

  // ------------------------------------------------ what the updates do to messages

  /** The last copy of a message in a batch. */
  function LastCopy(ws: seq<Wire>, id: int): Option<Wire> {
    if ws == [] then None
    else if Last(ws).id == id then Some(Last(ws))
    else LastCopy(Init(ws), id)
  }

  /** What the client itself knew of the message with this id; nothing, if it is not listed. */
  ghost predicate KnownOf(s: List, id: int, local: Local) {
    (exists m :: m in s && m.id == id && m.local == local) || (id !in Ids(s) && local == NOT_LOCAL)
  }

  /** The message is as the last copy in the batch says, with what was known of it locally; or
      it was listed, and the batch does not have it. */
  ghost predicate Merged(s: List, ws: seq<Wire>, m: Message) {
    match LastCopy(ws, m.id)
    case None => m in s
    case Some(w) => m.status == w.status && m.body == w.body && KnownOf(s, m.id, m.local)
  }

  lemma OneMessagePerId(s: List, a: Message, b: Message)
    requires UniqueIds(s) && a in s && b in s && a.id == b.id
    ensures a == b
  {
    var i :| 0 <= i < |s| && s[i] == a;
    var j :| 0 <= j < |s| && s[j] == b;
    assert i == j;
  }

  lemma AtFinds(s: List, id: int)
    ensures At(s, id) < |s| <==> id in Ids(s)
  {
    if m :| m in s && m.id == id {
      var j :| 0 <= j < |s| && s[j] == m;
      assert !(j < At(s, id));
    }
    if At(s, id) < |s| {
      assert s[At(s, id)] in s;
    }
  }

  lemma UpsertExactly(s: List, w: Wire, m: Message)
    requires UniqueIds(s)
    ensures m in Upsert(s, w) <==>
      if m.id == w.id then m.status == w.status && m.body == w.body && KnownOf(s, w.id, m.local) else m in s
  {
    var i := At(s, w.id);
    AtFinds(s, w.id);
    if i < |s| {
      assert s[i] in s;
      forall o | o in s && o.id == w.id
        ensures o == s[i]
      {
        OneMessagePerId(s, o, s[i]);
      }
      var new_ := Message(w.id, w.status, w.body, s[i].local);
      assert forall o :: o in Upsert(s, w) <==> o == new_ || (o in s && o != s[i]) by { ReplacedMembers(s, i, new_); }
      assert m == Message(m.id, m.status, m.body, m.local);
    } else {
      assert m == Message(m.id, m.status, m.body, m.local);
    }
  }

  lemma ReplacedMembers(s: List, i: nat, m: Message)
    requires i < |s| && UniqueIds(s)
    ensures forall o :: o in s[i := m] <==> o == m || (o in s && o != s[i])
  {
    var r := s[i := m];
    forall o | o in s && o != s[i]
      ensures o in r
    {
      var j :| 0 <= j < |s| && s[j] == o;
      assert r[j] == o;
    }
    assert r[i] == m;
    forall o | o in r && o != m
      ensures o in s && o != s[i]
    {
      var j :| 0 <= j < |r| && r[j] == o;
      assert s[j] == o && s[j].id != s[i].id;
    }
  }

  lemma {:induction false} UpsertAllExactly(s: List, ws: seq<Wire>, m: Message)
    requires UniqueIds(s)
    ensures m in UpsertAll(s, ws) <==> Merged(s, ws, m)
  {
    if ws != [] {
      var so, w := UpsertAll(s, Init(ws)), Last(ws);
      UpsertAllIds(s, Init(ws));
      UpsertExactly(so, w, m);
      UpsertAllExactly(s, Init(ws), m);
      if m.id == w.id {
        KnownStays(s, Init(ws), m.id, m.local);
      }
    }
  }

  /** Merging a batch changes nothing of what is known locally. */
  lemma {:induction false} KnownStays(s: List, ws: seq<Wire>, id: int, local: Local)
    requires UniqueIds(s)
    ensures KnownOf(UpsertAll(s, ws), id, local) <==> KnownOf(s, id, local)
  {
    if ws != [] {
      KnownStays(s, Init(ws), id, local);
      UpsertAllIds(s, Init(ws));
      KnownStaysOnce(UpsertAll(s, Init(ws)), Last(ws), id, local);
    }
  }

  lemma KnownStaysOnce(s: List, w: Wire, id: int, local: Local)
    requires UniqueIds(s)
    ensures KnownOf(Upsert(s, w), id, local) <==> KnownOf(s, id, local)
  {
    var r := Upsert(s, w);
    UpsertIds(s, w);
    if id == w.id {
      var copy := Message(id, w.status, w.body, local);
      UpsertExactly(s, w, copy);
      if o :| o in r && o.id == id && o.local == local {
        UpsertExactly(s, w, o);
      }
      assert id in Ids(r);
    } else {
      forall o: Message | o.id == id
        ensures o in r <==> o in s
      {
        UpsertExactly(s, w, o);
      }
    }
  }

  /** After a merge the list is exactly this: for every id in the batch, the last copy's state
      and text, with the local part the message had before; and every other message unchanged. */
  lemma MergeExactly(s: List, ws: seq<Wire>, m: Message)
    requires UniqueIds(s)
    ensures m in Merge(s, ws) <==> Merged(s, ws, m)
  {
    UpsertAllIds(s, ws);
    SortAscends(UpsertAll(s, ws));
    UpsertAllExactly(s, ws, m);
  }

  lemma MergeMeaning(s: List, ws: seq<Wire>)
    requires UniqueIds(s)
    ensures forall m :: m in Merge(s, ws) <==> Merged(s, ws, m)
  {
    forall m
      ensures m in Merge(s, ws) <==> Merged(s, ws, m)
    {
      MergeExactly(s, ws, m);
    }
  }

  lemma WithLocalExactly(s: List, id: int, local: Local -> Local, m: Message)
    ensures m in WithLocal(s, id, local) <==>
      exists o :: o in s && m == if o.id == id then o.(local := local(o.local)) else o
  {
    var r := WithLocal(s, id, local);
    if m in r {
      var i :| 0 <= i < |r| && r[i] == m;
      assert s[i] in s;
    }
    if o :| o in s && m == if o.id == id then o.(local := local(o.local)) else o {
      var i :| 0 <= i < |s| && s[i] == o;
      assert r[i] == m;
    }
  }

  /** The message as it was, but for its state, which moved forwards if it is among `ids`. */
  ghost predicate Moved(o: Message, ids: set<int>, next: Option<string>, m: Message) {
    && m == o.(status := m.status)
    && m.status == if o.id in ids && Order(next).Some? && Rank(next) > Rank(o.status) then next else o.status
  }

  /** A status event moves the messages it names forwards, and touches nothing else. */
  lemma AdvanceExactly(s: List, ids: set<int>, next: Option<string>, m: Message)
    ensures m in Advance(s, ids, next) <==> exists o :: o in s && Moved(o, ids, next, m)
  {
    var r := Advance(s, ids, next);
    if m in r {
      var i :| 0 <= i < |r| && r[i] == m;
      assert s[i] in s && Moved(s[i], ids, next, m);
    }
    if o :| o in s && Moved(o, ids, next, m) {
      var i :| 0 <= i < |s| && s[i] == o;
      assert r[i] == m;
    }
  }

  /** A message with the preview kept, if it had no URL. */
  function WithPreview(o: Message, url: Option<string>): Message {
    o.(local := o.local.(url := if o.local.url.None? then url else o.local.url))
  }

  /** What an upload that has been answered leaves under the server's id: the server's copy, if
      it came first, with the preview; else the bubble, no longer pending. */
  ghost predicate SettledAs(s: List, optimistic: Message, id: int, m: Message) {
    var url := optimistic.local.url;
    if id in Ids(s) then exists o :: o in s && o.id == id && m == WithPreview(o, url)
    else m == Message(id, optimistic.status, optimistic.body, Local(false, false, 100, url, None))
  }

  lemma PreviewExactly(s: List, id: int, url: Option<string>, m: Message)
    ensures m in WithLocal(s, id, (was: Local) => if was.url.None? then was.(url := url) else was) <==>
      if m.id == id then exists o :: o in s && o.id == id && m == WithPreview(o, url) else m in s
  {
    var f := (was: Local) => if was.url.None? then was.(url := url) else was;
    assert forall o: Message :: o.(local := f(o.local)) == WithPreview(o, url);
    WithLocalExactly(s, id, f, m);
  }

  lemma FilledIn(s: List, id: int, url: Option<string>, m: Message)
    requires Ascending(s)
    ensures m in Sort(WithLocal(s, id, (was: Local) => if was.url.None? then was.(url := url) else was)) <==>
      if m.id == id then exists o :: o in s && o.id == id && m == WithPreview(o, url) else m in s
  {
    var f := (was: Local) => if was.url.None? then was.(url := url) else was;
    WithLocalIds(s, id, f);
    SortAscends(WithLocal(s, id, f));
    PreviewExactly(s, id, url, m);
  }

  lemma SettleListed(s: List, temp: int, optimistic: Message, id: int, m: Message)
    requires Ascending(s) && id != temp && id in Ids(s)
    ensures m in Settle(s, temp, optimistic, id) <==>
      if m.id == id then SettledAs(s, optimistic, id, m) else m in s && m.id != temp
  {
    var rest := Drop(s, {temp});
    DropIds(s, {temp});
    AtFinds(rest, id);
    FilledIn(rest, id, optimistic.local.url, m);
    assert forall o: Message :: o.id == id ==> (o in rest <==> o in s);
  }

  lemma SettleNew(s: List, temp: int, optimistic: Message, id: int, m: Message)
    requires Ascending(s) && id != temp && id !in Ids(s)
    ensures m in Settle(s, temp, optimistic, id) <==>
      if m.id == id then SettledAs(s, optimistic, id, m) else m in s && m.id != temp
  {
    var rest := Drop(s, {temp});
    DropIds(s, {temp});
    AtFinds(rest, id);
    AppendSorted(rest, optimistic.(id := id, local := Local(false, false, 100, optimistic.local.url, None)), m);
    assert m.id == id ==> m !in s;
  }

  lemma AppendSorted(s: List, added: Message, m: Message)
    requires Ascending(s) && added.id !in Ids(s)
    ensures m in Sort(s + [added]) <==> m == added || m in s
  {
    assert forall j :: 0 <= j < |s| ==> s[j].id in Ids(s);
    SortAscends(s + [added]);
  }

  lemma SettleExactly(s: List, temp: int, optimistic: Message, id: int, m: Message)
    requires Ascending(s) && id != temp
    ensures m in Settle(s, temp, optimistic, id) <==>
      if m.id == id then SettledAs(s, optimistic, id, m) else m in s && m.id != temp
  {
    if id in Ids(s) {
      SettleListed(s, temp, optimistic, id, m);
    } else {
      SettleNew(s, temp, optimistic, id, m);
    }
  }

  /** An upload begins as a pending bubble, under an id of this client's. */
  lemma BeginExactly(v: View, file: File, preview: Option<string>, m: Message)
    requires Inv(v)
    ensures var bubble := Message(CLIENT_ID_BASE + v.counter, Some("sent"), file.name, Local(true, false, 0, preview, Some(file)));
      && (m in Begin(v, file, preview).list <==> m in v.list || m == bubble)
      && Begin(v, file, preview).uploads == v.uploads[bubble.id := Task(bubble, v.chat)]
      && Begin(v, file, preview).counter == v.counter + 1 && Begin(v, file, preview).chat == v.chat
  {
    var bubble := Bubble(v, file, preview);
    assert forall j :: 0 <= j < |v.list| ==> v.list[j].id in Ids(v.list);
    SortAscends(v.list + [bubble]);
  }

  /** A failed upload stays as a bubble that says so and keeps its file, for a retry. */
  lemma FailureExactly(v: View, temp: int, m: Message)
    ensures m in Step(v, UploadFailed(temp)).list <==>
      exists o :: o in v.list && m == if o.id == temp then o.(local := o.local.(pending := false, failed := true)) else o
  {
    WithLocalExactly(v.list, temp, (l: Local) => l.(pending := false, failed := true), m);
  }

  /** The message is listed with this text, and has come at least this far. */
  ghost predicate Shows(v: View, id: int, body: string, rank: nat) {
    exists m :: m in v.list && m.id == id && m.body == body && Rank(m.status) >= rank
  }

  function Batch(e: Event): seq<Wire> {
    match e
    case Loaded(_, batch) => batch
    case Rendered(_, msg) => [msg]
    case _ => []
  }

  lemma {:induction false} LastCopyHasId(ws: seq<Wire>, id: int)
    ensures LastCopy(ws, id).Some? ==> LastCopy(ws, id).value.id == id && LastCopy(ws, id).value in ws
  {
    if ws != [] && Last(ws).id != id {
      LastCopyHasId(Init(ws), id);
    }
  }

  lemma KnownSomehow(s: List, id: int) returns (local: Local)
    ensures KnownOf(s, id, local)
  {
    if m :| m in s && m.id == id {
      local := m.local;
    } else {
      local := NOT_LOCAL;
    }
  }

  lemma CopyShows(v: View, e: Event, w: Wire)
    requires Inv(v) && LastCopy(Batch(e), w.id) == Some(w)
    ensures Shows(Step(v, e), w.id, w.body, Rank(w.status))
  {
    var local := KnownSomehow(v.list, w.id);
    var m := Message(w.id, w.status, w.body, local);
    MergeExactly(v.list, Batch(e), m);
    assert m in Step(v, e).list;
  }

  lemma MergeKeepsShowing(v: View, batch: seq<Wire>, id: int, body: string, rank: nat)
    requires Inv(v) && Shows(v, id, body, rank) && LastCopy(batch, id) == None
    ensures exists m :: m in Merge(v.list, batch) && m.id == id && m.body == body && Rank(m.status) >= rank
  {
    var m :| m in v.list && m.id == id && m.body == body && Rank(m.status) >= rank;
    MergeExactly(v.list, batch, m);
  }

  lemma AdvanceKeepsShowing(v: View, ids: set<int>, next: Option<string>, id: int, body: string, rank: nat)
    requires Shows(v, id, body, rank)
    ensures exists m :: m in Advance(v.list, ids, next) && m.id == id && m.body == body && Rank(m.status) >= rank
  {
    var o :| o in v.list && o.id == id && o.body == body && Rank(o.status) >= rank;
    var m := o.(status := if o.id in ids && Order(next).Some? && Rank(next) > Rank(o.status) then next else o.status);
    assert Moved(o, ids, next, m);
    AdvanceExactly(v.list, ids, next, m);
  }

  lemma LocalKeepsShowing(v: View, temp: int, local: Local -> Local, id: int, body: string, rank: nat)
    requires Shows(v, id, body, rank)
    ensures exists m :: m in WithLocal(v.list, temp, local) && m.id == id && m.body == body && Rank(m.status) >= rank
  {
    var o :| o in v.list && o.id == id && o.body == body && Rank(o.status) >= rank;
    var m := if o.id == temp then o.(local := local(o.local)) else o;
    WithLocalExactly(v.list, temp, local, m);
  }

  lemma SettleKeepsShowing(v: View, temp: int, optimistic: Message, done: int, id: int, body: string, rank: nat)
    requires Inv(v) && Shows(v, id, body, rank) && id != temp && done != temp
    ensures exists m :: m in Settle(v.list, temp, optimistic, done) && m.id == id && m.body == body && Rank(m.status) >= rank
  {
    var o :| o in v.list && o.id == id && o.body == body && Rank(o.status) >= rank;
    var m := if id == done then WithPreview(o, optimistic.local.url) else o;
    SettleExactly(v.list, temp, optimistic, done, m);
  }

  lemma BeginKeepsShowing(v: View, e: Event, id: int, body: string, rank: nat)
    requires Inv(v) && Enabled(v, e) && Shows(v, id, body, rank) && id < CLIENT_ID_BASE && (e.Upload? || e.Retry?)
    ensures Shows(Step(v, e), id, body, rank)
  {
    var m :| m in v.list && m.id == id && m.body == body && Rank(m.status) >= rank;
    match e
    case Upload(file, preview) => BeginExactly(v, file, preview, m);
    case Retry(temp, file, preview) =>
      DropIds(v.list, {temp});
      BeginExactly(v.(list := Drop(v.list, {temp})), file, preview, m);
  }

  lemma StepKeepsShowing(v: View, e: Event, id: int, body: string, rank: nat)
    requires Inv(v) && Enabled(v, e) && Shows(v, id, body, rank) && id < CLIENT_ID_BASE
    requires LastCopy(Batch(e), id) == None && !Removes(v, e, id)
    ensures Shows(Step(v, e), id, body, rank)
  {
    match e
    case Loaded(_, batch) => MergeKeepsShowing(v, batch, id, body, rank);
    case Rendered(_, msg) => MergeKeepsShowing(v, [msg], id, body, rank);
    case StatusEvent(_, ids, next) => AdvanceKeepsShowing(v, ids, next, id, body, rank);
    case Deleted(_, ids) => DropIds(v.list, ids);
    case Progress(temp, p) => LocalKeepsShowing(v, temp, (l: Local) => l.(progress := p), id, body, rank);
    case UploadFailed(temp) =>
      LocalKeepsShowing(v, temp, (l: Local) => l.(pending := false, failed := true), id, body, rank);
    case UploadDone(temp, done) => SettleKeepsShowing(v, temp, v.uploads[temp].bubble, done, id, body, rank);
    case Upload(_, _) => BeginKeepsShowing(v, e, id, body, rank);
    case Retry(_, _, _) => BeginKeepsShowing(v, e, id, body, rank);
    case Live(_, _, _) =>
    case Switch(_) =>
  }

  ghost predicate CopiedAt(es: seq<Event>, j: nat, id: int) {
    j < |es| && LastCopy(Batch(es[j]), id).Some?
  }

  /** On any run, a listed message of the server's has the text of the last copy of it that
      came, and at least that copy's state, until it is removed. */
  lemma {:induction false} ShowsLastCopy(es: seq<Event>, i: nat, w: Wire)
    requires Legal(es) && i < |es| && LastCopy(Batch(es[i]), w.id) == Some(w) && w.id < CLIENT_ID_BASE
    requires forall j :: i < j < |es| ==> !CopiedAt(es, j, w.id) && !RemovedAt(es, j, w.id)
    ensures Shows(Run(es), w.id, w.body, Rank(w.status))
  {
    var so, e := Init(es), Last(es);
    RunKeepsInv(so);
    if i == |es| - 1 {
      CopyShows(Run(so), e, w);
    } else {
      forall j | i < j < |so|
        ensures !CopiedAt(so, j, w.id) && !RemovedAt(so, j, w.id)
      {
        RemovedAtStays(es, j, w.id);
        assert !CopiedAt(es, j, w.id);
      }
      ShowsLastCopy(so, i, w);
      RemovedAtEnd(es, w.id);
      assert !CopiedAt(es, |es| - 1, w.id);
      StepKeepsShowing(Run(so), e, w.id, w.body, Rank(w.status));
    }
  }

  // ----------------------------------------------- names of pending uploads

  /** The event begins an upload of a file with this name. */
  ghost predicate Names(e: Event, name: string) {
    (e.Upload? || e.Retry?) && e.file.name == name
  }

  /** An upload of a file with this name is over, or another chat is opened. */
  ghost predicate Unnames(v: View, e: Event, name: string) {
    e.Switch? ||
    ((e.UploadDone? || e.UploadFailed?) && e.temp in v.uploads && v.uploads[e.temp].bubble.body == name)
  }

  ghost function Pending(es: seq<Event>, name: string): nat -> bool {
    (i: nat) => i <= |es| && name in Run(es[..i]).pendingNames
  }

  ghost function Naming(es: seq<Event>, name: string): nat -> bool {
    (i: nat) => i < |es| && Names(es[i], name)
  }

  ghost function Unnaming(es: seq<Event>, name: string): nat -> bool {
    (i: nat) => i < |es| && Unnames(Run(es[..i]), es[i], name)
  }

  lemma PendingStep(v: View, e: Event, name: string)
    ensures name in Step(v, e).pendingNames <==> Names(e, name) || (name in v.pendingNames && !Unnames(v, e, name))
  {
  }

  lemma PendingStepAt(es: seq<Event>, i: nat, name: string)
    requires i < |es|
    ensures Switches(Pending(es, name), Naming(es, name), Unnaming(es, name), i)
  {
    assert Init(es[..i + 1]) == es[..i] && Last(es[..i + 1]) == es[i];
    PendingStep(Run(es[..i]), es[i], name);
  }

  lemma EchoSwitches(es: seq<Event>, name: string)
    ensures forall i: nat :: i < |es| ==> Switches(Pending(es, name), Naming(es, name), Unnaming(es, name), i)
  {
    forall i: nat | i < |es|
      ensures Switches(Pending(es, name), Naming(es, name), Unnaming(es, name), i)
    {
      PendingStepAt(es, i, name);
    }
  }

  lemma EchoEnds(es: seq<Event>, name: string)
    ensures !Pending(es, name)(0) && (Pending(es, name)(|es|) <==> OwnEcho(Run(es), Some(name)))
  {
    assert es[..0] == [] && es[..|es|] == es;
  }

  /** On any run, a live message is taken for the echo of our own upload exactly if an upload of
      a file with its name has begun, and since then none with that name has ended and no other
      chat has been opened. */
  lemma EchoExactly(es: seq<Event>, name: string)
    ensures OwnEcho(Run(es), Some(name)) <==> HeldSince(Naming(es, name), Unnaming(es, name), |es|)
  {
    EchoSwitches(es, name);
    EchoEnds(es, name);
    Since(Pending(es, name), Naming(es, name), Unnaming(es, name), |es|);
  }

  // ------------------------------------------------- which messages are listed

  /** The event puts the server's message into the list. */
  ghost predicate Adds(e: Event, id: int) {
    match e
    case Loaded(_, batch) => id in WireIds(batch)
    case Rendered(_, msg) => msg.id == id
    case UploadDone(_, done) => done == id
    case _ => false
  }

  /** The event takes it out, if it is there. */
  ghost predicate Removes(v: View, e: Event, id: int) {
    e.Switch? || (e.Deleted? && e.chat == v.chat && id in e.ids)
  }

  lemma StepLists(v: View, e: Event, id: int)
    requires Inv(v) && Enabled(v, e) && id < CLIENT_ID_BASE
    ensures id in Ids(Step(v, e).list) <==> Adds(e, id) || (id in Ids(v.list) && !Removes(v, e, id))
  {
    StepIds(v, e);
    IdsAfterMeaning(v, e, id);
  }

  lemma IdsAfterMeaning(v: View, e: Event, id: int)
    requires Inv(v) && Enabled(v, e) && id < CLIENT_ID_BASE
    ensures id in IdsAfter(v, e) <==> Adds(e, id) || (id in Ids(v.list) && !Removes(v, e, id))
  {
  }

  ghost predicate AddedAt(es: seq<Event>, i: nat, id: int) { i < |es| && Adds(es[i], id) }

  ghost predicate RemovedAt(es: seq<Event>, i: nat, id: int) { i < |es| && Removes(Run(es[..i]), es[i], id) }

  /** The event at `i` adds the message, and none after it removes it. */
  ghost predicate AddedLast(es: seq<Event>, i: nat, id: int) {
    AddedAt(es, i, id) && forall j :: i < j < |es| ==> !RemovedAt(es, j, id)
  }

  lemma RemovedAtStays(es: seq<Event>, j: nat, id: int)
    requires j < |es| - 1
    ensures RemovedAt(es, j, id) <==> RemovedAt(Init(es), j, id)
  {
    assert Init(es)[..j] == es[..j];
  }

  lemma RemovedAtEnd(es: seq<Event>, id: int)
    requires es != []
    ensures RemovedAt(es, |es| - 1, id) <==> Removes(Run(Init(es)), Last(es), id)
  {
    assert es[..|es| - 1] == Init(es);
  }

  lemma AddedBefore(es: seq<Event>, i: nat, id: int)
    requires es != [] && i < |es| - 1
    ensures AddedLast(es, i, id) <==> AddedLast(Init(es), i, id) && !Removes(Run(Init(es)), Last(es), id)
  {
    RemovedAtEnd(es, id);
    forall j: nat | i < j < |es| - 1
      ensures RemovedAt(es, j, id) <==> RemovedAt(Init(es), j, id)
    {
      RemovedAtStays(es, j, id);
    }
  }

  lemma {:induction false} ListedWasAdded(es: seq<Event>, id: int) returns (i: nat)
    requires Legal(es) && id < CLIENT_ID_BASE && id in Ids(Run(es).list)
    ensures AddedLast(es, i, id)
  {
    RunKeepsInv(Init(es));
    StepLists(Run(Init(es)), Last(es), id);
    if Adds(Last(es), id) {
      i := |es| - 1;
    } else {
      i := ListedWasAdded(Init(es), id);
      AddedBefore(es, i, id);
    }
  }

  lemma {:induction false} AddedIsListed(es: seq<Event>, i: nat, id: int)
    requires Legal(es) && id < CLIENT_ID_BASE && AddedLast(es, i, id)
    ensures id in Ids(Run(es).list)
  {
    RunKeepsInv(Init(es));
    StepLists(Run(Init(es)), Last(es), id);
    if i < |es| - 1 {
      AddedBefore(es, i, id);
      AddedIsListed(Init(es), i, id);
    }
  }

  /** On every run, a message of the server's is listed if and only if some event added it
      and nothing after that deleted it or opened another conversation. */
  lemma ListedExactly(es: seq<Event>, id: int)
    requires Legal(es) && id < CLIENT_ID_BASE
    ensures id in Ids(Run(es).list) <==> exists i :: AddedLast(es, i, id)
  {
    if id in Ids(Run(es).list) {
      var i := ListedWasAdded(es, id);
    }
    if i :| AddedLast(es, i, id) {
      AddedIsListed(es, i, id);
    }
  }

  // ------------------------------------------------- messages of another chat

  /** Every message of the server's belongs to one chat, and what the server says about it
      names that chat. An upload is answered with a message of the chat it was made in. */
  ghost predicate Owned(owner: int -> ChatId, v: View, e: Event) {
    match e
    case Loaded(chat, batch) => forall w :: w in batch ==> owner(w.id) == chat
    case Live(chat, msg, _) => owner(msg.id) == chat
    case Deleted(chat, ids) => forall id :: id in ids ==> owner(id) == chat
    case UploadDone(temp, id) => temp in v.uploads ==> owner(id) == v.uploads[temp].chat
    case _ => true
  }

  ghost predicate AllOwned(owner: int -> ChatId, es: seq<Event>) {
    es != [] ==> AllOwned(owner, Init(es)) && Owned(owner, Run(Init(es)), Last(es))
  }

  lemma {:induction false} SameChatSince(es: seq<Event>, i: nat)
    requires i < |es| && forall j :: i < j < |es| ==> !es[j].Switch?
    ensures Run(es).chat == Step(Run(es[..i]), es[i]).chat
  {
    if i < |es| - 1 {
      assert Init(es)[..i] == es[..i] && Init(es)[i] == es[i];
      SameChatSince(Init(es), i);
      ChatStays(Run(Init(es)), Last(es));
    } else {
      assert es[..i] == Init(es);
    }
  }

  lemma ChatStays(v: View, e: Event)
    requires !e.Switch?
    ensures Step(v, e).chat == v.chat
  {
  }

  lemma {:induction false} OwnedAt(owner: int -> ChatId, es: seq<Event>, j: nat)
    requires j < |es| && AllOwned(owner, es)
    ensures Owned(owner, Run(es[..j]), es[j])
  {
    if j < |es| - 1 {
      assert Init(es)[..j] == es[..j];
      OwnedAt(owner, Init(es), j);
    } else {
      assert es[..j] == Init(es);
    }
  }

  /** An answer for another chat than the open one arrives, and none is opened after it. */
  ghost predicate StrayedAt(es: seq<Event>, i: nat, id: int) {
    AddedAt(es, i, id) && forall j :: i < j < |es| ==> !es[j].Switch?
  }

  lemma StrayStays(owner: int -> ChatId, es: seq<Event>, i: nat, id: int)
    requires AllOwned(owner, es) && owner(id) != Run(es).chat && StrayedAt(es, i, id)
    ensures AddedLast(es, i, id)
  {
    forall j | i < j < |es|
      ensures !RemovedAt(es, j, id)
    {
      OwnedAt(owner, es, j);
      SameChatSince(es, j);
    }
  }

  lemma AddedLastStrays(es: seq<Event>, i: nat, id: int)
    requires AddedLast(es, i, id)
    ensures StrayedAt(es, i, id)
  {
    forall j: nat | i < j < |es|
      ensures !es[j].Switch?
    {
      assert !RemovedAt(es, j, id);
    }
  }

  /** A message of another chat is listed if and only if, after the open chat was opened, an
      answer to a history request or an upload of that other chat arrived, or a message of
      it was done being decrypted. Nothing but opening a chat removes it. */
  lemma StrayExactly(owner: int -> ChatId, es: seq<Event>, id: int)
    requires Legal(es) && AllOwned(owner, es) && id < CLIENT_ID_BASE && owner(id) != Run(es).chat
    ensures id in Ids(Run(es).list) <==> exists i :: StrayedAt(es, i, id)
  {
    if id in Ids(Run(es).list) {
      var i := ListedWasAdded(es, id);
      AddedLastStrays(es, i, id);
    }
    if i: nat :| StrayedAt(es, i, id) {
      StrayStays(owner, es, i, id);
      AddedIsListed(es, i, id);
    }
  }

  // ------------------------------------------------------------------ uploads

  ghost predicate Keeps(es: seq<Event>, id: int) {
    forall e :: e in es ==> !e.Switch? && (e.Deleted? ==> id !in e.ids)
  }

  /** An upload that the server accepts ends as exactly one bubble under the server's id and
      none under its temporary id, whatever came before the answer and whatever follows it
      while no other chat is opened and the message is not deleted. The bubble is in the
      upload's own chat exactly when that chat is open as the answer arrives. */
  lemma UploadEndsAsOneBubble(before: seq<Event>, temp: int, id: int, after: seq<Event>)
    requires Legal(before + [UploadDone(temp, id)] + after) && Keeps(after, id)
    ensures temp in Run(before).uploads
    ensures
      var end := Run(before + [UploadDone(temp, id)] + after);
      && (exists i :: 0 <= i < |end.list| && end.list[i].id == id)
      && (forall i, j :: 0 <= i < j < |end.list| ==> !(end.list[i].id == id && end.list[j].id == id))
      && (forall i :: 0 <= i < |end.list| ==> end.list[i].id != temp)
      && (end.chat == Run(before).uploads[temp].chat <==> Run(before).chat == Run(before).uploads[temp].chat)
  {
    SettledStays(before, temp, id, after);
    var es := before + [UploadDone(temp, id)] + after;
    RunKeepsInv(es);
    var list := Run(es).list;
    var m :| m in list && m.id == id;
    assert forall i :: 0 <= i < |list| ==> list[i].id in Ids(list);
  }

  lemma {:induction false} SettledStays(before: seq<Event>, temp: int, id: int, after: seq<Event>)
    requires Legal(before + [UploadDone(temp, id)] + after) && Keeps(after, id)
    ensures temp in Run(before).uploads
    ensures
      var v := Run(before + [UploadDone(temp, id)] + after);
      Settled(v, temp, id) && v.chat == Run(before).chat
    decreases |after|
  {
    var es := before + [UploadDone(temp, id)] + after;
    if after == [] {
      assert Init(es) == before && Last(es) == UploadDone(temp, id);
      RunKeepsInv(before);
      StepIds(Run(before), UploadDone(temp, id));
    } else {
      assert Init(es) == before + [UploadDone(temp, id)] + Init(after) && Last(es) == Last(after);
      SettledStays(before, temp, id, Init(after));
      RunKeepsInv(Init(es));
      assert Last(after) in after;
      SettledStep(Run(Init(es)), Last(after), temp, id);
    }
  }

  ghost predicate Settled(v: View, temp: int, id: int) {
    id in Ids(v.list) && temp !in Ids(v.list) && id < CLIENT_ID_BASE <= temp < CLIENT_ID_BASE + v.counter
  }

  lemma SettledStep(v: View, e: Event, temp: int, id: int)
    requires Inv(v) && Enabled(v, e) && Settled(v, temp, id) && !e.Switch? && (e.Deleted? ==> id !in e.ids)
    ensures Settled(Step(v, e), temp, id) && Step(v, e).chat == v.chat
  {
    StepIds(v, e);
    ChatStays(v, e);
    assert e.Loaded? ==> forall w :: w in e.batch ==> w.id != temp;
  }

  lemma RunGrows(es: seq<Event>, e: Event)
    requires Legal(es) && Enabled(Run(es), e)
    ensures Legal(es + [e]) && Run(es + [e]) == Step(Run(es), e)
  {
    assert Init(es + [e]) == es;
  }

  lemma OwnedGrows(owner: int -> ChatId, es: seq<Event>, e: Event)
    requires AllOwned(owner, es) && Owned(owner, Run(es), e)
    ensures AllOwned(owner, es + [e])
  {
    assert Init(es + [e]) == es;
  }

  /** A run that opens the chat and begins an upload in it. */
  lemma Uploading(owner: int -> ChatId, chat: ChatId, file: File) returns (es: seq<Event>)
    ensures Legal(es) && AllOwned(owner, es) && Run(es).chat == chat
    ensures CLIENT_ID_BASE in Run(es).uploads && Run(es).uploads[CLIENT_ID_BASE].chat == chat
  {
    es := [Switch(chat)];
    assert Init(es) == [];
    RunGrows(es, Upload(file, None));
    OwnedGrows(owner, es, Upload(file, None));
    es := es + [Upload(file, None)];
  }

  /** A message that is deleted before its upload is answered is shown all the same, for any
      message of the chat: the answer adds it after the deletion. */
  lemma DeletedThenSettled(owner: int -> ChatId, file: File, id: int) returns (es: seq<Event>)
    requires id < CLIENT_ID_BASE
    ensures Legal(es) && AllOwned(owner, es) && |es| >= 2
    ensures es[|es| - 2] == Deleted(owner(id), {id}) && Run(es[..|es| - 2]).chat == owner(id)
    ensures id in Ids(Run(es).list)
  {
    var begun := Uploading(owner, owner(id), file);
    var gone, done := Deleted(owner(id), {id}), UploadDone(CLIENT_ID_BASE, id);
    RunGrows(begun, gone);
    OwnedGrows(owner, begun, gone);
    RunGrows(begun + [gone], done);
    OwnedGrows(owner, begun + [gone], done);
    es := begun + [gone] + [done];
    assert es[..|es| - 2] == begun;
    AddedIsListed(es, |es| - 1, id);
  }

  /** An upload that is answered after another chat was opened shows up in that chat. */
  lemma UploadStrays(owner: int -> ChatId, file: File, id: int, other: ChatId) returns (es: seq<Event>)
    requires id < CLIENT_ID_BASE && other != owner(id)
    ensures Legal(es) && AllOwned(owner, es) && Run(es).chat == other && id in Ids(Run(es).list)
  {
    var begun := Uploading(owner, owner(id), file);
    var done := UploadDone(CLIENT_ID_BASE, id);
    RunGrows(begun, Switch(other));
    OwnedGrows(owner, begun, Switch(other));
    RunGrows(begun + [Switch(other)], done);
    OwnedGrows(owner, begun + [Switch(other)], done);
    es := begun + [Switch(other)] + [done];
    AddedIsListed(es, |es| - 1, id);
  }
}
