/** `e2ee.js`, and the way of an encrypted message through the server (`hub.go`,
    `messages.go`, `keys.go`). Web Crypto is a platform with the laws it promises. */
module Envelopes {
  import opened Common
  import opened KeyLists
  import opened MessageStore
  import opened MessageViews
  import Receipts

  type Byte = b: int | 0 <= b < 256
  type Bytes = seq<Byte>

  /** Web Crypto, `btoa`/`atob` and the text codecs. Keys are numbered; `publicOf` is the
      public half of an ECDH pair, `derive` stands for HKDF, `seal` and `unseal` for AES-GCM. */
  datatype Platform = Platform(
    btoa: string -> string, atob: string -> string,
    encode: string -> Bytes, decode: Bytes -> string,
    publicOf: nat -> nat, exportPublic: nat -> Bytes, importPublic: Bytes -> Option<nat>,
    agree: (nat, nat) -> Bytes, derive: Bytes -> nat,
    exportKey: nat -> Bytes, importKey: Bytes -> nat,
    seal: (nat, Bytes, Bytes) -> Bytes, unseal: (nat, Bytes, Bytes) -> Option<Bytes>)

  ghost predicate Binary(s: string) {
    forall i :: 0 <= i < |s| ==> s[i] as int < 256
  }

  ghost predicate TextLaws(p: Platform) {
    && (forall s :: Binary(s) ==> p.atob(p.btoa(s)) == s)
    && (forall s :: Binary(s) && s != "" ==> p.btoa(s) != "")
    && (forall s :: p.decode(p.encode(s)) == s)
  }

  /** Decrypting undoes encrypting, importing undoes exporting, and both ends of a key
      agreement arrive at the same secret. */
  ghost predicate CryptoLaws(p: Platform) {
    && (forall a: nat, b: nat :: p.agree(a, p.publicOf(b)) == p.agree(b, p.publicOf(a)))
    && (forall a: nat :: p.importPublic(p.exportPublic(p.publicOf(a))) == Some(p.publicOf(a)))
    && (forall a: nat :: p.exportPublic(a) != [])
    && (forall k: nat :: p.importKey(p.exportKey(k)) == k)
    && (forall k: nat, iv, data :: p.unseal(k, iv, p.seal(k, iv, data)) == Some(data))
    && (forall k: nat, iv, data :: p.seal(k, iv, data) != [])
  }

  // -------------------------------------------- the laws can be met together

  /** A number in unary. */
  function Unary(n: nat): (b: Bytes)
    ensures |b| == n + 1
  {
    seq(n + 1, _ => 0)
  }

  /** Three bytes a character. */
  function Spelled(s: string): (b: Bytes) {
    if s == "" then [] else
      var c := s[0] as int;
      [c / 65536 % 256, c / 256 % 256, c % 256] + Spelled(s[1..])
  }

  function Read(b: Bytes): string
    decreases |b|
  {
    if |b| < 3 then "" else
      var x: int, y: int, z: int := b[0], b[1], b[2];
      var c := x * 65536 + y * 256 + z;
      [if c < 0xD800 || 0xE000 <= c < 0x11_0000 then c as char else ' '] + Read(b[3..])
  }

  lemma {:induction false} ReadsAsSpelled(s: string)
    ensures Read(Spelled(s)) == s
  {
    if s != "" {
      var c := s[0] as int;
      ReadsAsSpelled(s[1..]);
      assert Spelled(s)[3..] == Spelled(s[1..]);
      ThreeBytes(c);
      assert s == [s[0]] + s[1..];
    }
  }

  lemma ThreeBytes(c: int)
    requires 0 <= c < 0x100_0000
    ensures c / 65536 % 256 * 65536 + c / 256 % 256 * 256 + c % 256 == c
  {
    assert c / 65536 < 256;
    assert c / 256 == c / 65536 * 256 + c / 256 % 256;
  }

  /** No cryptography, but a platform. */
  function PlainPlatform(): Platform {
    Platform(
      (s: string) => s, (s: string) => s, Spelled, Read,
      (a: nat) => a, Unary, (b: Bytes) => if b == [] then None else Some(|b| - 1),
      (a: nat, b: nat) => Unary(a + b), (b: Bytes) => |b|,
      Unary, (b: Bytes) => if b == [] then 0 else |b| - 1,
      (k: nat, iv: Bytes, data: Bytes) => [0] + data,
      (k: nat, iv: Bytes, data: Bytes) => if data == [] then None else Some(data[1..]))
  }

  /** So the results below are not empty. */
  lemma LawsAreConsistent()
    ensures TextLaws(PlainPlatform()) && CryptoLaws(PlainPlatform())
  {
    forall s
      ensures Read(Spelled(s)) == s
    {
      ReadsAsSpelled(s);
    }
    var p := PlainPlatform();
    forall k: nat, iv, data
      ensures p.unseal(k, iv, p.seal(k, iv, data)) == Some(data)
    {
      assert ([0] + data)[1..] == data;
    }
  }

  // ------------------------------------------------------------------- encoding

  function Chars(bytes: Bytes): string {
    seq(|bytes|, i requires 0 <= i < |bytes| => bytes[i] as char)
  }

  /** A Uint8Array keeps the low eight bits. */
  function Codes(s: string): Bytes {
    seq(|s|, i requires 0 <= i < |s| => s[i] as int % 256)
  }

  function Base64(p: Platform, bytes: Bytes): string { p.btoa(Chars(bytes)) }

  function Unbase64(p: Platform, text: string): Bytes { Codes(p.atob(text)) }

  method ToBase64(p: Platform, view: Bytes) returns (text: string)
    ensures text == Base64(p, view)
  {
    var binary := "";
    for i := 0 to |view|
      invariant binary == Chars(view[..i])
    {
      binary := binary + [view[i] as char];
      assert view[..i + 1] == view[..i] + [view[i]];
    }
    assert view[..|view|] == view;
    text := p.btoa(binary);
  }

  method FromBase64(p: Platform, text: string) returns (out: array<Byte>)
    ensures fresh(out) && out[..] == Unbase64(p, text)
  {
    var binary := p.atob(text);
    out := new Byte[|binary|];
    for i := 0 to |binary|
      invariant forall k :: 0 <= k < i ==> out[k] == binary[k] as int % 256
    {
      out[i] := binary[i] as int % 256;
    }
  }

  lemma Base64RoundTrip(p: Platform, bytes: Bytes)
    requires TextLaws(p)
    ensures Unbase64(p, Base64(p, bytes)) == bytes
    ensures bytes != [] ==> Base64(p, bytes) != ""
  {
    var s := Chars(bytes);
    assert Binary(s);
    assert Codes(s) == bytes;
    assert bytes != [] ==> |s| > 0;
  }

  // ------------------------------------------------------------------- messages

  datatype Recipient = Recipient(user: User, publicKey: string)

  /** What is drawn at random for one recipient: an ephemeral pair and an IV. */
  datatype Draw = Draw(ephemeral: nat, wrapIv: Bytes)

  /** What is drawn at random for one message. */
  datatype Draws = Draws(contentKey: nat, iv: Bytes, each: seq<Draw>)

  ghost predicate Drawn(draws: Draws, recipients: nat) {
    |draws.each| == recipients && |draws.iv| == 12 && forall d :: d in draws.each ==> |d.wrapIv| == 12
  }

  datatype Envelope = Envelope(ciphertext: string, iv: string, keys: seq<Key>)

  function WrappingKey(p: Platform, own: nat, public: nat): nat { p.derive(p.agree(own, public)) }

  /** The content key, wrapped for one recipient; none for a public key that does not import. */
  function WrapFor(p: Platform, r: Recipient, contentKey: nat, draw: Draw): Option<Key> {
    match p.importPublic(Unbase64(p, r.publicKey))
    case None => None
    case Some(public) =>
      var wrapped := p.seal(WrappingKey(p, draw.ephemeral, public), draw.wrapIv, p.exportKey(contentKey));
      Some(Key(r.user, Base64(p, wrapped), Base64(p, draw.wrapIv), Base64(p, p.exportPublic(p.publicOf(draw.ephemeral)))))
  }

  function WrapAll(p: Platform, rs: seq<Recipient>, contentKey: nat, draws: seq<Draw>): Option<seq<Key>>
    requires |draws| == |rs|
  {
    if rs == [] then Some([]) else
      var before := WrapAll(p, Init(rs), contentKey, Init(draws));
      var key := WrapFor(p, Last(rs), contentKey, Last(draws));
      if before.Some? && key.Some? then Some(before.value + [key.value]) else None
  }

  function EncryptMessage(p: Platform, plaintext: string, rs: seq<Recipient>, draws: Draws): Option<Envelope>
    requires |draws.each| == |rs|
  {
    if rs == [] then None else
      var ciphertext := p.seal(draws.contentKey, draws.iv, p.encode(plaintext));
      match WrapAll(p, rs, draws.contentKey, draws.each)
      case None => None
      case Some(keys) => Some(Envelope(Base64(p, ciphertext), Base64(p, draws.iv), keys))
  }

  /** None when metadata is missing, or nothing opens. */
  function DecryptMessage(p: Platform, row: Row, own: nat): Option<string> {
    var m := row.message;
    if m.content == "" || m.cipherIv.None? || m.cipherIv.value == "" || row.key.None? || !row.key.value.Complete() then None
    else
      var key := row.key.value;
      match p.importPublic(Unbase64(p, key.ephemeral))
      case None => None
      case Some(public) =>
        match p.unseal(WrappingKey(p, own, public), Unbase64(p, key.wrapIv), Unbase64(p, key.wrapped))
        case None => None
        case Some(raw) =>
          match p.unseal(p.importKey(raw), Unbase64(p, m.cipherIv.value), Unbase64(p, m.content))
          case None => None
          case Some(bytes) => Some(p.decode(bytes))
  }

  /** This public key is what the owner of the private key `own` has published. */
  ghost predicate Published(p: Platform, publicKey: string, own: nat) {
    publicKey == Base64(p, p.exportPublic(p.publicOf(own)))
  }

  lemma {:induction false} WrapAllEach(p: Platform, rs: seq<Recipient>, contentKey: nat, draws: seq<Draw>, i: nat)
    requires |draws| == |rs| && i < |rs| && WrapAll(p, rs, contentKey, draws).Some?
    ensures var keys := WrapAll(p, rs, contentKey, draws).value;
      |keys| == |rs| && WrapFor(p, rs[i], contentKey, draws[i]) == Some(keys[i]) && keys[i].user == rs[i].user
  {
    if i < |rs| - 1 {
      WrapAllEach(p, Init(rs), contentKey, Init(draws), i);
    } else {
      WrapAllLength(p, Init(rs), contentKey, Init(draws));
    }
  }

  lemma {:induction false} WrapAllLength(p: Platform, rs: seq<Recipient>, contentKey: nat, draws: seq<Draw>)
    requires |draws| == |rs| && WrapAll(p, rs, contentKey, draws).Some?
    ensures |WrapAll(p, rs, contentKey, draws).value| == |rs|
  {
    if rs != [] {
      WrapAllLength(p, Init(rs), contentKey, Init(draws));
    }
  }

  predicate Imports(p: Platform, r: Recipient) { p.importPublic(Unbase64(p, r.publicKey)).Some? }

  lemma {:induction false} WrapAllExactly(p: Platform, rs: seq<Recipient>, contentKey: nat, draws: seq<Draw>)
    requires |draws| == |rs|
    ensures WrapAll(p, rs, contentKey, draws).Some? <==> forall r :: r in rs ==> Imports(p, r)
  {
    if rs != [] {
      WrapAllExactly(p, Init(rs), contentKey, Init(draws));
      assert forall r :: r in rs <==> r in Init(rs) || r == Last(rs) by { assert rs == Init(rs) + [Last(rs)]; }
      assert Imports(p, Last(rs)) == WrapFor(p, Last(rs), contentKey, Last(draws)).Some?;
    }
  }

  /** Encryption fails exactly when there is no recipient or one public key does not import. */
  lemma EncryptsExactly(p: Platform, plaintext: string, rs: seq<Recipient>, draws: Draws)
    requires |draws.each| == |rs|
    ensures EncryptMessage(p, plaintext, rs, draws).Some? <==> rs != [] && forall r :: r in rs ==> Imports(p, r)
  {
    WrapAllExactly(p, rs, draws.contentKey, draws.each);
  }

  /** What is wrapped for a published key is complete, and its owner unwraps it. */
  lemma WrapOpens(p: Platform, r: Recipient, own: nat, contentKey: nat, draw: Draw)
    requires TextLaws(p) && CryptoLaws(p) && |draw.wrapIv| == 12 && Published(p, r.publicKey, own)
    ensures WrapFor(p, r, contentKey, draw).Some?
    ensures var key := WrapFor(p, r, contentKey, draw).value;
      && key.Complete()
      && p.importPublic(Unbase64(p, key.ephemeral)) == Some(p.publicOf(draw.ephemeral))
      && p.unseal(WrappingKey(p, own, p.publicOf(draw.ephemeral)), Unbase64(p, key.wrapIv), Unbase64(p, key.wrapped))
         == Some(p.exportKey(contentKey))
  {
    Base64RoundTrip(p, p.exportPublic(p.publicOf(own)));
    Base64RoundTrip(p, p.exportPublic(p.publicOf(draw.ephemeral)));
    Base64RoundTrip(p, draw.wrapIv);
    var wrapping := WrappingKey(p, draw.ephemeral, p.publicOf(own));
    assert wrapping == WrappingKey(p, own, p.publicOf(draw.ephemeral));
    Base64RoundTrip(p, p.seal(wrapping, draw.wrapIv, p.exportKey(contentKey)));
  }

  /** Whoever is a recipient under the published key decrypts the envelope. */
  lemma RecipientDecrypts(p: Platform, plaintext: string, rs: seq<Recipient>, draws: Draws, i: nat, own: nat, row: Row)
    requires TextLaws(p) && CryptoLaws(p) && i < |rs| && Drawn(draws, |rs|) && Published(p, rs[i].publicKey, own)
    requires EncryptMessage(p, plaintext, rs, draws).Some?
    requires var e := EncryptMessage(p, plaintext, rs, draws).value;
      row.message.content == e.ciphertext && row.message.cipherIv == Some(e.iv) && i < |e.keys| && row.key == Some(e.keys[i])
    ensures DecryptMessage(p, row, own) == Some(plaintext)
  {
    WrapAllEach(p, rs, draws.contentKey, draws.each, i);
    assert draws.each[i] in draws.each;
    WrapOpens(p, rs[i], own, draws.contentKey, draws.each[i]);
    Base64RoundTrip(p, draws.iv);
    Base64RoundTrip(p, p.seal(draws.contentKey, draws.iv, p.encode(plaintext)));
  }

  // ----------------------------------------------------------------- recipients

  /** GetChatKeys: the members with a published key. */
  function Recipients(members: seq<User>, published: map<User, string>): seq<Recipient> {
    if members == [] then [] else
      var u := Last(members);
      Recipients(Init(members), published) +
      if u in published && published[u] != "" then [Recipient(u, published[u])] else []
  }

  method GetChatKeys(members: seq<User>, published: map<User, string>) returns (keys: seq<Recipient>, missing: seq<User>)
    ensures keys == Recipients(members, published)
    ensures forall u :: u in missing <==> u in members && (u in published ==> published[u] == "")
  {
    keys, missing := [], [];
    for i := 0 to |members|
      invariant keys == Recipients(members[..i], published)
      invariant forall u :: u in missing <==> u in members[..i] && (u in published ==> published[u] == "")
    {
      var u := members[i];
      assert members[..i + 1] == members[..i] + [u] && Init(members[..i + 1]) == members[..i];
      if u in published && published[u] != "" {
        keys := keys + [Recipient(u, published[u])];
      } else {
        missing := missing + [u];
      }
    }
    assert members[..|members|] == members;
  }

  ghost predicate DistinctRecipients(rs: seq<Recipient>) {
    forall i, j :: 0 <= i < j < |rs| ==> rs[i].user != rs[j].user
  }

  lemma {:induction false} RecipientsAreMembers(members: seq<User>, published: map<User, string>)
    requires Distinct(members)
    ensures DistinctRecipients(Recipients(members, published))
    ensures forall r :: r in Recipients(members, published) <==>
      r.user in members && r.user in published && published[r.user] != "" && r.publicKey == published[r.user]
  {
    if members != [] {
      RecipientsAreMembers(Init(members), published);
      assert members == Init(members) + [Last(members)];
      var before := Recipients(Init(members), published);
      forall i | 0 <= i < |before|
        ensures before[i].user != Last(members)
      {
        assert before[i] in before;
      }
    }
  }

  // ------------------------------------------------------------- the whole trip

  /** No event adds, changes or removes a key of a message that stays. */
  lemma KeysStay(t: Tables, e: Event, id: nat, user: User)
    requires id in Ids(Apply(t, e).messages) && id < t.nextId
    ensures SameKey(t, Apply(t, e), id, user)
  {
    match e
    case DeleteForAll(gone, _) => DeletingKeepsKey(t, {gone}, id, user);
    case Leave(chat, left, _) =>
      if e.user in Members(t, chat) && Members(Departed(t, chat, left), chat) == {} {
        DeletingKeepsKey(t, ChatIds(t, chat), id, user);
      }
    case Remove(chat, _) => DeletingKeepsKey(t, ChatIds(t, chat), id, user);
    case Sweep(at) => DeletingKeepsKey(t, ExpiredIds(t, at), id, user);
    case _ =>
  }

  ghost predicate SameKey(t: Tables, t': Tables, id: nat, user: User) {
    && ((id, user) in t'.keys <==> (id, user) in t.keys)
    && ((id, user) in t.keys ==> t'.keys[(id, user)] == t.keys[(id, user)])
  }

  lemma DeletingKeepsKey(t: Tables, gone: set<nat>, id: nat, user: User)
    ensures id in Ids(Kept(t.messages, gone)) ==> SameKey(t, Without(t, gone), id, user)
  {
    KeptIds(t.messages, gone);
  }

  /** The row of message `id` holds what `first` held, and still has the same key for `user`. */
  ghost predicate Intact(first: Message, key: Key, t: Tables, user: User) {
    && first.id < t.nextId
    && forall m :: m in t.messages && m.id == first.id ==>
         && m.content == first.content && m.cipherIv == first.cipherIv
         && RowFor(t, m, user).key == Some(key)
  }

  lemma StepKeepsIntact(first: Message, key: Key, t: Tables, e: Event, user: User)
    requires Sound(t) && Intact(first, key, t, user)
    ensures Intact(first, key, Apply(t, e), user)
  {
    var t' := Apply(t, e);
    Receipts.NextIdGrows(t, e);
    forall m | m in t'.messages && m.id == first.id
      ensures m.content == first.content && m.cipherIv == first.cipherIv && RowFor(t', m, user).key == Some(key)
    {
      Receipts.RowsAfter(t, e, m);
      var o :| o in t.messages && Receipts.Continues(t, e, o, m);
      KeysStay(t, e, m.id, user);
    }
  }

  lemma RunGrows(before: seq<Event>, after: seq<Event>)
    requires after != []
    ensures Run(before + after) == Apply(Run(before + Init(after)), Last(after))
  {
    assert Init(before + after) == before + Init(after) && Last(before + after) == Last(after);
  }

  lemma {:induction false} RunKeepsIntact(first: Message, key: Key, before: seq<Event>, after: seq<Event>, user: User)
    requires Intact(first, key, Run(before), user)
    ensures Intact(first, key, Run(before + after), user)
  {
    if after == [] {
      assert before + after == before;
    } else {
      var t := Run(before + Init(after));
      RunKeepsIntact(first, key, before, Init(after), user);
      RunKeepsSound(before + Init(after));
      StepKeepsIntact(first, key, t, Last(after), user);
      RunGrows(before, after);
    }
  }

  lemma StoredIntact(t: Tables, d: Draft, to: set<User>, seconds: nat, at: real, user: User)
    requires Sound(t) && d.chat in t.chats && ReplyExists(t, d.replyTo) && d.isEncrypted && user in KeyRows(d.keys, to)
    ensures Intact(RowOf(t, d, at, seconds), KeyRows(d.keys, to)[user], Persisted(t, d, to, seconds, at), user)
  {
    var first := RowOf(t, d, at, seconds);
    assert forall m :: m in t.messages ==> RowSound(t, m);
    assert (first.id, user) in Persisted(t, d, to, seconds, at).keys;
  }

  function EnvelopeDraft(chat: ChatId, from: User, replyTo: Option<nat>, e: Envelope): Draft {
    Draft(chat, from, e.ciphertext, replyTo, true, e.iv, e.keys)
  }

  lemma EnvelopeKeys(p: Platform, plaintext: string, rs: seq<Recipient>, draws: Draws, owners: map<User, nat>)
    requires TextLaws(p) && CryptoLaws(p) && Drawn(draws, |rs|) && DistinctRecipients(rs)
    requires forall r :: r in rs ==> r.user in owners && Published(p, r.publicKey, owners[r.user])
    requires EncryptMessage(p, plaintext, rs, draws).Some?
    ensures var keys := EncryptMessage(p, plaintext, rs, draws).value.keys;
      |keys| == |rs| && DistinctKeys(keys) && (forall i :: 0 <= i < |keys| ==> keys[i].user == rs[i].user && keys[i].Complete())
  {
    var keys := EncryptMessage(p, plaintext, rs, draws).value.keys;
    WrapAllLength(p, rs, draws.contentKey, draws.each);
    forall i | 0 <= i < |keys|
      ensures keys[i].user == rs[i].user && keys[i].Complete()
    {
      WrapAllEach(p, rs, draws.contentKey, draws.each, i);
      assert rs[i] in rs && draws.each[i] in draws.each;
      WrapOpens(p, rs[i], owners[rs[i].user], draws.contentKey, draws.each[i]);
    }
  }

  /** Every member with a published key recovers the plaintext from the live packet and,
      for as long as the row is stored, whatever happens to it in between, from a later
      history row; and both carry the same wrapped key. */
  lemma BothPathsRecover(p: Platform, plaintext: string, members: seq<User>, published: map<User, string>,
                         owners: map<User, nat>, draws: Draws, before: seq<Event>, chat: ChatId, from: User,
                         replyTo: Option<nat>, to: set<User>, seconds: nat, at: real, after: seq<Event>, user: User)
    requires TextLaws(p) && CryptoLaws(p) && Distinct(members)
    requires forall u :: u in published ==> u in owners && Published(p, published[u], owners[u])
    requires user in members && user in published && user in to
    requires Drawn(draws, |Recipients(members, published)|)
    requires chat in Run(before).chats && ReplyExists(Run(before), replyTo)
    ensures EncryptMessage(p, plaintext, Recipients(members, published), draws).Some?
    ensures
      var d := EnvelopeDraft(chat, from, replyTo, EncryptMessage(p, plaintext, Recipients(members, published), draws).value);
      var first := RowOf(Run(before), d, at, seconds);
      var t := Run(before + [Post(d, to, seconds, at)] + after);
      && user in LiveKeys(d.keys)
      && DecryptMessage(p, Row(first, Some(LiveKeys(d.keys)[user])), owners[user]) == Some(plaintext)
      && forall m :: m in t.messages && m.id == first.id ==>
           && RowFor(t, m, user).key == Some(LiveKeys(d.keys)[user])
           && DecryptMessage(p, RowFor(t, m, user), owners[user]) == Some(plaintext)
  {
    var rs := Recipients(members, published);
    RecipientsAreMembers(members, published);
    Base64RoundTrip(p, p.exportPublic(p.publicOf(owners[user])));
    assert Recipient(user, published[user]) in rs;
    PublishedImport(p, rs, owners);
    EncryptsExactly(p, plaintext, rs, draws);
    var e := EncryptMessage(p, plaintext, rs, draws).value;
    EnvelopeKeys(p, plaintext, rs, draws, owners);
    var i :| 0 <= i < |rs| && rs[i] == Recipient(user, published[user]);
    PathsAgree(e.keys, to, i);

    var d := EnvelopeDraft(chat, from, replyTo, e);
    Base64RoundTrip(p, draws.iv);
    RecipientDecrypts(p, plaintext, rs, draws, i, owners[user], Row(RowOf(Run(before), d, at, seconds), Some(e.keys[i])));
    TripKeeps(p, plaintext, rs, draws, i, owners[user], before, d, to, seconds, at, after);
  }

  lemma PublishedImport(p: Platform, rs: seq<Recipient>, owners: map<User, nat>)
    requires TextLaws(p) && CryptoLaws(p)
    requires forall r :: r in rs ==> r.user in owners && Published(p, r.publicKey, owners[r.user])
    ensures forall r :: r in rs ==> Imports(p, r)
  {
    forall r | r in rs
      ensures Imports(p, r)
    {
      Base64RoundTrip(p, p.exportPublic(p.publicOf(owners[r.user])));
    }
  }

  lemma TripKeeps(p: Platform, plaintext: string, rs: seq<Recipient>, draws: Draws, i: nat, own: nat,
                  before: seq<Event>, d: Draft, to: set<User>, seconds: nat, at: real, after: seq<Event>)
    requires TextLaws(p) && CryptoLaws(p) && i < |rs| && Drawn(draws, |rs|) && Published(p, rs[i].publicKey, own)
    requires EncryptMessage(p, plaintext, rs, draws).Some?
    requires var e := EncryptMessage(p, plaintext, rs, draws).value;
      d == EnvelopeDraft(d.chat, d.from, d.replyTo, e) && e.iv != "" && i < |e.keys| && e.keys[i].user == rs[i].user &&
      rs[i].user in KeyRows(e.keys, to) && KeyRows(e.keys, to)[rs[i].user] == e.keys[i]
    requires d.chat in Run(before).chats && ReplyExists(Run(before), d.replyTo)
    ensures var t := Run(before + [Post(d, to, seconds, at)] + after);
      forall m :: m in t.messages && m.id == Run(before).nextId ==>
        && RowFor(t, m, rs[i].user).key == Some(d.keys[i])
        && DecryptMessage(p, RowFor(t, m, rs[i].user), own) == Some(plaintext)
  {
    var user, post := rs[i].user, Post(d, to, seconds, at);
    var first := RowOf(Run(before), d, at, seconds);
    RunKeepsSound(before);
    StoredIntact(Run(before), d, to, seconds, at, user);
    assert Init(before + [post]) == before;
    RunKeepsIntact(first, d.keys[i], before + [post], after, user);
    var t := Run(before + [post] + after);
    forall m | m in t.messages && m.id == first.id
      ensures DecryptMessage(p, RowFor(t, m, user), own) == Some(plaintext)
    {
      RecipientDecrypts(p, plaintext, rs, draws, i, own, RowFor(t, m, user));
    }
  }
}
