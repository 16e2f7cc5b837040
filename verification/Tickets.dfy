/** `ticket.go`: the `user:version` text a ticket is stored as in Redis. */
module TicketText {
  import opened Common
  import opened Usernames

  function Digit(d: nat): char
    requires d < 10
  {
    ('0' as int + d) as char
  }

  /** Decimal digits without leading zeros. */
  function PrintNat(n: nat): string {
    (if n < 10 then [] else PrintNat(n / 10)) + [Digit(n % 10)]
  }

  function PrintInt(v: int): string {
    if v < 0 then "-" + PrintNat(-v) else PrintNat(v)
  }

  predicate IsDigit(c: char) { '0' <= c <= '9' }

  function ParseNat(s: string): Option<nat> {
    if s == "" || !IsDigit(Last(s)) then None
    else
      var d := Last(s) as int - '0' as int;
      if |s| == 1 then Some(d) else
        match ParseNat(Init(s))
        case None => None
        case Some(n) => Some(10 * n + d)
  }

  const INT64_MIN: int := -0x8000_0000_0000_0000
  const INT64_MAX: int := 0x7fff_ffff_ffff_ffff

  /** An optional sign, at least one digit, nothing else, and within 64 bits. */
  function Atoi(s: string): Option<int> {
    var signed := s != "" && (s[0] == '-' || s[0] == '+');
    match ParseNat(if signed then s[1..] else s)
    case None => None
    case Some(n) =>
      var m: int := n;
      var v := if signed && s[0] == '-' then -m else m;
      if INT64_MIN <= v <= INT64_MAX then Some(v) else None
  }

  /** The length of the part of `s` before its first colon; all of `s` when it has none. */
  function BeforeColon(s: string): (n: nat)
    ensures n <= |s| && (forall i :: 0 <= i < n ==> s[i] != ':') && (n < |s| ==> s[n] == ':')
  {
    if s == "" || s[0] == ':' then 0 else 1 + BeforeColon(s[1..])
  }

  function FormatTicketValue(user: string, version: int): string {
    user + ":" + PrintInt(version)
  }

  function ParseTicketValue(value: string): Option<(string, int)> {
    var n := BeforeColon(value);
    if n == |value| then None else
      match Atoi(value[n + 1..])
      case None => None
      case Some(v) => Some((value[..n], v))
  }

  lemma {:induction false} PrintNatParses(n: nat)
    ensures PrintNat(n) != "" && (forall c :: c in PrintNat(n) ==> IsDigit(c))
    ensures ParseNat(PrintNat(n)) == Some(n)
  {
    var s := PrintNat(n);
    assert Last(s) == Digit(n % 10);
    if n >= 10 {
      PrintNatParses(n / 10);
      assert Init(s) == PrintNat(n / 10);
    }
  }

  lemma PrintIntParses(v: int)
    requires INT64_MIN <= v <= INT64_MAX
    ensures Atoi(PrintInt(v)) == Some(v)
  {
    PrintNatParses(if v < 0 then -v else v);
    if v < 0 {
      assert PrintInt(v)[1..] == PrintNat(-v);
    } else {
      assert PrintInt(v)[0] in PrintNat(v);
    }
  }

  /** What is stored reads back as the user and version it was printed from exactly
      when the user's name holds no colon. */
  lemma RoundTripExactly(user: string, version: int)
    requires INT64_MIN <= version <= INT64_MAX
    ensures ParseTicketValue(FormatTicketValue(user, version)) == Some((user, version)) <==> ':' !in user
  {
    var value := FormatTicketValue(user, version);
    var n := BeforeColon(value);
    assert value[|user|] == ':';
    if ':' in user {
      var i :| 0 <= i < |user| && user[i] == ':';
      assert value[i] == ':';
      assert n <= i;
      assert |value[..n]| < |user|;
    } else {
      assert forall i :: 0 <= i < |user| ==> value[i] == user[i];
      assert n == |user|;
      assert value[..n] == user && value[n + 1..] == PrintInt(version);
      PrintIntParses(version);
    }
  }

  /** No username the server accepts holds a colon, so tickets of such users read back. */
  lemma ValidUsersRoundTrip(user: Name, version: int)
    requires ValidUsername(user) && INT64_MIN <= version <= INT64_MAX
    ensures ParseTicketValue(FormatTicketValue(user, version)) == Some((user, version))
  {
    assert !UsernameChar(':');
    RoundTripExactly(user, version);
  }
}

/** Single-use WebSocket tickets: shared in Redis, with a per-replica map to fall back on. */
module Tickets {
  import opened Common
  import opened TicketText

  const TICKET_TTL: real := 30.0

  datatype Ticket = Ticket(user: string, version: int, expires: real)

  type Store = map<string, Ticket>

  function Pruned(ts: Store, now: real): Store {
    map id | id in ts && !(now > ts[id].expires) :: ts[id]
  }

  /** What the fallback map answers, and what it holds afterwards. */
  function RedeemedLocally(ts: Store, id: string, now: real): (Option<(string, int)>, Store) {
    (if id in ts && !(now > ts[id].expires) then Some((ts[id].user, ts[id].version)) else None, ts - {id})
  }

  /** One process's fallback map. */
  class TicketStore {
    var tickets: Store

    constructor ()
      ensures tickets == map[]
    {
      tickets := map[];
    }

    method PruneLocked(now: real)
      modifies this
      ensures tickets == Pruned(old(tickets), now)
    {
      var todo := tickets.Keys;
      while todo != {}
        invariant todo <= old(tickets).Keys
        invariant forall id :: id in tickets <==>
          id in old(tickets) && (id in todo || !(now > old(tickets)[id].expires))
        invariant forall id :: id in tickets ==> tickets[id] == old(tickets)[id]
        decreases todo
      {
        var id :| id in todo;
        todo := todo - {id};
        if now > tickets[id].expires {
          tickets := tickets - {id};
        }
      }
    }

    /** `setOk` tells whether Redis is in use and took the value, which is then the
        text returned; otherwise the ticket is kept here. */
    method IssueTicket(id: string, user: string, version: int, now: real, setOk: bool)
      returns (stored: Option<string>)
      modifies this
      ensures setOk ==> stored == Some(FormatTicketValue(user, version)) && tickets == old(tickets)
      ensures !setOk ==> stored == None
      ensures !setOk ==> tickets == Pruned(old(tickets), now)[id := Ticket(user, version, now + TICKET_TTL)]
    {
      if setOk {
        return Some(FormatTicketValue(user, version));
      }
      PruneLocked(now);
      tickets := tickets[id := Ticket(user, version, now + TICKET_TTL)];
      return None;
    }

    /** `reply` is what GETDEL returned, if it returned a value at all. */
    method RedeemTicket(id: string, now: real, reply: Option<string>) returns (who: Option<(string, int)>)
      modifies this
      ensures reply.Some? && ParseTicketValue(reply.value).Some? ==>
        who == ParseTicketValue(reply.value) && tickets == old(tickets)
      ensures reply.None? || ParseTicketValue(reply.value).None? ==>
        (who, tickets) == RedeemedLocally(old(tickets), id, now)
    {
      if reply.Some? {
        var parsed := ParseTicketValue(reply.value);
        if parsed.Some? {
          return parsed;
        }
      }
      if id !in tickets {
        assert tickets - {id} == tickets;
        return None;
      }
      var t := tickets[id];
      tickets := tickets - {id};
      if now > t.expires {
        return None;
      }
      return Some((t.user, t.version));
    }
  }

  // ------------------------------------------------------------------- runs

  /** Whether Redis took a new ticket. A failed command may still have taken effect. */
  datatype SetOutcome = Stored | FailedEmpty | FailedStored

  datatype Entry = Entry(value: string, deadline: real)

  datatype Issue = Issue(user: string, version: int, at: real)

  datatype Redemption = Redemption(id: string, user: string, version: int, at: real)

  datatype State = State(
    now: real,
    redis: map<string, Entry>,
    stores: map<nat, Store>,            // the fallback map of each replica
    issued: map<string, Issue>,
    redeemed: seq<Redemption>)

  datatype Event =
    | IssueAt(replica: nat, id: string, user: string, version: int, set_: SetOutcome, at: real)
    | RedeemShared(id: string, at: real)            // GETDEL that answers
    | RedeemSharedFails(id: string, removed: bool, at: real)
    | RedeemLocal(replica: nat, id: string, at: real)
    | Prune(replica: nat, at: real)
    | RedisLoses(id: string, at: real)
    | Restart(replica: nat, at: real)

  function StoreOf(s: State, replica: nat): Store {
    if replica in s.stores then s.stores[replica] else map[]
  }

  function Redeem(s: State, id: string, who: Option<(string, int)>): State {
    if who.None? then s else
      s.(redeemed := s.redeemed + [Redemption(id, who.value.0, who.value.1, s.now)])
  }

  function Step(s0: State, e: Event): State {
    var s := s0.(now := e.at);
    match e
    case IssueAt(r, id, user, version, outcome, at) =>
      var value := Entry(FormatTicketValue(user, version), at + TICKET_TTL);
      var kept := Pruned(StoreOf(s, r), at)[id := Ticket(user, version, at + TICKET_TTL)];
      s.(issued := s.issued[id := Issue(user, version, at)],
         redis := if outcome.FailedEmpty? then s.redis else s.redis[id := value],
         stores := if outcome.Stored? then s.stores else s.stores[r := kept])
    case RedeemShared(id, at) =>
      var who := if id in s.redis && at < s.redis[id].deadline then ParseTicketValue(s.redis[id].value) else None;
      Redeem(s, id, who).(redis := s.redis - {id})
    case RedeemSharedFails(id, removed, at) =>
      if removed then s.(redis := s.redis - {id}) else s
    case RedeemLocal(r, id, at) =>
      var (who, left) := RedeemedLocally(StoreOf(s, r), id, at);
      Redeem(s, id, who).(stores := s.stores[r := left])
    case Prune(r, at) => s.(stores := s.stores[r := Pruned(StoreOf(s, r), at)])
    case RedisLoses(id, at) => s.(redis := s.redis - {id})
    case Restart(r, at) => s.(stores := s.stores[r := map[]])
  }

  const FRESH := State(0.0, map[], map[], map[], [])

  function Run(es: seq<Event>): State {
    if es == [] then FRESH else Step(Run(Init(es)), Last(es))
  }

  /** Ticket ids are never drawn twice; names hold no colon; versions fit in 64 bits. */
  ghost predicate Enabled(s: State, e: Event) {
    && s.now <= e.at
    && (e.IssueAt? ==> e.id !in s.issued && ':' !in e.user && INT64_MIN <= e.version <= INT64_MAX)
  }

  ghost predicate Legal(es: seq<Event>) {
    es != [] ==> Legal(Init(es)) && Enabled(Run(Init(es)), Last(es))
  }

  /** The event issues this ticket, and its SET failed after storing it. */
  ghost predicate StoresFailing(e: Event, id: string) {
    e.IssueAt? && e.id == id && e.set_.FailedStored?
  }

  // -------------------------------------------------------------- invariant

  ghost predicate InRedis(s: State, id: string) { id in s.redis }

  ghost predicate InStore(s: State, r: nat, id: string) { r in s.stores && id in s.stores[r] }

  ghost predicate Used(s: State, id: string) {
    exists i :: 0 <= i < |s.redeemed| && s.redeemed[i].id == id
  }

  ghost predicate RedeemedOnce(s: State, id: string) {
    forall i, j :: 0 <= i < j < |s.redeemed| ==> !(s.redeemed[i].id == id && s.redeemed[j].id == id)
  }

  /** The ticket lives in at most one place, and nowhere once it has been used. */
  ghost predicate OneCopy(s: State, id: string) {
    && (InRedis(s, id) ==> !Used(s, id))
    && (forall r :: InStore(s, r, id) ==> !Used(s, id) && !InRedis(s, id))
    && (forall r, r' :: InStore(s, r, id) && InStore(s, r', id) ==> r == r')
    && RedeemedOnce(s, id)
  }

  ghost predicate RedisEntryTrue(s: State, id: string)
    requires id in s.redis
  {
    && id in s.issued
    && ':' !in s.issued[id].user && INT64_MIN <= s.issued[id].version <= INT64_MAX
    && s.redis[id] == Entry(FormatTicketValue(s.issued[id].user, s.issued[id].version), s.issued[id].at + TICKET_TTL)
  }

  ghost predicate StoredTicketTrue(s: State, r: nat, id: string)
    requires InStore(s, r, id)
  {
    && id in s.issued
    && s.stores[r][id] == Ticket(s.issued[id].user, s.issued[id].version, s.issued[id].at + TICKET_TTL)
  }

  ghost predicate AsIssued(s: State, d: Redemption) {
    && d.id in s.issued
    && d.user == s.issued[d.id].user && d.version == s.issued[d.id].version
    && s.issued[d.id].at <= d.at <= s.issued[d.id].at + TICKET_TTL
  }

  ghost predicate Truthful(s: State) {
    && (forall id :: id in s.issued ==> s.issued[id].at <= s.now)
    && (forall id :: id in s.redis ==> RedisEntryTrue(s, id))
    && (forall r, id :: InStore(s, r, id) ==> StoredTicketTrue(s, r, id))
    && (forall d :: d in s.redeemed ==> AsIssued(s, d))
  }

  /** `s'` holds no ticket that `s` does not hold, and has used none. */
  ghost predicate Shrinks(s: State, s': State) {
    && s'.issued == s.issued && s'.redeemed == s.redeemed && s.now <= s'.now
    && (forall id :: id in s'.redis ==> id in s.redis && s'.redis[id] == s.redis[id])
    && (forall r, id :: InStore(s', r, id) ==> InStore(s, r, id) && s'.stores[r][id] == s.stores[r][id])
  }

  lemma ShrinkingKeepsOneCopy(s: State, s': State, id: string)
    requires Shrinks(s, s') && OneCopy(s, id)
    ensures OneCopy(s', id) && (Used(s', id) <==> Used(s, id))
  {
    assert forall r :: InStore(s', r, id) ==> InStore(s, r, id);
  }

  lemma ShrinkingKeepsTruthful(s: State, s': State)
    requires Shrinks(s, s') && Truthful(s)
    ensures Truthful(s')
  {
    assert forall d :: d in s'.redeemed ==> AsIssued(s, d);
    assert forall id :: id in s'.redis ==> RedisEntryTrue(s, id);
    assert forall r, id :: InStore(s', r, id) ==> StoredTicketTrue(s, r, id);
  }

  /** Who an event lets in, if anyone. */
  ghost function Admitted(s: State, e: Event): Option<(string, int)> {
    match e
    case RedeemShared(id, at) =>
      if id in s.redis && at < s.redis[id].deadline then ParseTicketValue(s.redis[id].value) else None
    case RedeemLocal(r, id, at) => RedeemedLocally(StoreOf(s, r), id, at).0
    case _ => None
  }

  /** All that a redemption changes besides the places it looks in. */
  ghost function Emptied(s: State, e: Event): State {
    match e
    case RedeemShared(id, at) => s.(now := at, redis := s.redis - {id})
    case RedeemLocal(r, id, at) => s.(now := at, stores := s.stores[r := StoreOf(s, r) - {id}])
    case _ => Step(s, e)
  }

  lemma NoIssueShrinks(s: State, e: Event)
    requires Enabled(s, e) && !e.IssueAt?
    ensures Shrinks(s, Emptied(s, e))
    ensures Admitted(s, e).None? ==> Step(s, e) == Emptied(s, e)
    ensures Admitted(s, e).Some? ==> e.RedeemShared? || e.RedeemLocal?
    ensures Admitted(s, e).Some? ==> Step(s, e) == Emptied(s, e).(redeemed :=
        s.redeemed + [Redemption(e.id, Admitted(s, e).value.0, Admitted(s, e).value.1, e.at)])
  {
  }

  /** Whoever is let in is who the ticket was issued to, in time. */
  lemma AdmissionIsTrue(s: State, e: Event)
    requires Truthful(s) && Enabled(s, e) && Admitted(s, e).Some?
    ensures AsIssued(s, Redemption(e.id, Admitted(s, e).value.0, Admitted(s, e).value.1, e.at))
  {
    match e
    case RedeemShared(id, at) =>
      assert RedisEntryTrue(s, id) && InRedis(s, id);
      RoundTripExactly(s.issued[id].user, s.issued[id].version);
    case RedeemLocal(r, id, at) =>
      assert InStore(s, r, id) && StoredTicketTrue(s, r, id);
  }

  /** Nobody is let in twice with a ticket that had one copy, and that copy is gone. */
  lemma AdmissionUsesUp(s: State, e: Event)
    requires Enabled(s, e) && Admitted(s, e).Some? && OneCopy(s, e.id)
    ensures !Used(s, e.id) && !InRedis(Emptied(s, e), e.id) && forall r :: !InStore(Emptied(s, e), r, e.id)
  {
    assert forall r :: InStore(Emptied(s, e), r, e.id) ==> InStore(s, r, e.id);
    match e
    case RedeemShared(id, at) => assert InRedis(s, id);
    case RedeemLocal(r, id, at) => assert InStore(s, r, id);
  }

  lemma UsingKeepsOneCopy(s: State, s': State, d: Redemption, id: string)
    requires OneCopy(s, id) && s' == s.(redeemed := s.redeemed + [d])
    requires d.id == id ==> !Used(s, id) && !InRedis(s, id) && forall r :: !InStore(s, r, id)
    ensures OneCopy(s', id)
  {
    assert forall r :: InStore(s', r, id) <==> InStore(s, r, id);
    if Used(s', id) && d.id != id {
      var i :| 0 <= i < |s'.redeemed| && s'.redeemed[i].id == id;
      assert s.redeemed[i].id == id;
    }
    forall i, j | 0 <= i < j < |s'.redeemed|
      ensures !(s'.redeemed[i].id == id && s'.redeemed[j].id == id)
    {
      assert j == |s.redeemed| ==> s'.redeemed[i] == s.redeemed[i];
    }
  }

  /** Before it is issued a ticket is nowhere. */
  lemma UnissuedIsNowhere(s: State, id: string)
    requires Truthful(s) && id !in s.issued
    ensures OneCopy(s, id) && !Used(s, id) && !InRedis(s, id) && forall r :: !InStore(s, r, id)
  {
    assert forall i :: 0 <= i < |s.redeemed| ==> AsIssued(s, s.redeemed[i]);
    assert forall r, k :: InStore(s, r, k) ==> StoredTicketTrue(s, r, k);
    assert forall k :: InRedis(s, k) ==> RedisEntryTrue(s, k);
  }

  lemma IssueKeepsOneCopy(s: State, e: Event, id: string)
    requires OneCopy(s, id) && Truthful(s) && Enabled(s, e)
    requires e.IssueAt? && !StoresFailing(e, id)
    ensures OneCopy(Step(s, e), id)
  {
    var s' := Step(s, e);
    assert Used(s', id) <==> Used(s, id);
    forall r | InStore(s', r, id)
      ensures InStore(s, r, id) || (e.id == id && r == e.replica)
    {
    }
    if e.id == id {
      UnissuedIsNowhere(s, id);
    }
  }

  lemma IssueKeepsTruthful(s: State, e: Event)
    requires Truthful(s) && Enabled(s, e) && e.IssueAt?
    ensures Truthful(Step(s, e))
  {
    var s' := Step(s, e);
    forall id | id in s'.redis
      ensures RedisEntryTrue(s', id)
    {
      assert id in s.redis ==> RedisEntryTrue(s, id);
    }
    forall r, id | InStore(s', r, id)
      ensures StoredTicketTrue(s', r, id)
    {
      assert InStore(s, r, id) ==> StoredTicketTrue(s, r, id);
    }
    assert forall d :: d in s.redeemed ==> AsIssued(s, d);
  }

  lemma StepKeepsTruthful(s: State, e: Event)
    requires Truthful(s) && Enabled(s, e)
    ensures Truthful(Step(s, e))
  {
    if e.IssueAt? {
      IssueKeepsTruthful(s, e);
    } else {
      NoIssueShrinks(s, e);
      ShrinkingKeepsTruthful(s, Emptied(s, e));
      if Admitted(s, e).Some? {
        AdmissionIsTrue(s, e);
        UsingKeepsTruthful(Emptied(s, e), Step(s, e), Last(Step(s, e).redeemed));
      }
    }
  }

  lemma UsingKeepsTruthful(s: State, s': State, d: Redemption)
    requires Truthful(s) && AsIssued(s, d) && s' == s.(redeemed := s.redeemed + [d])
    ensures Truthful(s')
  {
    assert forall id :: id in s.redis ==> RedisEntryTrue(s, id);
    assert forall r, id :: InStore(s', r, id) ==> StoredTicketTrue(s, r, id);
    assert forall x :: x in s.redeemed ==> AsIssued(s, x);
  }

  lemma StepKeepsOneCopy(s: State, e: Event, id: string)
    requires OneCopy(s, id) && Truthful(s) && Enabled(s, e) && !StoresFailing(e, id)
    ensures OneCopy(Step(s, e), id)
  {
    if e.IssueAt? {
      IssueKeepsOneCopy(s, e, id);
    } else {
      NoIssueShrinks(s, e);
      ShrinkingKeepsOneCopy(s, Emptied(s, e), id);
      if Admitted(s, e).Some? {
        if e.id == id {
          AdmissionUsesUp(s, e);
        }
        UsingKeepsOneCopy(Emptied(s, e), Step(s, e), Last(Step(s, e).redeemed), id);
      }
    }
  }

  lemma {:induction false} RunKeepsTruthful(es: seq<Event>)
    requires Legal(es)
    ensures Truthful(Run(es))
  {
    if es != [] {
      RunKeepsTruthful(Init(es));
      StepKeepsTruthful(Run(Init(es)), Last(es));
    }
  }

  lemma {:induction false} RunKeepsOneCopy(es: seq<Event>, id: string)
    requires Legal(es) && forall e :: e in es ==> !StoresFailing(e, id)
    ensures OneCopy(Run(es), id)
  {
    if es != [] {
      assert Last(es) in es && forall e :: e in Init(es) ==> e in es;
      RunKeepsOneCopy(Init(es), id);
      RunKeepsTruthful(Init(es));
      StepKeepsOneCopy(Run(Init(es)), Last(es), id);
    }
  }

  // ---------------------------------------------------------------- results

  /** Every successful redemption yields the user and version the ticket was issued for,
      within its lifetime. */
  lemma RedeemsAsIssued(es: seq<Event>, i: nat)
    requires Legal(es) && i < |Run(es).redeemed|
    ensures AsIssued(Run(es), Run(es).redeemed[i])
  {
    RunKeepsTruthful(es);
  }

  /** A ticket whose own SET did not fail after storing it is not redeemed twice, on
      whichever replicas it is tried and whatever happened to other tickets. */
  lemma RedeemedAtMostOnce(es: seq<Event>, i: nat, j: nat)
    requires Legal(es) && i < j < |Run(es).redeemed|
    requires forall e :: e in es ==> !StoresFailing(e, Run(es).redeemed[i].id)
    ensures Run(es).redeemed[i].id != Run(es).redeemed[j].id
  {
    RunKeepsOneCopy(es, Run(es).redeemed[i].id);
  }

  /** The state after two attempts, one at Redis and one at the issuing replica. */
  ghost function TriedTwice(s: State, e: Event): State
    requires e.IssueAt?
  {
    Step(Step(s, RedeemShared(e.id, e.at)), RedeemLocal(e.replica, e.id, e.at))
  }

  lemma BothCopiesRedeem(s: State, e: Event)
    requires e.IssueAt? && InBoth(s, e)
    ensures var d := Redemption(e.id, e.user, e.version, e.at);
      TriedTwice(s, e).redeemed == s.redeemed + [d, d]
  {
    RoundTripExactly(e.user, e.version);
    var d := Redemption(e.id, e.user, e.version, e.at);
    var once := Step(s, RedeemShared(e.id, e.at));
    assert once.redeemed == s.redeemed + [d] && once.stores == s.stores;
    assert TriedTwice(s, e).redeemed == once.redeemed + [d];
  }

  lemma RunGrows(es: seq<Event>, e: Event)
    requires Legal(es) && Enabled(Run(es), e)
    ensures Legal(es + [e]) && Run(es + [e]) == Step(Run(es), e)
  {
    assert Init(es + [e]) == es;
  }

  lemma StoredInBoth(s: State, e: Event)
    requires Enabled(s, e) && e.IssueAt? && e.set_.FailedStored?
    ensures InBoth(Step(s, e), e) && Step(s, e).redeemed == s.redeemed
  {
  }

  /** A ticket whose SET failed after storing it can at once be redeemed from Redis and again
      from the replica that issued it. */
  lemma StoredFailureRedeemsTwice(es: seq<Event>, e: Event)
    requires Legal(es) && Enabled(Run(es), e) && e.IssueAt? && e.set_.FailedStored?
    ensures
      var again := es + [e] + [RedeemShared(e.id, e.at)] + [RedeemLocal(e.replica, e.id, e.at)];
      var d := Redemption(e.id, e.user, e.version, e.at);
      Legal(again) && Run(again).redeemed == Run(es).redeemed + [d, d]
  {
    RunGrows(es, e);
    StoredInBoth(Run(es), e);
    CopiesRedeemTwice(es + [e], e);
  }

  ghost predicate InBoth(s: State, e: Event)
    requires e.IssueAt?
  {
    && s.now <= e.at && ':' !in e.user && INT64_MIN <= e.version <= INT64_MAX
    && InRedis(s, e.id) && s.redis[e.id] == Entry(FormatTicketValue(e.user, e.version), e.at + TICKET_TTL)
    && InStore(s, e.replica, e.id) && s.stores[e.replica][e.id] == Ticket(e.user, e.version, e.at + TICKET_TTL)
  }

  lemma CopiesRedeemTwice(es: seq<Event>, e: Event)
    requires Legal(es) && e.IssueAt? && InBoth(Run(es), e)
    ensures
      var again := es + [RedeemShared(e.id, e.at)] + [RedeemLocal(e.replica, e.id, e.at)];
      var d := Redemption(e.id, e.user, e.version, e.at);
      Legal(again) && Run(again).redeemed == Run(es).redeemed + [d, d]
  {
    BothCopiesRedeem(Run(es), e);
    TryingRuns(es, e);
  }

  lemma TryingRuns(es: seq<Event>, e: Event)
    requires Legal(es) && e.IssueAt? && Run(es).now <= e.at
    ensures var again := es + [RedeemShared(e.id, e.at)] + [RedeemLocal(e.replica, e.id, e.at)];
      Legal(again) && Run(again) == TriedTwice(Run(es), e)
  {
    RunGrows(es, RedeemShared(e.id, e.at));
    RunGrows(es + [RedeemShared(e.id, e.at)], RedeemLocal(e.replica, e.id, e.at));
  }

  lemma {:induction false} IssuedStaysOneCopy(es: seq<Event>, more: seq<Event>, id: string)
    requires Legal(es + more) && OneCopy(Run(es), id) && id in Run(es).issued
    ensures OneCopy(Run(es + more), id) && id in Run(es + more).issued
    decreases |more|
  {
    if more == [] {
      assert es + more == es;
    } else {
      var before := es + Init(more);
      assert Init(es + more) == before && Last(es + more) == Last(more);
      IssuedStaysOneCopy(es, Init(more), id);
      RunKeepsTruthful(before);
      IssuedStep(Run(before), Last(more), id);
    }
  }

  /** A ticket that has been issued is not issued again. */
  lemma IssuedStep(s: State, e: Event, id: string)
    requires Truthful(s) && Enabled(s, e) && OneCopy(s, id) && id in s.issued
    ensures OneCopy(Step(s, e), id) && id in Step(s, e).issued
  {
    StepKeepsOneCopy(s, e, id);
    if !e.IssueAt? {
      NoIssueShrinks(s, e);
    }
  }

  lemma {:induction false} LegalStart(es: seq<Event>, more: seq<Event>)
    requires Legal(es + more)
    ensures Legal(es)
    decreases |more|
  {
    if more == [] {
      assert es + more == es;
    } else {
      assert Init(es + more) == es + Init(more);
      LegalStart(es, Init(more));
    }
  }

  lemma CleanIssueRedeemsOnce(es: seq<Event>, e: Event, more: seq<Event>)
    requires Legal(es + [e] + more) && e.IssueAt? && !e.set_.FailedStored?
    ensures RedeemedOnce(Run(es + [e] + more), e.id)
  {
    LegalStart(es + [e], more);
    assert Init(es + [e]) == es;
    RunKeepsTruthful(es);
    UnissuedIsNowhere(Run(es), e.id);
    StepKeepsOneCopy(Run(es), e, e.id);
    IssuedStaysOneCopy(es + [e], more, e.id);
  }

  lemma FailingIssueRedeemsTwice(es: seq<Event>, e: Event) returns (more: seq<Event>)
    requires Legal(es + [e]) && e.IssueAt? && e.set_.FailedStored?
    ensures Legal(es + [e] + more) && !RedeemedOnce(Run(es + [e] + more), e.id)
  {
    more := [RedeemShared(e.id, e.at)] + [RedeemLocal(e.replica, e.id, e.at)];
    assert Init(es + [e]) == es;
    StoredFailureRedeemsTwice(es, e);
    assert es + [e] + more == es + [e] + [RedeemShared(e.id, e.at)] + [RedeemLocal(e.replica, e.id, e.at)];
    var n, d := |Run(es).redeemed|, Redemption(e.id, e.user, e.version, e.at);
    var redeemed := Run(es + [e] + more).redeemed;
    assert redeemed[n] == d && redeemed[n + 1] == d;
  }

  /** A ticket can be redeemed at most once, in every continuation of any run, if and only if
      its own SET did not fail after storing it. */
  lemma OnceExactly(es: seq<Event>, e: Event)
    requires Legal(es + [e]) && e.IssueAt?
    ensures (forall more :: Legal(es + [e] + more) ==> RedeemedOnce(Run(es + [e] + more), e.id)) <==> !e.set_.FailedStored?
  {
    if e.set_.FailedStored? {
      var more := FailingIssueRedeemsTwice(es, e);
    } else {
      forall more | Legal(es + [e] + more)
        ensures RedeemedOnce(Run(es + [e] + more), e.id)
      {
        CleanIssueRedeemsOnce(es, e, more);
      }
    }
  }

  // --------------------------------------------------------- which tickets work

  /** The event keeps the ticket in the replica's memory. */
  ghost predicate Keeps(e: Event, r: nat, id: string) {
    e.IssueAt? && e.replica == r && e.id == id && !e.set_.Stored?
  }

  /** The ticket goes from the replica's memory: it is tried there, the replica restarts, or the
      replica tidies up, by itself or as it keeps another ticket, once the ticket has expired. */
  ghost predicate Drops(s: State, e: Event, r: nat, id: string) {
    match e
    case RedeemLocal(r', id', _) => r' == r && id' == id
    case Restart(r', _) => r' == r
    case Prune(r', at) => r' == r && id in s.issued && at > s.issued[id].at + 30.0
    case IssueAt(r', _, _, _, outcome, at) =>
      r' == r && !outcome.Stored? && id in s.issued && at > s.issued[id].at + 30.0
    case _ => false
  }

  /** The event puts the ticket into Redis, also when the command seems to fail. */
  ghost predicate Shares(e: Event, id: string) {
    e.IssueAt? && e.id == id && !e.set_.FailedEmpty?
  }

  ghost predicate Unshares(e: Event, id: string) {
    match e
    case RedeemShared(id', _) => id' == id
    case RedeemSharedFails(id', removed, _) => id' == id && removed
    case RedisLoses(id', _) => id' == id
    case _ => false
  }

  lemma KeptStep(s: State, e: Event, r: nat, id: string)
    requires Truthful(s) && Enabled(s, e)
    ensures id in StoreOf(Step(s, e), r) <==> Keeps(e, r, id) || (id in StoreOf(s, r) && !Drops(s, e, r, id))
  {
    if id in StoreOf(s, r) {
      assert InStore(s, r, id) && StoredTicketTrue(s, r, id);
    }
  }

  lemma SharedStep(s: State, e: Event, id: string)
    ensures id in Step(s, e).redis <==> Shares(e, id) || (id in s.redis && !Unshares(e, id))
  {
  }

  ghost function Kept(es: seq<Event>, r: nat, id: string): nat -> bool {
    (i: nat) => i <= |es| && id in StoreOf(Run(es[..i]), r)
  }

  ghost function Keeping(es: seq<Event>, r: nat, id: string): nat -> bool {
    (i: nat) => i < |es| && Keeps(es[i], r, id)
  }

  ghost function Dropping(es: seq<Event>, r: nat, id: string): nat -> bool {
    (i: nat) => i < |es| && Drops(Run(es[..i]), es[i], r, id)
  }

  ghost function Shared(es: seq<Event>, id: string): nat -> bool {
    (i: nat) => i <= |es| && id in Run(es[..i]).redis
  }

  ghost function Sharing(es: seq<Event>, id: string): nat -> bool {
    (i: nat) => i < |es| && Shares(es[i], id)
  }

  ghost function Unsharing(es: seq<Event>, id: string): nat -> bool {
    (i: nat) => i < |es| && Unshares(es[i], id)
  }

  lemma {:induction false} LegalPrefix(es: seq<Event>, i: nat)
    requires Legal(es) && i < |es|
    ensures Legal(es[..i]) && Enabled(Run(es[..i]), es[i]) && Run(es[..i + 1]) == Step(Run(es[..i]), es[i])
  {
    if i + 1 == |es| {
      assert es[..i] == Init(es) && es[..i + 1] == es;
    } else {
      LegalPrefix(Init(es), i);
      assert Init(es)[..i] == es[..i] && Init(es)[..i + 1] == es[..i + 1];
    }
  }

  lemma KeptStepAt(es: seq<Event>, i: nat, r: nat, id: string)
    requires Legal(es) && i < |es|
    ensures Switches(Kept(es, r, id), Keeping(es, r, id), Dropping(es, r, id), i)
  {
    LegalPrefix(es, i);
    RunKeepsTruthful(es[..i]);
    KeptStep(Run(es[..i]), es[i], r, id);
  }

  lemma SharedStepAt(es: seq<Event>, i: nat, id: string)
    requires Legal(es) && i < |es|
    ensures Switches(Shared(es, id), Sharing(es, id), Unsharing(es, id), i)
  {
    LegalPrefix(es, i);
    SharedStep(Run(es[..i]), es[i], id);
  }

  lemma KeptSwitches(es: seq<Event>, r: nat, id: string)
    requires Legal(es)
    ensures forall i: nat :: i < |es| ==> Switches(Kept(es, r, id), Keeping(es, r, id), Dropping(es, r, id), i)
  {
    forall i: nat | i < |es|
      ensures Switches(Kept(es, r, id), Keeping(es, r, id), Dropping(es, r, id), i)
    {
      KeptStepAt(es, i, r, id);
    }
  }

  lemma KeptEnds(es: seq<Event>, r: nat, id: string)
    requires Legal(es)
    ensures !Kept(es, r, id)(0) && (Kept(es, r, id)(|es|) <==> id in StoreOf(Run(es), r))
  {
    assert es[..0] == [] && es[..|es|] == es;
  }

  /** On any run, a replica's memory holds a ticket exactly if it was issued there without Redis
      and since then has been neither tried there, nor lost in a restart, nor tidied away after
      it expired. */
  lemma KeptExactly(es: seq<Event>, r: nat, id: string)
    requires Legal(es)
    ensures id in StoreOf(Run(es), r) <==> HeldSince(Keeping(es, r, id), Dropping(es, r, id), |es|)
  {
    KeptSwitches(es, r, id);
    KeptEnds(es, r, id);
    Since(Kept(es, r, id), Keeping(es, r, id), Dropping(es, r, id), |es|);
  }

  lemma SharedSwitches(es: seq<Event>, id: string)
    requires Legal(es)
    ensures forall i: nat :: i < |es| ==> Switches(Shared(es, id), Sharing(es, id), Unsharing(es, id), i)
  {
    forall i: nat | i < |es|
      ensures Switches(Shared(es, id), Sharing(es, id), Unsharing(es, id), i)
    {
      SharedStepAt(es, i, id);
    }
  }

  lemma SharedEnds(es: seq<Event>, id: string)
    ensures !Shared(es, id)(0) && (Shared(es, id)(|es|) <==> id in Run(es).redis)
  {
    assert es[..0] == [] && es[..|es|] == es;
  }

  lemma SharedExactly(es: seq<Event>, id: string)
    requires Legal(es)
    ensures id in Run(es).redis <==> HeldSince(Sharing(es, id), Unsharing(es, id), |es|)
  {
    SharedSwitches(es, id);
    SharedEnds(es, id);
    Since(Shared(es, id), Sharing(es, id), Unsharing(es, id), |es|);
  }

  /** What lets somebody in as the user and version the ticket was issued for. */
  ghost function Admission(s: State, id: string, at: real): seq<Redemption> {
    if id in s.issued then [Redemption(id, s.issued[id].user, s.issued[id].version, at)] else []
  }

  lemma LocalAdmission(s: State, r: nat, id: string, at: real)
    requires Truthful(s)
    ensures Step(s, RedeemLocal(r, id, at)).redeemed == s.redeemed +
      if id in StoreOf(s, r) && id in s.issued && at <= s.issued[id].at + 30.0 then Admission(s, id, at) else []
  {
    if id in StoreOf(s, r) {
      assert InStore(s, r, id) && StoredTicketTrue(s, r, id);
    }
  }

  /** A ticket tried at a replica lets its user in exactly if the replica still holds it and it
      is at most 30 seconds old. In particular no other ticket issued meanwhile displaces it. */
  lemma LocalTicketWorks(es: seq<Event>, r: nat, id: string, at: real)
    requires Legal(es) && Run(es).now <= at
    ensures Step(Run(es), RedeemLocal(r, id, at)).redeemed == Run(es).redeemed +
      if HeldSince(Keeping(es, r, id), Dropping(es, r, id), |es|) && id in Run(es).issued && at <= Run(es).issued[id].at + 30.0
      then Admission(Run(es), id, at) else []
  {
    KeptExactly(es, r, id);
    RunKeepsTruthful(es);
    LocalAdmission(Run(es), r, id, at);
  }

  /** And one tried at Redis, exactly if Redis took it, has not handed it out or lost it, and it
      is less than 30 seconds old. */
  lemma SharedTicketWorks(es: seq<Event>, id: string, at: real)
    requires Legal(es) && Run(es).now <= at
    ensures Step(Run(es), RedeemShared(id, at)).redeemed == Run(es).redeemed +
      if HeldSince(Sharing(es, id), Unsharing(es, id), |es|) && id in Run(es).issued && at < Run(es).issued[id].at + 30.0
      then Admission(Run(es), id, at) else []
  {
    var s := Run(es);
    SharedExactly(es, id);
    RunKeepsTruthful(es);
    if id in s.redis {
      assert InRedis(s, id) && RedisEntryTrue(s, id);
      RoundTripExactly(s.issued[id].user, s.issued[id].version);
    }
  }
}
