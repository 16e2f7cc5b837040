/** Accounts, tokens and session rows (`auth.go`, `sessions.go`, `profile.go`, `admin.go`).

    An account is a row of the users table; its name is the row's key and can change, or
    be freed and taken by somebody else. The model numbers accounts so that properties can
    speak of the account a token was issued to; the numbers decide nothing. */
module Sessions {
  import opened Common
  import opened Usernames
  import DirectChats

  datatype Account = Account(number: nat, version: nat)

  datatype Session = Session(user: Name, expires: real)

  datatype Token = Token(
    user: Name, version: nat, sid: string, expires: real,
    holder: nat,       // the account whose password was checked
    boundTo: nat,      // the account that the session row was inserted for
    checkedAt: nat)    // when the password was checked, as a position in the run

  /** The two tables. */
  datatype Tables = Tables(users: map<Name, Account>, sessions: map<string, Session>)

  const TOKEN_TTL: real := 259200.0

  // ------------------------------------------- the statements of the handlers

  /** ON UPDATE CASCADE: the session rows follow the rename. */
  function Renamed(t: Tables, from: Name, to: Name): Tables {
    if from !in t.users || to in t.users then t else
      Tables((t.users - {from})[to := Account(t.users[from].number, t.users[from].version + 1)],
             map sid | sid in t.sessions ::
               if t.sessions[sid].user == from then t.sessions[sid].(user := to) else t.sessions[sid])
  }

  function Bumped(t: Tables, user: Name): Tables {
    if user !in t.users then t else
      t.(users := t.users[user := t.users[user].(version := t.users[user].version + 1)])
  }

  function SessionsPurged(t: Tables, user: Name): Tables {
    t.(sessions := map sid | sid in t.sessions && t.sessions[sid].user != user :: t.sessions[sid])
  }

  /** ON DELETE CASCADE. */
  function Deleted(t: Tables, user: Name): Tables {
    SessionsPurged(t.(users := t.users - {user}), user)
  }

  function SessionStarted(t: Tables, user: Name, sid: string, now: real): Tables {
    t.(sessions := (map k | k in t.sessions && !(t.sessions[k].user == user && t.sessions[k].expires < now)
                      :: t.sessions[k])[sid := Session(user, now + TOKEN_TTL)])
  }

  function SessionRevoked(t: Tables, user: Name, sid: string): Tables {
    if sid in t.sessions && t.sessions[sid].user == user then t.(sessions := t.sessions - {sid}) else t
  }

  function OthersRevoked(t: Tables, user: Name, sid: string): Tables {
    t.(sessions := map k | k in t.sessions && (t.sessions[k].user != user || k == sid) :: t.sessions[k])
  }

  predicate LookupUser(t: Tables, user: Name, version: nat) {
    user in t.users && t.users[user].version == version
  }

  predicate TouchSession(t: Tables, sid: string, user: Name, now: real) {
    sid in t.sessions && t.sessions[sid].user == user && t.sessions[sid].expires > now
  }

  /** What the middleware requires of a token whose signature is good. */
  predicate Accepted(t: Tables, token: Token, now: real) {
    && now < token.expires
    && LookupUser(t, token.user, token.version)
    && (token.sid != "" ==> TouchSession(t, token.sid, token.user, now))
  }

  // -------------------------------------------------------------- the handlers

  datatype RenameResult = RenameOk | InvalidName | SameName | NameTaken | Refused

  class Accounts {
    var users: map<Name, Account>
    var sessions: map<string, Session>
    var pairs: set<DirectChats.PairRow>      // rows that name accounts and follow a rename

    function Now(): Tables
      reads this
    {
      Tables(users, sessions)
    }

    constructor ()
      ensures Now() == Tables(map[], map[])
    {
      users, sessions, pairs := map[], map[], {};
    }

    /** Called with the name the middleware accepted. The database refuses a rename that
        would put a direct chat's pair row out of order. */
    method ChangeUsername(current: Name, new_: Name) returns (r: RenameResult)
      requires current in users
      modifies this
      ensures r.InvalidName? <==> !ValidUsername(new_)
      ensures r.SameName? <==> ValidUsername(new_) && new_ == current
      ensures r.NameTaken? <==> ValidUsername(new_) && new_ != current && new_ in old(users)
      ensures r.Refused? <==>
        ValidUsername(new_) && new_ !in old(users) && DirectChats.RenameBreaksOrder(old(pairs), current, new_)
      ensures !r.RenameOk? ==> Now() == old(Now()) && pairs == old(pairs)
      ensures r.RenameOk? ==> Now() == SessionsPurged(Renamed(old(Now()), current, new_), new_)
      ensures r.RenameOk? ==> pairs == set p | p in old(pairs) :: DirectChats.PairRenamed(p, current, new_)
    {
      if !ValidUsername(new_) {
        return InvalidName;
      }
      if new_ == current {
        return SameName;
      }
      if new_ in users {
        return NameTaken;
      }
      if DirectChats.RenameBreaksOrder(pairs, current, new_) {
        return Refused;
      }
      var row := users[current];
      users := (users - {current})[new_ := Account(row.number, row.version + 1)];
      sessions := map sid | sid in sessions ::
        if sessions[sid].user == current then sessions[sid].(user := new_) else sessions[sid];
      pairs := set p | p in pairs :: DirectChats.PairRenamed(p, current, new_);
      sessions := map sid | sid in sessions && sessions[sid].user != new_ :: sessions[sid];
      return RenameOk;
    }

    /** ChangePassword once the old password has been checked; also an administrator's reset. */
    method SetPassword(user: Name) returns (found: bool)
      modifies `users, `sessions
      ensures found <==> user in old(users)
      ensures found ==> Now() == SessionsPurged(Bumped(old(Now()), user), user)
      ensures !found ==> Now() == old(Now())
    {
      if user !in users {
        return false;
      }
      users := users[user := users[user].(version := users[user].version + 1)];
      sessions := map sid | sid in sessions && sessions[sid].user != user :: sessions[sid];
      return true;
    }

    /** Login once the password has been checked, with no other statement in between. */
    method StartSession(user: Name, sid: string, now: real) returns (token: Option<Token>)
      modifies `users, `sessions
      ensures token.Some? <==> user in old(users)
      ensures token.None? ==> users == old(users)
      ensures token.Some? ==> Now() == SessionStarted(old(Now()), user, sid, now)
      ensures token.Some? ==> Accepted(Now(), token.value, now)
      ensures token.Some? ==> users == old(users) && sid in sessions && sessions[sid] == Session(user, now + TOKEN_TTL)
      ensures token.Some? ==> forall k :: k != sid ==>
        (k in sessions <==> k in old(sessions) && (old(sessions)[k].user != user || old(sessions)[k].expires >= now))
      ensures token.Some? ==> forall k :: k != sid && k in sessions ==> sessions[k] == old(sessions)[k]
    {
      if user !in users {
        return None;
      }
      sessions := map k | k in sessions && !(sessions[k].user == user && sessions[k].expires < now) :: sessions[k];
      sessions := sessions[sid := Session(user, now + TOKEN_TTL)];
      var row := users[user];
      return Some(Token(user, row.version, sid, now + TOKEN_TTL, row.number, row.number, 0));
    }

    method RevokeSession(user: Name, sid: string) returns (found: bool)
      modifies `users, `sessions
      ensures Now() == SessionRevoked(old(Now()), user, sid)
      ensures found <==> sid in old(sessions) && sid !in sessions
    {
      found := sid in sessions && sessions[sid].user == user;
      if found {
        sessions := sessions - {sid};
      }
    }

    method RevokeOtherSessions(user: Name, sid: string)
      modifies `users, `sessions
      ensures users == old(users)
      ensures forall k :: k in sessions <==> k in old(sessions) && (old(sessions)[k].user == user ==> k == sid)
      ensures forall k :: k in sessions ==> sessions[k] == old(sessions)[k]
      ensures Now() == OthersRevoked(old(Now()), user, sid)
    {
      sessions := map k | k in sessions && (sessions[k].user != user || k == sid) :: sessions[k];
    }
  }

  // ------------------------------------------------------------------- runs

  /** A sign-in between its two statements: the row it read. */
  datatype Login = Login(user: Name, row: Account, checkedAt: nat)

  datatype State = State(
    tables: Tables,
    now: real,
    steps: nat,
    accounts: nat,                 // numbers given out
    logins: map<nat, Login>,
    tokens: set<Token>,
    sids: set<string>,             // session ids drawn so far
    changed: map<nat, nat>)        // when an account's name or credentials last changed

  datatype Event =
    | Register(user: Name)
    | DeleteUser(user: Name)
    | Rename(from: Name, to: Name)           // one that the database carries out
    | ChangePassword(user: Name)
    | ResetPassword(user: Name)
    | Purge(user: Name)                      // the second statement of a rename or a reset
    | LoginRead(login: nat, user: Name)
    | LoginInsert(login: nat, sid: string)
    | Revoke(user: Name, sid: string)
    | RevokeOthers(user: Name, sid: string)
    | Pass(d: real)

  function Changed(s: State, user: Name): map<nat, nat> {
    if user in s.tables.users then s.changed[s.tables.users[user].number := s.steps] else s.changed
  }

  function Step(s0: State, e: Event): State {
    var s := s0.(steps := s0.steps + 1);
    var t := s.tables;
    match e
    case Register(u) =>
      if u in t.users then s else
        s.(tables := t.(users := t.users[u := Account(s.accounts, 0)]), accounts := s.accounts + 1)
    case DeleteUser(u) => s.(tables := Deleted(t, u))
    case Rename(from, to) =>
      if to in t.users then s else s.(tables := Renamed(t, from, to), changed := Changed(s, from))
    case ChangePassword(u) => s.(tables := SessionsPurged(Bumped(t, u), u), changed := Changed(s, u))
    case ResetPassword(u) => s.(tables := Bumped(t, u), changed := Changed(s, u))
    case Purge(u) => s.(tables := SessionsPurged(t, u))
    case LoginRead(l, u) =>
      if u in t.users then s.(logins := s.logins[l := Login(u, t.users[u], s.steps)]) else s
    case LoginInsert(l, sid) =>
      if l !in s.logins || s.logins[l].user !in t.users then s.(sids := s.sids + {sid}) else
        var at := s.logins[l];
        var token := Token(at.user, at.row.version, sid, s.now + TOKEN_TTL,
                           at.row.number, t.users[at.user].number, at.checkedAt);
        s.(tables := SessionStarted(t, at.user, sid, s.now), logins := s.logins - {l},
           tokens := s.tokens + {token}, sids := s.sids + {sid})
    case Revoke(u, sid) => s.(tables := SessionRevoked(t, u, sid))
    case RevokeOthers(u, sid) => s.(tables := OthersRevoked(t, u, sid))
    case Pass(d) => if d > 0.0 then s.(now := s.now + d) else s
  }

  const FRESH := State(Tables(map[], map[]), 0.0, 0, 0, map[], {}, {}, map[])

  function Run(es: seq<Event>): State {
    if es == [] then FRESH else Step(Run(Init(es)), Last(es))
  }

  /** Session ids are random: never empty and never drawn twice. */
  ghost predicate Enabled(s: State, e: Event) {
    e.LoginInsert? ==> e.sid != "" && e.sid !in s.sids
  }

  ghost predicate Legal(es: seq<Event>) {
    es != [] ==> Legal(Init(es)) && Enabled(Run(Init(es)), Last(es))
  }

  // -------------------------------------------------------------- invariant

  ghost predicate NamesUnique(s: State) {
    && (forall u :: u in s.tables.users ==> s.tables.users[u].number < s.accounts)
    && (forall u, v :: u in s.tables.users && v in s.tables.users && u != v ==>
          s.tables.users[u].number != s.tables.users[v].number)
  }

  ghost predicate SidsKnown(s: State) {
    && (forall sid :: sid in s.tables.sessions ==> sid in s.sids && s.tables.sessions[sid].user in s.tables.users)
    && (forall k :: k in s.tokens ==> k.sid in s.sids && k.sid != "")
  }

  /** A session row belongs to the account it was inserted for, whatever it is called now. */
  ghost predicate RowsFollowAccounts(s: State) {
    forall k :: k in s.tokens && k.sid in s.tables.sessions ==>
      && s.tables.sessions[k.sid].user in s.tables.users
      && s.tables.users[s.tables.sessions[k.sid].user].number == k.boundTo
      && s.tables.sessions[k.sid].expires == k.expires
  }

  ghost predicate Unchanged(s: State, number: nat, since: nat) {
    number in s.changed ==> s.changed[number] <= since
  }

  /** An account's version tells whether anything has changed since a password was
      checked; if nothing has, the account still has the name it had then. */
  ghost predicate VersionTells(s: State, name: Name, row: Account, since: nat) {
    && row.number < s.accounts && since <= s.steps
    && forall u :: u in s.tables.users && s.tables.users[u].number == row.number ==>
      && row.version <= s.tables.users[u].version
      && (s.tables.users[u].version == row.version <==> Unchanged(s, row.number, since))
      && (Unchanged(s, row.number, since) ==> u == name)
  }

  ghost predicate TokensTell(s: State) {
    forall k :: k in s.tokens ==> VersionTells(s, k.user, Account(k.holder, k.version), k.checkedAt)
  }

  ghost predicate LoginsTell(s: State) {
    forall l :: l in s.logins ==> VersionTells(s, s.logins[l].user, s.logins[l].row, s.logins[l].checkedAt)
  }

  ghost predicate ChangesPast(s: State) {
    forall n :: n in s.changed ==> s.changed[n] <= s.steps
  }

  ghost predicate Inv(s: State) {
    NamesUnique(s) && SidsKnown(s) && RowsFollowAccounts(s) && TokensTell(s) && LoginsTell(s) && ChangesPast(s)
  }

  lemma RenameKeepsNames(s: State, e: Event)
    requires NamesUnique(s) && e.Rename?
    ensures NamesUnique(Step(s, e))
  {
  }

  lemma OtherKeepsNames(s: State, e: Event)
    requires NamesUnique(s) && !e.Rename?
    ensures NamesUnique(Step(s, e))
  {
  }

  lemma StepKeepsNames(s: State, e: Event)
    requires NamesUnique(s)
    ensures NamesUnique(Step(s, e))
  {
    if e.Rename? {
      RenameKeepsNames(s, e);
    } else {
      OtherKeepsNames(s, e);
    }
  }

  lemma StepKeepsSids(s: State, e: Event)
    requires SidsKnown(s) && Enabled(s, e)
    ensures SidsKnown(Step(s, e))
  {
  }

  /** The account called `u` before is called `v` after, with the same number. */
  ghost predicate SameAccount(s: State, u: Name, s': State, v: Name) {
    u in s.tables.users && v in s'.tables.users && s'.tables.users[v].number == s.tables.users[u].number
  }

  /** Whatever an event other than a sign-in does to the session rows, each that is left was
      there before, and belongs to the same account. */
  lemma RowsOnlyGo(s: State, e: Event)
    requires SidsKnown(s) && !e.LoginInsert?
    ensures Step(s, e).tokens == s.tokens
    ensures forall sid :: sid in Step(s, e).tables.sessions ==>
      && sid in s.tables.sessions && Step(s, e).tables.sessions[sid].expires == s.tables.sessions[sid].expires
      && SameAccount(s, s.tables.sessions[sid].user, Step(s, e), Step(s, e).tables.sessions[sid].user)
  {
  }

  lemma InsertKeepsRows(s: State, e: Event)
    requires SidsKnown(s) && RowsFollowAccounts(s) && Enabled(s, e) && e.LoginInsert?
    ensures RowsFollowAccounts(Step(s, e))
  {
  }

  lemma StepKeepsRows(s: State, e: Event)
    requires NamesUnique(s) && SidsKnown(s) && RowsFollowAccounts(s) && Enabled(s, e)
    ensures RowsFollowAccounts(Step(s, e))
  {
    if e.LoginInsert? {
      InsertKeepsRows(s, e);
    } else {
      RowsOnlyGo(s, e);
    }
  }

  lemma RenameKeepsVersion(s: State, e: Event, name: Name, row: Account, since: nat)
    requires NamesUnique(s) && VersionTells(s, name, row, since) && e.Rename?
    ensures VersionTells(Step(s, e), name, row, since)
  {
  }

  predicate BumpsVersion(e: Event) { e.ChangePassword? || e.ResetPassword? }

  lemma BumpKeepsVersion(s: State, e: Event, name: Name, row: Account, since: nat)
    requires NamesUnique(s) && VersionTells(s, name, row, since) && BumpsVersion(e)
    ensures VersionTells(Step(s, e), name, row, since)
  {
  }

  lemma OtherKeepsVersion(s: State, e: Event, name: Name, row: Account, since: nat)
    requires NamesUnique(s) && VersionTells(s, name, row, since) && !e.Rename? && !BumpsVersion(e)
    ensures VersionTells(Step(s, e), name, row, since)
  {
  }

  lemma StepKeepsVersion(s: State, e: Event, name: Name, row: Account, since: nat)
    requires NamesUnique(s) && VersionTells(s, name, row, since)
    ensures VersionTells(Step(s, e), name, row, since)
  {
    if e.Rename? {
      RenameKeepsVersion(s, e, name, row, since);
    } else if BumpsVersion(e) {
      BumpKeepsVersion(s, e, name, row, since);
    } else {
      OtherKeepsVersion(s, e, name, row, since);
    }
  }

  lemma StepKeepsLogins(s: State, e: Event)
    requires NamesUnique(s) && ChangesPast(s) && LoginsTell(s)
    ensures LoginsTell(Step(s, e)) && ChangesPast(Step(s, e))
  {
    var s' := Step(s, e);
    forall l | l in s'.logins
      ensures VersionTells(s', s'.logins[l].user, s'.logins[l].row, s'.logins[l].checkedAt)
    {
      if l in s.logins && s.logins[l] == s'.logins[l] {
        StepKeepsVersion(s, e, s.logins[l].user, s.logins[l].row, s.logins[l].checkedAt);
      }
    }
  }

  lemma StepKeepsTokens(s: State, e: Event)
    requires NamesUnique(s) && LoginsTell(s) && TokensTell(s)
    ensures TokensTell(Step(s, e))
  {
    var s' := Step(s, e);
    forall k | k in s'.tokens
      ensures VersionTells(s', k.user, Account(k.holder, k.version), k.checkedAt)
    {
      if k in s.tokens {
        StepKeepsVersion(s, e, k.user, Account(k.holder, k.version), k.checkedAt);
      } else {
        var l := s.logins[e.login];
        StepKeepsVersion(s, e, l.user, l.row, l.checkedAt);
      }
    }
  }

  lemma {:induction false} RunKeepsInv(es: seq<Event>)
    requires Legal(es)
    ensures Inv(Run(es))
  {
    if es != [] {
      var s, e := Run(Init(es)), Last(es);
      RunKeepsInv(Init(es));
      StepKeepsNames(s, e);
      StepKeepsSids(s, e);
      StepKeepsRows(s, e);
      StepKeepsLogins(s, e);
      StepKeepsTokens(s, e);
    }
  }

  // ---------------------------------------------------------------- results

  /** Whether the name still named the account whose password was checked when the
      session row was inserted. */
  ghost predicate BoundToHolder(k: Token) { k.boundTo == k.holder }

  /** A token bound to its holder is accepted exactly while it is unexpired, its session row
      stands, and its holder has had no rename, password change or reset since the password
      was checked; and it is then accepted as its holder. */
  lemma AcceptedExactly(es: seq<Event>, k: Token, now: real)
    requires Legal(es) && k in Run(es).tokens && BoundToHolder(k)
    ensures var s := Run(es);
      Accepted(s.tables, k, now) <==>
        now < k.expires && k.sid in s.tables.sessions && Unchanged(s, k.holder, k.checkedAt)
    ensures Accepted(Run(es).tables, k, now) ==> Run(es).tables.users[k.user].number == k.holder
  {
    RunKeepsInv(es);
    var s := Run(es);
    assert VersionTells(s, k.user, Account(k.holder, k.version), k.checkedAt);
  }

  // ------------------------------------- what ends a session, and what a password check

  /** The event ends the session: its owner signs it out, or out of all other sessions, or
      changes the password; or what follows a rename or reset under the name they then have;
      or the account goes; or its owner signs in again after it has expired. */
  ghost predicate EndsRow(s: State, e: Event, k: Token) {
    match e
    case Revoke(u, sid) => sid == k.sid && HasName(s, u, k.boundTo)
    case RevokeOthers(u, sid) => sid != k.sid && HasName(s, u, k.boundTo)
    case ChangePassword(u) => HasName(s, u, k.boundTo)
    case Purge(u) => HasName(s, u, k.boundTo)
    case DeleteUser(u) => HasName(s, u, k.boundTo)
    case LoginInsert(l, _) => l in s.logins && HasName(s, s.logins[l].user, k.boundTo) && k.expires < s.now
    case _ => false
  }

  /** The event carries out a rename, password change or reset of the account. */
  ghost predicate Changes(s: State, e: Event, number: nat) {
    match e
    case Rename(from, to) => to !in s.tables.users && HasName(s, from, number)
    case ChangePassword(u) => HasName(s, u, number)
    case ResetPassword(u) => HasName(s, u, number)
    case _ => false
  }

  lemma RenameKeepsRow(s: State, e: Event, sid: string)
    requires e.Rename?
    ensures sid in Step(s, e).tables.sessions <==> sid in s.tables.sessions
  {
  }

  lemma InsertEndsRow(s: State, e: Event, k: Token)
    requires Inv(s) && Enabled(s, e) && k in s.tokens && e.LoginInsert?
    ensures k.sid in Step(s, e).tables.sessions <==> k.sid in s.tables.sessions && !EndsRow(s, e, k)
  {
  }

  lemma RowStep(s: State, e: Event, k: Token)
    requires Inv(s) && Enabled(s, e) && k in s.tokens
    ensures k in Step(s, e).tokens
    ensures k.sid in Step(s, e).tables.sessions <==> k.sid in s.tables.sessions && !EndsRow(s, e, k)
  {
    if e.Rename? {
      RenameKeepsRow(s, e, k.sid);
    } else if e.LoginInsert? {
      InsertEndsRow(s, e, k);
    }
  }

  ghost predicate Issues(s: State, e: Event, k: Token) { k !in s.tokens && k in Step(s, e).tokens }

  ghost predicate Stands(s: State, k: Token) { k in s.tokens && k.sid in s.tables.sessions }

  lemma IssuedStands(s: State, e: Event, k: Token)
    requires k !in s.tokens && k in Step(s, e).tokens
    ensures e.LoginInsert? && k.sid == e.sid && k.sid in Step(s, e).tables.sessions
  {
  }

  ghost function Issuing(es: seq<Event>, k: Token): nat -> bool {
    (i: nat) => i < |es| && Issues(Run(es[..i]), es[i], k)
  }

  ghost function EndingRow(es: seq<Event>, k: Token): nat -> bool {
    (i: nat) => i < |es| && EndsRow(Run(es[..i]), es[i], k)
  }

  ghost function Standing(es: seq<Event>, k: Token): nat -> bool {
    (i: nat) => i <= |es| && Stands(Run(es[..i]), k)
  }

  lemma {:induction false} LegalPrefix(es: seq<Event>, i: nat)
    requires Legal(es) && i < |es|
    ensures Legal(es[..i]) && Enabled(Run(es[..i]), es[i]) && Run(es[..i + 1]) == Step(Run(es[..i]), es[i])
  {
    if i + 1 == |es| {
      assert es[..i] == Init(es) && es[..i + 1] == es;
    } else {
      LegalPrefix(Init(es), i);
      assert Init(es)[..i] == es[..i] && Init(es)[..i + 1] == es[..i + 1];
    }
  }

  lemma StandsStep(s: State, e: Event, k: Token)
    requires Inv(s) && Enabled(s, e)
    ensures Stands(Step(s, e), k) <==> Issues(s, e, k) || (Stands(s, k) && !EndsRow(s, e, k))
  {
    if k in s.tokens {
      RowStep(s, e, k);
    } else if k in Step(s, e).tokens {
      IssuedStands(s, e, k);
    }
  }

  lemma StandsStepAt(es: seq<Event>, i: nat, k: Token)
    requires Legal(es) && i < |es|
    ensures Switches(Standing(es, k), Issuing(es, k), EndingRow(es, k), i)
  {
    LegalPrefix(es, i);
    RunKeepsInv(es[..i]);
    StandsStep(Run(es[..i]), es[i], k);
  }

  lemma StandsSwitches(es: seq<Event>, k: Token)
    requires Legal(es) && k in Run(es).tokens
    ensures forall i: nat :: i < |es| ==> Switches(Standing(es, k), Issuing(es, k), EndingRow(es, k), i)
  {
    forall i: nat | i < |es|
      ensures Switches(Standing(es, k), Issuing(es, k), EndingRow(es, k), i)
    {
      StandsStepAt(es, i, k);
    }
  }

  lemma StandsEnds(es: seq<Event>, k: Token)
    requires Legal(es) && k in Run(es).tokens
    ensures !Standing(es, k)(0) && (Standing(es, k)(|es|) <==> k.sid in Run(es).tables.sessions)
  {
    assert es[..0] == [] && es[..|es|] == es;
  }

  /** On any run, the session of a token stands if and only if nothing has ended it since the
      token was issued. */
  lemma StandsExactly(es: seq<Event>, k: Token)
    requires Legal(es) && k in Run(es).tokens
    ensures k.sid in Run(es).tables.sessions <==> HeldSince(Issuing(es, k), EndingRow(es, k), |es|)
  {
    StandsSwitches(es, k);
    StandsEnds(es, k);
    Since(Standing(es, k), Issuing(es, k), EndingRow(es, k), |es|);
  }

  ghost predicate ChangesAt(es: seq<Event>, j: nat, number: nat) {
    j < |es| && Changes(Run(es[..j]), es[j], number)
  }

  lemma ChangeStep(s: State, e: Event, number: nat)
    ensures Step(s, e).steps == s.steps + 1
    ensures if Changes(s, e, number) then number in Step(s, e).changed && Step(s, e).changed[number] == s.steps + 1
            else (number in Step(s, e).changed <==> number in s.changed) &&
                 (number in s.changed ==> Step(s, e).changed[number] == s.changed[number])
  {
  }

  lemma ChangesAtLast(es: seq<Event>, number: nat)
    requires es != []
    ensures ChangesAt(es, |es| - 1, number) <==> Changes(Run(Init(es)), Last(es), number)
    ensures forall j :: 0 <= j < |es| - 1 ==> (ChangesAt(es, j, number) <==> ChangesAt(Init(es), j, number))
  {
    assert es[..|es| - 1] == Init(es);
    assert forall j :: 0 <= j < |es| - 1 ==> es[..j] == Init(es)[..j];
  }

  lemma {:induction false} StepsCount(es: seq<Event>)
    ensures Run(es).steps == |es|
  {
    if es != [] {
      StepsCount(Init(es));
      ChangeStep(Run(Init(es)), Last(es), 0);
    }
  }

  lemma {:induction false} ChangedExactly(es: seq<Event>, number: nat, since: nat)
    requires Legal(es)
    ensures Unchanged(Run(es), number, since) <==> forall j :: since <= j < |es| ==> !ChangesAt(es, j, number)
  {
    StepsCount(es);
    RunKeepsInv(es);
    if since < |es| {
      ChangedExactly(Init(es), number, since);
      StepsCount(Init(es));
      ChangeStep(Run(Init(es)), Last(es), number);
      ChangesAtLast(es, number);
    }
  }

  /** In terms of what has happened: a token bound to its holder is accepted if and only if it is
      unexpired, nothing has ended its session since it was issued, and its holder has had no
      rename, password change or reset since the password was checked. */
  lemma AcceptedByEvents(es: seq<Event>, k: Token, now: real)
    requires Legal(es) && k in Run(es).tokens && BoundToHolder(k)
    ensures Accepted(Run(es).tables, k, now) <==>
      && now < k.expires && HeldSince(Issuing(es, k), EndingRow(es, k), |es|)
      && forall j :: k.checkedAt <= j < |es| ==> !ChangesAt(es, j, k.holder)
  {
    AcceptedExactly(es, k, now);
    StandsExactly(es, k);
    ChangedExactly(es, k.holder, k.checkedAt);
  }

  /** Whenever a token is accepted, it acts for the account its session row was inserted
      for; so it acts for its holder exactly when it was bound to it. */
  lemma ActsForHolderExactly(es: seq<Event>, k: Token, now: real)
    requires Legal(es) && k in Run(es).tokens && Accepted(Run(es).tables, k, now)
    ensures Run(es).tables.users[k.user].number == k.holder <==> BoundToHolder(k)
  {
    RunKeepsInv(es);
  }

  /** The event takes the name from the account that has it. */
  ghost predicate Frees(s: State, e: Event, name: Name) {
    && name in s.tables.users
    && (e == DeleteUser(name) || (e.Rename? && e.from == name && e.to !in s.tables.users))
  }

  ghost predicate Concerns(e: Event, login: nat) {
    (e.LoginRead? || e.LoginInsert?) && e.login == login
  }

  /** Between the two statements of the sign-in: nothing else of it happens. */
  ghost predicate Between(es: seq<Event>, login: nat) {
    forall e :: e in es ==> !Concerns(e, login)
  }

  ghost predicate NeverFreed(before: seq<Event>, es: seq<Event>, name: Name)
    decreases |es|
  {
    es != [] ==> NeverFreed(before, Init(es), name) && !Frees(Run(before + Init(es)), Last(es), name)
  }

  ghost predicate NeverRenamedTo(es: seq<Event>, name: Name) {
    forall e :: e in es ==> !(e.Rename? && e.to == name)
  }

  /** The account still has the name. */
  ghost predicate HasName(s: State, name: Name, number: nat) {
    name in s.tables.users && s.tables.users[name].number == number
  }

  lemma StepKeepsName(s: State, e: Event, name: Name, number: nat)
    requires NamesUnique(s) && number < s.accounts
    ensures number < Step(s, e).accounts
    ensures HasName(s, name, number) && !Frees(s, e, name) ==> HasName(Step(s, e), name, number)
    ensures HasName(s, name, number) && Frees(s, e, name) ==> !HasName(Step(s, e), name, number)
    ensures !HasName(s, name, number) && !(e.Rename? && e.to == name) ==> !HasName(Step(s, e), name, number)
  {
  }

  lemma LoginWaits(s: State, e: Event, login: nat)
    requires login in s.logins && !Concerns(e, login)
    ensures login in Step(s, e).logins && Step(s, e).logins[login] == s.logins[login]
  {
  }

  lemma {:induction false} NameBetween(before: seq<Event>, es: seq<Event>, login: nat, name: Name, number: nat)
    requires Legal(before + es) && Between(es, login)
    requires login in Run(before).logins && HasName(Run(before), name, number)
    ensures login in Run(before + es).logins && Run(before + es).logins[login] == Run(before).logins[login]
    ensures number < Run(before + es).accounts
    ensures NeverFreed(before, es, name) ==> HasName(Run(before + es), name, number)
    ensures !NeverFreed(before, es, name) && NeverRenamedTo(es, name) ==> !HasName(Run(before + es), name, number)
    decreases |es|
  {
    if es == [] {
      assert before + es == before;
      RunKeepsInv(before);
    } else {
      var so := before + Init(es);
      assert Init(before + es) == so && Last(before + es) == Last(es);
      assert Last(es) in es && forall e :: e in Init(es) ==> e in es;
      NameBetween(before, Init(es), login, name, number);
      RunKeepsInv(so);
      StepKeepsName(Run(so), Last(es), name, number);
      LoginWaits(Run(so), Last(es), login);
    }
  }

  /** What a sign-in yields, on any run: read before `es`, insert after it. The token is bound
      to its holder if nothing in between takes the name from the account; and if something
      does, it is not, unless a rename in between gives the name back. */
  lemma SignInBinds(before: seq<Event>, login: nat, name: Name, es: seq<Event>, sid: string)
    requires Legal(before + [LoginRead(login, name)] + es + [LoginInsert(login, sid)])
    requires Between(es, login) && name in Run(before).tables.users
    requires name in Run(before + [LoginRead(login, name)] + es).tables.users
    ensures
      var read := before + [LoginRead(login, name)];
      exists k :: k in Run(read + es + [LoginInsert(login, sid)]).tokens && k.sid == sid && k.user == name &&
        k.holder == Run(before).tables.users[name].number &&
        (NeverFreed(read, es, name) ==> BoundToHolder(k)) &&
        (!NeverFreed(read, es, name) && NeverRenamedTo(es, name) ==> !BoundToHolder(k))
  {
    var read := before + [LoginRead(login, name)];
    var all := read + es + [LoginInsert(login, sid)];
    assert Init(all) == read + es && Last(all) == LoginInsert(login, sid);
    SignInReads(before, login, name);
    NameBetween(read, es, login, name, Run(before).tables.users[name].number);
    SignInInserts(Run(read + es), login, sid);
  }

  lemma SignInReads(before: seq<Event>, login: nat, name: Name)
    requires name in Run(before).tables.users
    ensures var s, s' := Run(before), Run(before + [LoginRead(login, name)]);
      && login in s'.logins && s'.logins[login].user == name && s'.logins[login].row == s.tables.users[name]
      && HasName(s', name, s.tables.users[name].number)
  {
    assert Init(before + [LoginRead(login, name)]) == before;
  }

  lemma SignInInserts(s: State, login: nat, sid: string)
    requires login in s.logins && s.logins[login].user in s.tables.users
    ensures var l := s.logins[login];
      Token(l.user, l.row.version, sid, s.now + TOKEN_TTL, l.row.number, s.tables.users[l.user].number, l.checkedAt)
        in Step(s, LoginInsert(login, sid)).tokens
  {
  }

  /** The two statements of a sign-in are not one step: if between them the account gives up
      its name and somebody else registers it, the token is accepted as the newcomer. */
  lemma LoginCanBindToNewcomer() returns (es: seq<Event>, k: Token)
    ensures Legal(es) && k in Run(es).tokens && Accepted(Run(es).tables, k, 0.0)
    ensures !BoundToHolder(k) && Run(es).tables.users[k.user].number != k.holder
  {
    var e1 := [Register("alice")];
    var e2 := e1 + [LoginRead(0, "alice")];
    var e3 := e2 + [Rename("alice", "bob")];
    var e4 := e3 + [Register("alice")];
    es := e4 + [LoginInsert(0, "s")];
    assert Init(e1) == [] && Init(e2) == e1 && Init(e3) == e2 && Init(e4) == e3 && Init(es) == e4;
    var s1 := Run(e1);
    assert s1.tables.users == map["alice" := Account(0, 0)];
    var s2 := Run(e2);
    assert s2 == Step(s1, LoginRead(0, "alice"));
    assert s2.tables.users == s1.tables.users && s2.logins == map[0 := Login("alice", Account(0, 0), 2)];
    var s3 := Run(e3);
    assert s3 == Step(s2, Rename("alice", "bob"));
    assert s3.logins == map[0 := Login("alice", Account(0, 0), 2)];
    assert s3.tables.users == map["bob" := Account(0, 1)];
    var s4 := Run(e4);
    assert s4 == Step(s3, Register("alice"));
    assert s4.tables.users == map["bob" := Account(0, 1), "alice" := Account(1, 0)];
    k := Token("alice", 0, "s", TOKEN_TTL, 0, 1, 2);
    assert Legal(e1) && Legal(e2) && Legal(e3) && Legal(e4);
  }

  lemma SignedOutStays(s: State, e: Event, k: Token)
    requires SidsKnown(s) && Enabled(s, e) && k in s.tokens && k.sid !in s.tables.sessions
    ensures k in Step(s, e).tokens && k.sid !in Step(s, e).tables.sessions
  {
  }

  /** Once a session row is gone its token is never accepted again. */
  lemma {:induction false} SignedOutForGood(es: seq<Event>, more: seq<Event>, k: Token, now: real)
    requires Legal(es + more) && k in Run(es).tokens && k.sid !in Run(es).tables.sessions
    ensures k in Run(es + more).tokens && k.sid !in Run(es + more).tables.sessions
    ensures !Accepted(Run(es + more).tables, k, now)
    decreases |more|
  {
    if more == [] {
      assert es + more == es;
    } else {
      assert Init(es + more) == es + Init(more) && Last(es + more) == Last(more);
      SignedOutForGood(es, Init(more), k, now);
      RunKeepsInv(Init(es + more));
      SignedOutStays(Run(Init(es + more)), Last(more), k);
    }
    RunKeepsInv(es + more);
  }
}
