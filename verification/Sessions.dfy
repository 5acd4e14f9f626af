/** Authorizing accounts, storing and revoking their sessions, and asking for userbots to be
    started and stopped (`app/userbots/service.py`, `app/userbots/repository.py`). */
module Sessions {
  import opened Common
  import opened Commands
  import opened SignedQueues
  import Userbots

  datatype Account = Account(userId: int, phone: string, isAuthorized: bool, authState: string)

  datatype SessionRow = SessionRow(accountId: int, encrypted: string, isActive: bool, revokedAt: Option<int>,
                                   deviceModel: Option<string>)

  datatype Bot = Bot(userId: int, accountId: int, status: Userbots.Status)

  datatype Error = NotFound | SessionError | MultipleRows

  datatype Tables = Tables(accounts: map<int, Account>, sessions: map<int, SessionRow>, bots: map<int, Bot>,
                           nextAccount: int, nextSession: nat, nextBot: int)

  /** Encryption takes a nonce, since the cipher never gives the same text twice. */
  datatype Cipher = Cipher(encrypt: (string, int) -> string, decrypt: string -> Result<string, Error>)

  /** What the cipher is for: decrypting gives back every text that can be encrypted. */
  ghost predicate Faithful(cipher: Cipher) {
    forall text, nonce :: text != "" ==> (cipher.decrypt)((cipher.encrypt)(text, nonce)) == Ok(text)
  }

  // ----- Queries -----

  function AccountIds(accounts: map<int, Account>, userId: int, phone: string): set<int> {
    set id | id in accounts && accounts[id].userId == userId && accounts[id].phone == phone
  }

  function BotIds(bots: map<int, Bot>, accountId: int): set<int> {
    set id | id in bots && bots[id].accountId == accountId
  }

  function ActiveSessionIds(sessions: map<int, SessionRow>, accountId: int): set<int> {
    set id | id in sessions && sessions[id].accountId == accountId && sessions[id].isActive
  }

  predicate Usable(row: SessionRow, accountId: int) {
    row.accountId == accountId && row.isActive && row.revokedAt.None?
  }

  /** The usable session of an account with the greatest id below `bound`. */
  function LatestUsable(sessions: map<int, SessionRow>, accountId: int, bound: nat): (latest: Option<nat>)
    ensures latest.Some? ==>
              latest.value < bound && latest.value in sessions && Usable(sessions[latest.value], accountId)
    ensures forall id | id in sessions && 0 <= id < bound && Usable(sessions[id], accountId) ::
              latest.Some? && id <= latest.value
  {
    if bound == 0 then None
    else if bound - 1 in sessions && Usable(sessions[bound - 1], accountId) then Some(bound - 1)
    else LatestUsable(sessions, accountId, bound - 1)
  }

  /** `get_active_session` */
  function GetActiveSession(t: Tables, cipher: Cipher, accountId: int): Result<string, Error> {
    match LatestUsable(t.sessions, accountId, t.nextSession)
    case None => Err(SessionError)
    case Some(id) => (cipher.decrypt)(t.sessions[id].encrypted)
  }

  // ----- The transactions -----

  datatype Operation =
    | Authorize(userId: int, phone: string, session: string, deviceModel: Option<string>, nonce: int)
    | Revoke(botId: int, now: int)
    | RequestStart(botId: int)
    | RequestStop(botId: int)
    /** Any other part of the platform changes the status of some userbots. */
    | OtherStatusWrites(statuses: map<int, Userbots.Status>)

  ghost function Refusal(t: Tables, op: Operation): Option<Error> {
    match op
    case Authorize(userId, phone, session, _, _) =>
      if |AccountIds(t.accounts, userId, phone)| > 1 then Some(MultipleRows)
      else if session == "" then Some(SessionError)
      else if |BotIds(t.bots, AccountFor(t, userId, phone))| > 1 then Some(MultipleRows)
      else None
    case Revoke(botId, _) => if botId in t.bots then None else Some(NotFound)
    case RequestStart(botId) => if botId in t.bots then None else Some(NotFound)
    case RequestStop(botId) => if botId in t.bots then None else Some(NotFound)
    case OtherStatusWrites(_) => None
  }

  /** The account that `_get_or_create_account` returns. */
  ghost function AccountFor(t: Tables, userId: int, phone: string): int {
    var ids := AccountIds(t.accounts, userId, phone);
    if ids == {} then t.nextAccount else Pick(ids)
  }

  /** The userbot that `_get_or_create_userbot` returns. */
  ghost function BotFor(t: Tables, accountId: int): int {
    var ids := BotIds(t.bots, accountId);
    if ids == {} then t.nextBot else Pick(ids)
  }

  function RevokedAt(sessions: map<int, SessionRow>, ids: set<int>, now: int): map<int, SessionRow> {
    map id | id in sessions ::
      if id in ids then sessions[id].(isActive := false, revokedAt := Some(now)) else sessions[id]
  }

  /** The tables after a login: a new session row, and the account and the userbot it belongs to. */
  ghost function Authorized(t: Tables, cipher: Cipher, userId: int, phone: string, session: string,
                            deviceModel: Option<string>, nonce: int): Tables
  {
    var accountId := AccountFor(t, userId, phone);
    var botId := BotFor(t, accountId);
    var newAccount, newBot := AccountIds(t.accounts, userId, phone) == {}, BotIds(t.bots, accountId) == {};
    var owner := if newBot then userId else t.bots[botId].userId;
    Tables(t.accounts[accountId := Account(userId, phone, true, "authorized")],
           t.sessions[t.nextSession :=
                        SessionRow(accountId, (cipher.encrypt)(session, nonce), true, None, deviceModel)],
           t.bots[botId := Bot(owner, accountId, Userbots.Authorized)],
           if newAccount then t.nextAccount + 1 else t.nextAccount,
           t.nextSession + 1,
           if newBot then t.nextBot + 1 else t.nextBot)
  }

  ghost function Effect(t: Tables, cipher: Cipher, op: Operation): Tables
    requires Refusal(t, op).None?
  {
    match op
    case Authorize(userId, phone, session, deviceModel, nonce) =>
      Authorized(t, cipher, userId, phone, session, deviceModel, nonce)
    case Revoke(botId, now) =>
      t.(sessions := RevokedAt(t.sessions, ActiveSessionIds(t.sessions, t.bots[botId].accountId), now))
    case RequestStart(botId) =>
      if t.bots[botId].status == Userbots.Running then t
      else t.(bots := t.bots[botId := t.bots[botId].(status := Userbots.Starting)])
    case RequestStop(botId) =>
      t.(bots := t.bots[botId := t.bots[botId].(status := Userbots.Stopping)])
    case OtherStatusWrites(statuses) =>
      t.(bots := map b | b in t.bots :: if b in statuses then t.bots[b].(status := statuses[b]) else t.bots[b])
  }

  ghost function Apply(t: Tables, cipher: Cipher, op: Operation): Tables {
    if Refusal(t, op).None? then Effect(t, cipher, op) else t
  }

  const EMPTY := Tables(map[], map[], map[], 1, 1, 1)

  ghost function After(cipher: Cipher, ops: seq<Operation>): Tables {
    if ops == [] then EMPTY else Apply(After(cipher, Init(ops)), cipher, Last(ops))
  }

  class UserbotService {
    const cipher: Cipher
    const bus: SignedQueue<Command>
    var accounts: map<int, Account>
    var sessions: map<int, SessionRow>
    var bots: map<int, Bot>
    var nextAccount: int
    var nextSession: nat
    var nextBot: int

    ghost function State(): Tables
      reads this
    {
      Tables(accounts, sessions, bots, nextAccount, nextSession, nextBot)
    }

    constructor (cipher: Cipher, bus: SignedQueue<Command>)
      ensures this.cipher == cipher && this.bus == bus && State() == EMPTY
    {
      this.cipher, this.bus := cipher, bus;
      accounts, sessions, bots, nextAccount, nextSession, nextBot := map[], map[], map[], 1, 1, 1;
    }

    /** Any error undoes the whole transaction. */
    method CompleteAuthorization(userId: int, phone: string, session: string, deviceModel: Option<string>, nonce: int)
      returns (r: Result<int, Error>)
      modifies this
      ensures var op := Authorize(userId, phone, session, deviceModel, nonce);
              match Refusal(old(State()), op)
              case Some(e) => r == Err(e) && State() == old(State())
              case None => State() == Effect(old(State()), cipher, op)
                           && r == Ok(BotFor(old(State()), AccountFor(old(State()), userId, phone)))
    {
      var accounts', nextAccount' := accounts, nextAccount;
      var account := AuthorizeAccount(userId, phone);
      if account.Err? {
        return Err(account.error);
      }
      if session == "" {
        accounts, nextAccount := accounts', nextAccount';
        return Err(SessionError);
      }
      var sessions', nextSession' := sessions, nextSession;
      var encrypted := (cipher.encrypt)(session, nonce);
      sessions := sessions[nextSession := SessionRow(account.value, encrypted, true, None, deviceModel)];
      nextSession := nextSession + 1;
      var bot := AuthorizeUserbot(userId, account.value);
      if bot.Err? {
        accounts, nextAccount, sessions, nextSession := accounts', nextAccount', sessions', nextSession';
        return Err(bot.error);
      }
      return Ok(bot.value);
    }

    method AuthorizeAccount(userId: int, phone: string) returns (r: Result<int, Error>)
      modifies this`accounts, this`nextAccount
      ensures r == if |AccountIds(old(accounts), userId, phone)| > 1 then Err(MultipleRows)
                else Ok(AccountFor(old(State()), userId, phone))
      ensures accounts == if r.Ok? then old(accounts)[r.value := Account(userId, phone, true, "authorized")]
                else old(accounts)
      ensures nextAccount == if AccountIds(old(accounts), userId, phone) == {} then old(nextAccount) + 1
                else old(nextAccount)
    {
      r := GetOrCreateAccount(userId, phone);
      if r.Ok? {
        accounts := accounts[r.value := accounts[r.value].(isAuthorized := true, authState := "authorized")];
      }
    }

    method AuthorizeUserbot(userId: int, accountId: int) returns (r: Result<int, Error>)
      modifies this`bots, this`nextBot
      ensures r == if |BotIds(old(bots), accountId)| > 1 then Err(MultipleRows) else Ok(BotFor(old(State()), accountId))
      ensures var owner := if BotIds(old(bots), accountId) == {} || r.Err? then userId else old(bots)[r.value].userId;
              bots == if r.Ok? then old(bots)[r.value := Bot(owner, accountId, Userbots.Authorized)] else old(bots)
      ensures nextBot == if BotIds(old(bots), accountId) == {} then old(nextBot) + 1 else old(nextBot)
    {
      r := GetOrCreateUserbot(userId, accountId);
      if r.Ok? {
        bots := bots[r.value := bots[r.value].(status := Userbots.Authorized)];
      }
    }

    method GetOrCreateAccount(userId: int, phone: string) returns (r: Result<int, Error>)
      modifies this`accounts, this`nextAccount
      ensures r == if |AccountIds(old(accounts), userId, phone)| > 1 then Err(MultipleRows)
                else Ok(AccountFor(old(State()), userId, phone))
      ensures r.Ok? ==> r.value in accounts && accounts[r.value].userId == userId && accounts[r.value].phone == phone
      ensures accounts == if r.Ok? then old(accounts)[r.value := accounts[r.value]] else old(accounts)
      ensures nextAccount == if AccountIds(old(accounts), userId, phone) == {} then old(nextAccount) + 1
                else old(nextAccount)
    {
      var ids := AccountIds(accounts, userId, phone);
      if |ids| > 1 {
        return Err(MultipleRows);
      }
      if ids == {} {
        r := Ok(nextAccount);
        accounts := accounts[nextAccount := Account(userId, phone, false, "created")];
        nextAccount := nextAccount + 1;
      } else {
        var id := PickOne(ids);
        OnlyElement(ids, id);
        r := Ok(id);
      }
    }

    method GetOrCreateUserbot(userId: int, accountId: int) returns (r: Result<int, Error>)
      modifies this`bots, this`nextBot
      ensures r == if |BotIds(old(bots), accountId)| > 1 then Err(MultipleRows) else Ok(BotFor(old(State()), accountId))
      ensures r.Ok? ==> r.value in bots && bots[r.value].accountId == accountId
      ensures bots == if r.Ok? then old(bots)[r.value := bots[r.value]] else old(bots)
      ensures if BotIds(old(bots), accountId) == {} then r.Ok? && bots[r.value].userId == userId
                && nextBot == old(nextBot) + 1
              else bots == old(bots) && nextBot == old(nextBot)
    {
      var ids := BotIds(bots, accountId);
      if |ids| > 1 {
        return Err(MultipleRows);
      }
      if ids == {} {
        r := Ok(nextBot);
        bots := bots[nextBot := Bot(userId, accountId, Userbots.Created)];
        nextBot := nextBot + 1;
      } else {
        var id := PickOne(ids);
        OnlyElement(ids, id);
        r := Ok(id);
      }
    }

    method RevokeSessions(botId: int, now: int) returns (r: Result<nat, Error>)
      modifies this`sessions
      ensures match Refusal(old(State()), Revoke(botId, now))
              case Some(e) => r == Err(e) && State() == old(State())
              case None => State() == Effect(old(State()), cipher, Revoke(botId, now))
                           && r == Ok(|ActiveSessionIds(old(sessions), bots[botId].accountId)|)
    {
      if botId !in bots {
        return Err(NotFound);
      }
      var rows := ActiveSessionIds(sessions, bots[botId].accountId);
      var left := rows;
      while left != {}
        invariant left <= rows
        invariant sessions == RevokedAt(old(sessions), rows - left, now)
        decreases left
      {
        var id := PickOne(left);
        sessions := sessions[id := sessions[id].(isActive := false, revokedAt := Some(now))];
        left := left - {id};
      }
      return Ok(|rows|);
    }

    /** A running userbot is left alone; otherwise the status changes and a command is sent. */
    method RequestBotStart(botId: int, commandId: string, actorId: int, actorRole: string, now: int)
      returns (error: Option<Error>)
      modifies this`bots, bus
      ensures error == Refusal(old(State()), RequestStart(botId))
                && State() == Apply(old(State()), cipher, RequestStart(botId))
      ensures bus.entries == old(bus.entries) + (
                if error.None? && old(bots)[botId].status != Userbots.Running
                then [SentEntry(bus.policy,
                                CommandBody(commandId, "start", botId, Some(actorId), Some(actorRole), now))]
                else [])
    {
      if botId !in bots {
        return Some(NotFound);
      }
      if bots[botId].status == Userbots.Running {
        return None;
      }
      bots := bots[botId := bots[botId].(status := Userbots.Starting)];
      Send(bus, commandId, "start", botId, Some(actorId), Some(actorRole), now);
      return None;
    }

    method RequestBotStop(botId: int, commandId: string, actorId: int, actorRole: string, now: int)
      returns (error: Option<Error>)
      modifies this`bots, bus
      ensures error == Refusal(old(State()), RequestStop(botId))
                && State() == Apply(old(State()), cipher, RequestStop(botId))
      ensures bus.entries == old(bus.entries) + (
                if error.None?
                then [SentEntry(bus.policy, CommandBody(commandId, "stop", botId, Some(actorId), Some(actorRole), now))]
                else [])
    {
      if botId !in bots {
        return Some(NotFound);
      }
      bots := bots[botId := bots[botId].(status := Userbots.Stopping)];
      Send(bus, commandId, "stop", botId, Some(actorId), Some(actorRole), now);
      return None;
    }
  }

  // ----- What every run keeps -----

  /** Ids are below the next ones; there is one account per user and phone and one userbot per
      account; a session is active exactly when it has not been revoked. */
  ghost predicate Sound(t: Tables) {
    && t.nextSession > 0
    && (forall id | id in t.accounts :: id < t.nextAccount)
    && (forall id | id in t.sessions :: 0 < id < t.nextSession)
    && (forall id | id in t.bots :: id < t.nextBot && t.bots[id].accountId in t.accounts)
    && (forall id | id in t.sessions :: t.sessions[id].accountId in t.accounts)
    && (forall a, b | a in t.accounts && b in t.accounts && t.accounts[a].userId == t.accounts[b].userId
                   && t.accounts[a].phone == t.accounts[b].phone :: a == b)
    && (forall a, b | a in t.bots && b in t.bots && t.bots[a].accountId == t.bots[b].accountId :: a == b)
    && (forall id | id in t.sessions :: t.sessions[id].isActive <==> t.sessions[id].revokedAt.None?)
  }

  lemma AtMostOne<T>(s: set<T>)
    requires forall a, b | a in s && b in s :: a == b
    ensures |s| <= 1
  {
    if s != {} {
      var x := Pick(s);
      assert s == {x};
    }
  }

  /** The queries for one row or none never find two. */
  lemma UniqueRows(t: Tables, userId: int, phone: string)
    requires Sound(t)
    ensures |AccountIds(t.accounts, userId, phone)| <= 1
    ensures forall accountId :: |BotIds(t.bots, accountId)| <= 1
    ensures AccountFor(t, userId, phone) !in t.accounts <==> AccountFor(t, userId, phone) == t.nextAccount
    ensures forall accountId :: BotFor(t, accountId) !in t.bots <==> BotFor(t, accountId) == t.nextBot
  {
    var accounts := AccountIds(t.accounts, userId, phone);
    forall a, b | a in accounts && b in accounts ensures a == b {}
    AtMostOne(accounts);
    forall accountId ensures |BotIds(t.bots, accountId)| <= 1 {
      var bots := BotIds(t.bots, accountId);
      forall a, b | a in bots && b in bots ensures a == b {}
      AtMostOne(bots);
    }
  }

  lemma AuthorizeKeepsSound(t: Tables, cipher: Cipher, op: Operation)
    requires Sound(t) && op.Authorize? && Refusal(t, op).None?
    ensures Sound(Effect(t, cipher, op))
  {
    UniqueRows(t, op.userId, op.phone);
    var accountId := AccountFor(t, op.userId, op.phone);
    forall a | a in t.accounts && t.accounts[a].userId == op.userId && t.accounts[a].phone == op.phone
      ensures a == accountId {
      assert a in AccountIds(t.accounts, op.userId, op.phone);
    }
    forall b | b in t.bots && t.bots[b].accountId == accountId ensures b == BotFor(t, accountId) {
      assert b in BotIds(t.bots, accountId);
    }
  }

  lemma RevokeKeepsSound(t: Tables, cipher: Cipher, op: Operation)
    requires Sound(t) && op.Revoke? && Refusal(t, op).None?
    ensures Sound(Effect(t, cipher, op))
  {
  }

  lemma StatusKeepsSound(t: Tables, cipher: Cipher, op: Operation)
    requires Sound(t) && (op.RequestStart? || op.RequestStop? || op.OtherStatusWrites?) && Refusal(t, op).None?
    ensures Sound(Effect(t, cipher, op))
  {
    var t' := Effect(t, cipher, op);
    assert t'.bots.Keys == t.bots.Keys;
    assert forall b | b in t.bots :: t'.bots[b].accountId == t.bots[b].accountId;
  }

  lemma ApplyKeepsSound(t: Tables, cipher: Cipher, op: Operation)
    requires Sound(t)
    ensures Sound(Apply(t, cipher, op))
  {
    if Refusal(t, op).None? {
      match op
      case Authorize(_, _, _, _, _) => AuthorizeKeepsSound(t, cipher, op);
      case Revoke(_, _) => RevokeKeepsSound(t, cipher, op);
      case _ => StatusKeepsSound(t, cipher, op);
    }
  }

  lemma {:induction false} AlwaysSound(cipher: Cipher, ops: seq<Operation>)
    ensures Sound(After(cipher, ops))
  {
    if ops == [] {
    } else {
      AlwaysSound(cipher, Init(ops));
      ApplyKeepsSound(After(cipher, Init(ops)), cipher, Last(ops));
    }
  }

  ghost predicate HasBot(t: Tables, accountId: int) {
    exists b :: b in t.bots && t.bots[b].accountId == accountId
  }

  /** Accounts exist only once they are authorized, and each has a userbot of its own user. */
  ghost predicate Staffed(t: Tables) {
    && (forall a | a in t.accounts :: t.accounts[a].isAuthorized && t.accounts[a].authState == "authorized"
         && HasBot(t, a))
    && (forall b | b in t.bots :: t.bots[b].accountId in t.accounts
         && t.bots[b].userId == t.accounts[t.bots[b].accountId].userId)
  }

  lemma LoginKeepsStaffed(t: Tables, cipher: Cipher, op: Operation)
    requires Sound(t) && Staffed(t) && op.Authorize? && Refusal(t, op).None?
    ensures Staffed(Effect(t, cipher, op))
  {
    UniqueRows(t, op.userId, op.phone);
    var t', a := Effect(t, cipher, op), AccountFor(t, op.userId, op.phone);
    assert t'.bots[BotFor(t, a)].accountId == a;
    assert a in t.accounts ==> t.accounts[a].userId == op.userId;
    SameAccountsStaffed(t, t');
  }

  /** Userbots keep their accounts. */
  lemma SameAccountsStaffed(t: Tables, t': Tables)
    requires Staffed(t) && t.bots.Keys <= t'.bots.Keys
    requires forall b | b in t.bots :: t'.bots[b].accountId == t.bots[b].accountId
    ensures forall x | x in t.accounts :: HasBot(t', x)
  {
    forall x | x in t.accounts ensures HasBot(t', x) {
      assert HasBot(t, x);
      var b :| b in t.bots && t.bots[b].accountId == x;
      assert b in t'.bots;
    }
  }

  lemma ApplyKeepsStaffed(t: Tables, cipher: Cipher, op: Operation)
    requires Sound(t) && Staffed(t)
    ensures Staffed(Apply(t, cipher, op))
  {
    if op.Authorize? && Refusal(t, op).None? {
      LoginKeepsStaffed(t, cipher, op);
    } else {
      SameAccountsStaffed(t, Apply(t, cipher, op));
    }
  }

  /** In every reachable state each account has exactly one userbot, which belongs to its user. */
  lemma {:induction false} EveryAccountHasItsUserbot(cipher: Cipher, ops: seq<Operation>)
    ensures Staffed(After(cipher, ops))
    ensures forall a | a in After(cipher, ops).accounts :: |BotIds(After(cipher, ops).bots, a)| == 1
  {
    if ops == [] {
    } else {
      EveryAccountHasItsUserbot(cipher, Init(ops));
      AlwaysSound(cipher, Init(ops));
      ApplyKeepsStaffed(After(cipher, Init(ops)), cipher, Last(ops));
    }
    AlwaysSound(cipher, ops);
    var t := After(cipher, ops);
    UniqueRows(t, 0, "");
    forall a | a in t.accounts ensures |BotIds(t.bots, a)| == 1 {
      assert HasBot(t, a);
      var b :| b in t.bots && t.bots[b].accountId == a;
      assert b in BotIds(t.bots, a);
    }
  }

  // ----- Logins and requests, case by case -----

  /** In every reachable state a login fails exactly when there is no session to store. */
  lemma LoginOutcome(t: Tables, userId: int, phone: string, session: string, deviceModel: Option<string>, nonce: int)
    requires Sound(t)
    ensures Refusal(t, Authorize(userId, phone, session, deviceModel, nonce))
         == if session == "" then Some(SessionError) else None
  {
    UniqueRows(t, userId, phone);
  }

  /** What one leaves: one more session row, active and with the device; the account of this user and
      phone, authorized; its userbot, AUTHORIZED; and every other row as it was. */
  lemma LoginLeaves(t: Tables, cipher: Cipher, op: Operation)
    requires Sound(t) && op.Authorize? && op.session != ""
    ensures var t' := Apply(t, cipher, op);
            && t'.sessions.Keys == t.sessions.Keys + {t.nextSession} && t.nextSession !in t.sessions
            && var row := t'.sessions[t.nextSession];
               && row.isActive && row.revokedAt == None && row.deviceModel == op.deviceModel
               && row.accountId in t'.accounts
               && t'.accounts[row.accountId] == Account(op.userId, op.phone, true, "authorized")
               && (exists b :: b in t'.bots && t'.bots[b].accountId == row.accountId
                            && t'.bots[b].status == Userbots.Authorized)
               && (forall a | a in t.accounts && a != row.accountId ::
                     a in t'.accounts && t'.accounts[a] == t.accounts[a])
               && (forall b | b in t.bots && t.bots[b].accountId != row.accountId ::
                     b in t'.bots && t'.bots[b] == t.bots[b])
               && (forall s | s in t.sessions :: t'.sessions[s] == t.sessions[s])
  {
    LoginOutcome(t, op.userId, op.phone, op.session, op.deviceModel, op.nonce);
    UniqueRows(t, op.userId, op.phone);
    var accountId := AccountFor(t, op.userId, op.phone);
    var botId, t' := BotFor(t, accountId), Apply(t, cipher, op);
    assert t'.bots[botId].accountId == accountId && t'.bots[botId].status == Userbots.Authorized;
  }

  /** What an operation says about the status of a userbot, if anything: AUTHORIZED after a login to its
      account, STARTING after a start request unless it is RUNNING, STOPPING after a stop request. */
  ghost function StatusWord(t: Tables, op: Operation, botId: int): Option<Userbots.Status>
    requires botId in t.bots
  {
    match op
    case Authorize(userId, phone, session, _, _) =>
      var accountId := t.bots[botId].accountId;
      if session != "" && accountId in t.accounts
         && t.accounts[accountId].userId == userId && t.accounts[accountId].phone == phone
      then Some(Userbots.Authorized) else None
    case Revoke(_, _) => None
    case RequestStart(b) => if b == botId && t.bots[b].status != Userbots.Running then Some(Userbots.Starting) else None
    case RequestStop(b) => if b == botId then Some(Userbots.Stopping) else None
    case OtherStatusWrites(statuses) => if botId in statuses then Some(statuses[botId]) else None
  }

  lemma StepFollowsWord(t: Tables, cipher: Cipher, op: Operation, botId: int)
    requires Sound(t) && botId in t.bots
    ensures botId in Apply(t, cipher, op).bots
    ensures Apply(t, cipher, op).bots[botId] == match StatusWord(t, op, botId)
                                                case None => t.bots[botId]
                                                case Some(status) => t.bots[botId].(status := status)
  {
    if op.Authorize? {
      LoginOutcome(t, op.userId, op.phone, op.session, op.deviceModel, op.nonce);
      UniqueRows(t, op.userId, op.phone);
      var accountId, own := AccountFor(t, op.userId, op.phone), t.bots[botId].accountId;
      assert own in AccountIds(t.accounts, op.userId, op.phone) ==> own == accountId by {
        if own != accountId {
          UniqueAccount(t, op.userId, op.phone, own);
        }
      }
      assert own == accountId ==> botId in BotIds(t.bots, accountId);
      assert own == accountId ==> botId == BotFor(t, accountId);
    }
  }

  /** The last word of a run about the status of a userbot, from a state in which it exists. */
  ghost function LastWord(cipher: Cipher, before: seq<Operation>, ops: seq<Operation>, botId: int)
    : Option<Userbots.Status>
    requires botId in After(cipher, before).bots
  {
    if ops == [] then None else
    var t := After(cipher, before + Init(ops));
    var word := if botId in t.bots then StatusWord(t, Last(ops), botId) else None;
    if word.Some? then word else LastWord(cipher, before, Init(ops), botId)
  }

  /** Over any run a userbot has the status that was last given to it, and keeps account and owner. */
  lemma {:induction false} StatusFollowsLastWord(cipher: Cipher, before: seq<Operation>, ops: seq<Operation>,
                                                 botId: int)
    requires botId in After(cipher, before).bots
    ensures var bot, t := After(cipher, before).bots[botId], After(cipher, before + ops);
            && botId in t.bots
            && t.bots[botId] == match LastWord(cipher, before, ops, botId)
                                case None => bot
                                case Some(status) => bot.(status := status)
  {
    if ops == [] {
      assert before + [] == before;
    } else {
      var t := After(cipher, before + Init(ops));
      StatusFollowsLastWord(cipher, before, Init(ops), botId);
      AlwaysSound(cipher, before + Init(ops));
      StepFollowsWord(t, cipher, Last(ops), botId);
      assert Init(before + ops) == before + Init(ops);
    }
  }

  /** A request or a revocation for a userbot that does not exist is not found, and any other goes through. */
  lemma RequestOutcome(t: Tables, op: Operation)
    requires op.Revoke? || op.RequestStart? || op.RequestStop?
    ensures Refusal(t, op) == if op.botId in t.bots then None else Some(NotFound)
  {
  }

  // ----- The session store as a user sees it -----

  /** What happened to the login of one user on one phone. */
  datatype Event = LoggedIn(userId: int, phone: string, session: string) | LoggedOut(userId: int, phone: string)

  ghost function EventsOf(t: Tables, op: Operation): seq<Event> {
    if Refusal(t, op).Some? then [] else
    match op
    case Authorize(userId, phone, session, _, _) => [LoggedIn(userId, phone, session)]
    case Revoke(botId, _) =>
      var accountId := t.bots[botId].accountId;
      if accountId in t.accounts then [LoggedOut(t.accounts[accountId].userId, t.accounts[accountId].phone)] else []
    case _ => []
  }

  ghost function History(cipher: Cipher, ops: seq<Operation>): seq<Event> {
    if ops == [] then [] else History(cipher, Init(ops)) + EventsOf(After(cipher, Init(ops)), Last(ops))
  }

  /** The session of the latest login that no logout follows. */
  ghost function CurrentLogin(history: seq<Event>, userId: int, phone: string): Option<string> {
    if history == [] then None else
    var event := Last(history);
    if event.userId != userId || event.phone != phone then CurrentLogin(Init(history), userId, phone)
    else match event
      case LoggedIn(_, _, session) => Some(session)
      case LoggedOut(_, _) => None
  }

  ghost predicate StoreShows(t: Tables, cipher: Cipher, history: seq<Event>, accountId: int)
    requires accountId in t.accounts
  {
    var account := t.accounts[accountId];
    GetActiveSession(t, cipher, accountId) ==
      match CurrentLogin(history, account.userId, account.phone)
      case Some(session) => Ok(session)
      case None => Err(SessionError)
  }

  /** Main result: after any run, the store gives for every account the session of its latest
      login not followed by a logout, exactly as it was handed in, and an error if there is none. */
  lemma {:induction false} SessionStoreRefinesHistory(cipher: Cipher, ops: seq<Operation>, accountId: int)
    requires Faithful(cipher) && accountId in After(cipher, ops).accounts
    ensures StoreShows(After(cipher, ops), cipher, History(cipher, ops), accountId)
  {
    if ops == [] {
    } else {
      var before, op, history := After(cipher, Init(ops)), Last(ops), History(cipher, Init(ops));
      AlwaysSound(cipher, Init(ops));
      if accountId in before.accounts {
        SessionStoreRefinesHistory(cipher, Init(ops), accountId);
      }
      if Refusal(before, op).None? {
        match op
        case Authorize(_, _, _, _, _) =>
          if accountId !in before.accounts {
            NewAccountHasNoHistory(cipher, Init(ops), op.userId, op.phone);
          }
          AuthorizeShows(before, cipher, op, history, accountId);
        case Revoke(_, _) => RevokeShows(before, cipher, op, history, accountId);
        case _ =>
          assert EventsOf(before, op) == [] && history + [] == history;
      } else {
        assert history + [] == history;
      }
    }
  }

  /** An operation creates an account at most for its own user and phone, and removes none. */
  lemma StepWithoutAccount(t: Tables, cipher: Cipher, op: Operation, userId: int, phone: string)
    requires Sound(t) && AccountIds(Apply(t, cipher, op).accounts, userId, phone) == {}
    ensures AccountIds(t.accounts, userId, phone) == {}
    ensures forall e | e in EventsOf(t, op) :: e.userId != userId || e.phone != phone
  {
    var after := Apply(t, cipher, op).accounts;
    if op.Authorize? && Refusal(t, op).None? {
      UniqueRows(t, op.userId, op.phone);
      assert AccountFor(t, op.userId, op.phone) !in AccountIds(after, userId, phone);
    }
    forall id | id in t.accounts ensures id !in AccountIds(t.accounts, userId, phone) {
      assert id !in AccountIds(after, userId, phone);
    }
    assert AccountIds(t.accounts, userId, phone) == {};
    if op.Revoke? && Refusal(t, op).None? {
      assert t.bots[op.botId].accountId !in AccountIds(t.accounts, userId, phone);
    }
  }

  lemma {:induction false} NewAccountHasNoHistory(cipher: Cipher, ops: seq<Operation>, userId: int, phone: string)
    requires AccountIds(After(cipher, ops).accounts, userId, phone) == {}
    ensures CurrentLogin(History(cipher, ops), userId, phone) == None
  {
    if ops == [] {
    } else {
      var before, op := After(cipher, Init(ops)), Last(ops);
      AlwaysSound(cipher, Init(ops));
      StepWithoutAccount(before, cipher, op, userId, phone);
      NewAccountHasNoHistory(cipher, Init(ops), userId, phone);
      OtherEvents(History(cipher, Init(ops)), EventsOf(before, op), userId, phone);
    }
  }

  lemma OtherEvents(history: seq<Event>, events: seq<Event>, userId: int, phone: string)
    requires |events| <= 1 && forall e | e in events :: e.userId != userId || e.phone != phone
    ensures CurrentLogin(history + events, userId, phone) == CurrentLogin(history, userId, phone)
  {
    if events == [] {
      assert history + [] == history;
    } else {
      InitOfAppend(history, events[0]);
      assert events == [events[0]] && events[0] in events;
    }
  }

  lemma AuthorizeShows(t: Tables, cipher: Cipher, op: Operation, history: seq<Event>, accountId: int)
    requires Sound(t) && Faithful(cipher) && op.Authorize? && Refusal(t, op).None?
    requires accountId in Effect(t, cipher, op).accounts
    requires accountId in t.accounts ==> StoreShows(t, cipher, history, accountId)
    ensures StoreShows(Effect(t, cipher, op), cipher, history + EventsOf(t, op), accountId)
  {
    var t', event := Effect(t, cipher, op), EventsOf(t, op)[0];
    UniqueRows(t, op.userId, op.phone);
    InitOfAppend(history, event);
    assert history + EventsOf(t, op) == history + [event];
    var latest := LatestUsable(t'.sessions, accountId, t'.nextSession);
    if accountId == AccountFor(t, op.userId, op.phone) {
      assert t.nextSession in t'.sessions && Usable(t'.sessions[t.nextSession], accountId);
      assert latest == Some(t.nextSession);
    } else {
      assert accountId !in AccountIds(t.accounts, op.userId, op.phone) by {
        UniqueAccount(t, op.userId, op.phone, accountId);
      }
      SameLatest(t.sessions, t.nextSession, t'.sessions, t'.nextSession, accountId);
    }
  }

  lemma UniqueAccount(t: Tables, userId: int, phone: string, accountId: int)
    requires Sound(t) && accountId != AccountFor(t, userId, phone)
    ensures accountId !in AccountIds(t.accounts, userId, phone)
  {
  }

  lemma RevokeShows(t: Tables, cipher: Cipher, op: Operation, history: seq<Event>, accountId: int)
    requires Sound(t) && op.Revoke? && Refusal(t, op).None?
    requires accountId in t.accounts && StoreShows(t, cipher, history, accountId)
    ensures StoreShows(Effect(t, cipher, op), cipher, history + EventsOf(t, op), accountId)
  {
    var t', event := Effect(t, cipher, op), EventsOf(t, op)[0];
    InitOfAppend(history, event);
    assert history + EventsOf(t, op) == history + [event];
    if accountId == t.bots[op.botId].accountId {
      forall id | id in t'.sessions ensures !Usable(t'.sessions[id], accountId) {
        assert id in ActiveSessionIds(t.sessions, accountId) || !Usable(t.sessions[id], accountId);
      }
    } else {
      SameLatest(t.sessions, t.nextSession, t'.sessions, t'.nextSession, accountId);
    }
  }

  /** The latest usable session depends only on the usable rows of the account. */
  lemma SameLatest(a: map<int, SessionRow>, boundA: nat, b: map<int, SessionRow>, boundB: nat, accountId: int)
    requires boundA <= boundB
    requires forall id | id in a :: 0 < id < boundA && id in b
    requires forall id | id in a && (Usable(a[id], accountId) || Usable(b[id], accountId)) :: a[id] == b[id]
    requires forall id | id in b && id !in a :: !Usable(b[id], accountId)
    ensures LatestUsable(a, accountId, boundA) == LatestUsable(b, accountId, boundB)
    ensures var latest := LatestUsable(a, accountId, boundA);
            latest.Some? ==> b[latest.value] == a[latest.value]
  {
    var la, lb := LatestUsable(a, accountId, boundA), LatestUsable(b, accountId, boundB);
    if la.Some? {
      assert Usable(b[la.value], accountId);
    }
    if lb.Some? {
      assert lb.value in a && Usable(a[lb.value], accountId);
    }
  }
}
