/**
 * POST /api/queue/join (src/app/api/queue/join/route.ts): the guards, in
 * the handler's order, then the wallet hold and its ENTRY_HOLD record (one
 * database transaction), then the push onto the matchmaking pool for the
 * stake. The session's user id, the request body and Date.now() are
 * parameters; a body that is not JSON is `None`.
 */
module QueueJoin {
  import opened Wrappers
  import opened Decimal
  import opened Validations
  import opened Redis

  datatype Wallet = Wallet(id: string, balance: int, locked: int)

  datatype User = User(id: string, banned: bool)

  datatype MatchStatus = Waiting | Active | Completed | Cancelled

  datatype MatchRecord = MatchRecord(status: MatchStatus, participants: seq<string>)

  datatype TransactionType = EntryHold

  datatype TransactionStatus = TransactionSuccess

  datatype WalletTransaction = WalletTransaction(
    userId: string, walletId: string, kind: TransactionType, amount: int,
    status: TransactionStatus, reference: string)

  /** Why the handler turns a request away. */
  datatype Rejection =
    | Unauthorized
    | MalformedBody
    | InvalidRequest(issues: seq<Issue>)
    | UserNotFoundOrBanned
    | InsufficientBalance
    | AlreadyInActiveMatch

  function StatusCode(r: Rejection): int {
    match r
    case Unauthorized => 401
    case UserNotFoundOrBanned => 403
    case _ => 400
  }

  /** The fixed error texts; the two parse failures carry the library's own message. */
  function FixedMessage(r: Rejection): Option<string> {
    match r
    case Unauthorized => Some("Unauthorized")
    case UserNotFoundOrBanned => Some("User not found or banned")
    case InsufficientBalance => Some("Insufficient balance")
    case AlreadyInActiveMatch => Some("Already in an active match")
    case _ => None
  }

  datatype Response =
    | Rejected(status: int, reason: Rejection)
    | Joined(entryAmount: int, leverage: int, message: string)

  /** What the guards let through: who joins, with which stake. */
  datatype Admitted = Admitted(userId: string, input: JoinQueueInput, finalEntry: int)

  /** `finalEntry`: what the player stakes, the base entry times the leverage. */
  function Stake(input: JoinQueueInput): int {
    input.baseEntry * input.leverage
  }

  predicate InActiveMatch(matches: seq<MatchRecord>, userId: string) {
    exists i | 0 <= i < |matches| ::
      (matches[i].status == Waiting || matches[i].status == Active) && userId in matches[i].participants
  }

  /** `session?.user?.id` is truthy: there is a session and its user id is not the empty string. */
  predicate SignedIn(session: Option<string>) {
    session.Some? && session.value != ""
  }

  /**
   * The guards in the handler's order: a session with a user id, a body that parses, a
   * user that exists and is not banned, a wallet holding at least the
   * stake, and no WAITING or ACTIVE match with that user in it.
   */
  function Admission(fmt: Formats, session: Option<string>, body: Option<Value>,
                     users: map<string, User>, wallets: map<string, Wallet>,
                     matches: seq<MatchRecord>): (r: Result<Admitted, Rejection>)
    ensures !SignedIn(session) ==> r == Failure(Unauthorized)
    ensures SignedIn(session) && body.None? ==> r == Failure(MalformedBody)
    ensures SignedIn(session) && body.Some? && ParseJoinQueue(fmt, body.value).Failure? ==>
      r == Failure(InvalidRequest(ParseJoinQueue(fmt, body.value).error))
    ensures r.Success? <==>
      && SignedIn(session) && body.Some? && ParseJoinQueue(fmt, body.value).Success?
      && session.value in users && !users[session.value].banned
      && session.value in wallets
      && wallets[session.value].balance >= Stake(ParseJoinQueue(fmt, body.value).value)
      && !InActiveMatch(matches, session.value)
    ensures r.Success? ==>
      && r.value.userId == session.value
      && r.value.input == ParseJoinQueue(fmt, body.value).value
      && r.value.finalEntry == Stake(r.value.input) == r.value.input.baseEntry * r.value.input.leverage
      && 10 <= r.value.finalEntry <= 5000
      && wallets[r.value.userId].balance - r.value.finalEntry >= 0
    ensures r == Failure(UserNotFoundOrBanned) <==>
      && SignedIn(session) && body.Some? && ParseJoinQueue(fmt, body.value).Success?
      && (session.value !in users || users[session.value].banned)
    ensures r == Failure(InsufficientBalance) <==>
      && SignedIn(session) && body.Some? && ParseJoinQueue(fmt, body.value).Success?
      && session.value in users && !users[session.value].banned
      && (session.value !in wallets || wallets[session.value].balance < Stake(ParseJoinQueue(fmt, body.value).value))
    ensures r == Failure(AlreadyInActiveMatch) <==>
      && SignedIn(session) && body.Some? && ParseJoinQueue(fmt, body.value).Success?
      && session.value in users && !users[session.value].banned
      && session.value in wallets
      && wallets[session.value].balance >= Stake(ParseJoinQueue(fmt, body.value).value)
      && InActiveMatch(matches, session.value)
  {
    if !SignedIn(session) then Failure(Unauthorized)
    else if body.None? then Failure(MalformedBody)
    else
      var parsed := ParseJoinQueue(fmt, body.value);
      if parsed.Failure? then Failure(InvalidRequest(parsed.error))
      else
        var input := parsed.value;
        var finalEntry := Stake(input);
        FinalEntryBounds(input);
        var uid := session.value;
        if uid !in users || users[uid].banned then Failure(UserNotFoundOrBanned)
        else if uid !in wallets || wallets[uid].balance < finalEntry then Failure(InsufficientBalance)
        else if InActiveMatch(matches, uid) then Failure(AlreadyInActiveMatch)
        else Success(Admitted(uid, input, finalEntry))
  }

  /** The hold: the stake moves from the spendable balance to the locked amount. */
  function Hold(w: Wallet, amount: int): (h: Wallet)
    ensures h.id == w.id
    ensures h.balance + h.locked == w.balance + w.locked
    ensures h.locked - w.locked == amount
  {
    Wallet(w.id, w.balance - amount, w.locked + amount)
  }

  /** `Queue entry hold - ${baseEntry} x ${leverage}` */
  function HoldReference(input: JoinQueueInput): string {
    "Queue entry hold - " + IntToString(input.baseEntry) + " x " + IntToString(input.leverage)
  }

  function HoldRecord(a: Admitted, walletId: string): (t: WalletTransaction)
    ensures t.kind == EntryHold && t.status == TransactionSuccess
    ensures t.userId == a.userId && t.walletId == walletId && t.amount == -a.finalEntry
  {
    WalletTransaction(a.userId, walletId, EntryHold, -a.finalEntry, TransactionSuccess, HoldReference(a.input))
  }

  /** The sum of balance and locked amount over a set of users' wallets. */
  ghost function Funds(wallets: map<string, Wallet>, ids: set<string>): int
    requires ids <= wallets.Keys
    decreases ids
  {
    if ids == {} then 0
    else
      var k :| k in ids;
      wallets[k].balance + wallets[k].locked + Funds(wallets, ids - {k})
  }

  /** Funds are a sum over users: computing with any one user first gives the same total. */
  lemma {:induction false} FundsSplit(wallets: map<string, Wallet>, ids: set<string>, k: string)
    requires ids <= wallets.Keys && k in ids
    ensures Funds(wallets, ids) == wallets[k].balance + wallets[k].locked + Funds(wallets, ids - {k})
    decreases ids
  {
    var j :| j in ids && Funds(wallets, ids) == wallets[j].balance + wallets[j].locked + Funds(wallets, ids - {j});
    if j != k {
      FundsSplit(wallets, ids - {j}, k);
      FundsSplit(wallets, ids - {k}, j);
      assert ids - {j} - {k} == ids - {k} - {j};
    }
  }

  /** Funds depend only on balance plus locked, user by user. */
  lemma {:induction false} FundsCongruent(a: map<string, Wallet>, b: map<string, Wallet>, ids: set<string>)
    requires ids <= a.Keys && ids <= b.Keys
    requires forall k | k in ids :: a[k].balance + a[k].locked == b[k].balance + b[k].locked
    ensures Funds(a, ids) == Funds(b, ids)
    decreases ids
  {
    if ids != {} {
      var k :| k in ids && Funds(a, ids) == a[k].balance + a[k].locked + Funds(a, ids - {k});
      FundsSplit(b, ids, k);
      FundsCongruent(a, b, ids - {k});
    }
  }

  /** A hold on one user's wallet keeps the total funds of all wallets. */
  lemma HoldConservesFunds(wallets: map<string, Wallet>, uid: string, amount: int)
    requires uid in wallets
    ensures Funds(wallets[uid := Hold(wallets[uid], amount)], wallets.Keys) == Funds(wallets, wallets.Keys)
  {
    var after := wallets[uid := Hold(wallets[uid], amount)];
    assert after.Keys == wallets.Keys;
    FundsCongruent(after, wallets, wallets.Keys);
  }

  /** The database the handler reads and writes, and the matchmaking pools. */
  class Store {
    var users: map<string, User>
    /** Wallets by owner (a user has at most one). */
    var wallets: map<string, Wallet>
    var matches: seq<MatchRecord>
    /** Append-only. */
    var transactions: seq<WalletTransaction>
    const queue: MatchmakingQueue

    ghost predicate Valid()
      reads this, queue
    {
      queue.Valid()
    }

    constructor(users: map<string, User>, wallets: map<string, Wallet>, matches: seq<MatchRecord>)
      ensures Valid() && fresh(queue)
      ensures this.users == users && this.wallets == wallets && this.matches == matches
      ensures transactions == [] && queue.lists == map[]
    {
      this.users := users;
      this.wallets := wallets;
      this.matches := matches;
      transactions := [];
      queue := new MatchmakingQueue();
    }

    /**
     * The handler. A rejection changes nothing. An admitted request holds
     * the stake on that user's wallet alone, appends one ENTRY_HOLD record,
     * and only then pushes the user, with its leverage, onto the pool for
     * the stake; no other pool changes.
     */
    method Post(fmt: Formats, session: Option<string>, body: Option<Value>, now: int) returns (resp: Response)
      requires Valid()
      modifies this, queue
      ensures Valid()
      ensures users == old(users) && matches == old(matches)
      ensures var a := Admission(fmt, session, body, old(users), old(wallets), old(matches));
        && (a.Failure? ==>
              && resp == Rejected(StatusCode(a.error), a.error)
              && wallets == old(wallets) && transactions == old(transactions)
              && queue.lists == old(queue.lists))
        && (a.Success? ==>
              var uid := a.value.userId;
              var f := a.value.finalEntry;
              && resp == Joined(f, a.value.input.leverage, "Successfully joined queue")
              && wallets == old(wallets)[uid := Hold(old(wallets)[uid], f)]
              && transactions == old(transactions) + [HoldRecord(a.value, old(wallets)[uid].id)]
              && queue.Pool(QueueKey(f)) == [QueueEntry(uid, f, a.value.input.leverage, now)] + old(queue.Pool(QueueKey(f)))
              && forall k | k != QueueKey(f) :: queue.Pool(k) == old(queue.Pool(k)))
    {
      var a := Admission(fmt, session, body, users, wallets, matches);
      if a.Failure? {
        return Rejected(StatusCode(a.error), a.error);
      }
      var uid := a.value.userId;
      var finalEntry := a.value.finalEntry;
      var wallet := wallets[uid];
      // The database transaction: the hold and its record.
      wallets := wallets[uid := Hold(wallet, finalEntry)];
      transactions := transactions + [HoldRecord(a.value, wallet.id)];
      queue.JoinQueue(finalEntry, uid, a.value.input.leverage, now);
      return Joined(finalEntry, a.value.input.leverage, "Successfully joined queue");
    }
  }

  /** An admitted join never drives the joiner's balance below zero, and keeps every wallet's funds. */
  lemma AdmittedJoinKeepsWallets(fmt: Formats, session: Option<string>, body: Option<Value>,
                                 users: map<string, User>, wallets: map<string, Wallet>, matches: seq<MatchRecord>)
    requires Admission(fmt, session, body, users, wallets, matches).Success?
    ensures var a := Admission(fmt, session, body, users, wallets, matches).value;
      var after := wallets[a.userId := Hold(wallets[a.userId], a.finalEntry)];
      && after[a.userId].balance >= 0
      && after[a.userId].balance + after[a.userId].locked == wallets[a.userId].balance + wallets[a.userId].locked
      && (forall k | k in wallets && k != a.userId :: after[k] == wallets[k])
      && Funds(after, after.Keys) == Funds(wallets, wallets.Keys)
  {
    var a := Admission(fmt, session, body, users, wallets, matches).value;
    HoldConservesFunds(wallets, a.userId, a.finalEntry);
    assert wallets[a.userId := Hold(wallets[a.userId], a.finalEntry)].Keys == wallets.Keys;
  }
}
