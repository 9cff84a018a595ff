/** The Postgres tables of the banking back end, and the transfer rules read as a
    sequential program: what one transfer does when nothing else is running.  The
    concurrent machine (`Transfers`) and the consumer class (`Consumer`) are both
    proved against the definitions of this module. */
module Bank {
  import opened Collections
  import opened Text

  type UserId = nat

  const INITIAL_BALANCE: int := 100000
  const MAX_INTEGER: int := 0x7fff_ffff  // largest value of a Postgres Integer column

  datatype User = User(phone: string, accountNumber: string, username: string, passwordHash: string, balance: int)

  datatype Transfer = Transfer(fromUser: UserId, toUser: UserId, amount: int)

  datatype Notification = Notification(userId: UserId, message: string)

  /** The committed rows. Transfers and notifications are listed in commit order. */
  datatype Db = Db(users: map<UserId, User>, transfers: seq<Transfer>, notifications: seq<Notification>)

  const EMPTY_DB: Db := Db(map[], [], [])

  datatype Body =
    | Detail(detail: string)
    | Healthy
    | TransferOk(sender: string, receiver: string, toAccountNumber: string, amount: int)

  datatype Response = Response(status: int, body: Body)

  /** The transfer payload; a missing or null text field reads as "". */
  datatype Request = Request(amount: int, toAccountNumber: string, toUsername: string)

  datatype Exception = MultipleRows | OutOfRange | NoSession | RedisDown | DatabaseDown

  /** A handler either returns a reply or raises. */
  datatype Outcome = Replied(response: Response) | Raised(exception: Exception)

  function Refuse(status: int, detail: string): Response {
    Response(status, Detail(detail))
  }

  const HEALTHY := Response(200, Healthy)

  const SESSION_TTL: nat := 86400

  /** A Redis write works, or it raises and may have taken effect. */
  datatype Fault = Works | Fails(written: bool)

  predicate Writes(f: Fault) { f.Works? || f.written }

  /** bcrypt's check, kept abstract. */
  type Verifier = (string, string) -> bool

  const SENDER_NOT_FOUND := Refuse(404, "Sender not found")
  const RECEIVER_NOT_FOUND := Refuse(404, "Receiver not found")
  const SELF_TRANSFER := Refuse(400, "Cannot transfer to yourself")
  const INSUFFICIENT_BALANCE := Refuse(400, "Insufficient balance")

  function ToAccount(req: Request): string { Strip(req.toAccountNumber) }

  function ToName(req: Request): string { Strip(req.toUsername) }

  /** The checks made before the database is opened. */
  function Refusal(req: Request): Option<Response> {
    if req.amount <= 0 then
      Some(Refuse(400, "Amount must be > 0"))
    else if ToAccount(req) == "" && ToName(req) == "" then
      Some(Refuse(400, "Missing to_account_number/to_username"))
    else if ToAccount(req) != "" && !IsDigits(ToAccount(req)) then
      Some(Refuse(400, "to_account_number must be digits only"))
    else
      None
  }

  /** Whether the receiver statement selects row `u`: by account number if one is given, else by name. */
  predicate Matches(req: Request, u: User) {
    if ToAccount(req) != "" then u.accountNumber == ToAccount(req) else u.username == ToName(req)
  }

  function Candidates(users: map<UserId, User>, req: Request): set<UserId> {
    set id | id in users && Matches(req, users[id])
  }

  function SentText(amount: int, receiver: User): string {
    "Bạn đã chuyển " + Decimal(amount) + " đến " + receiver.username
  }

  function ReceivedText(amount: int, sender: User): string {
    "Bạn nhận " + Decimal(amount) + " từ " + sender.username
  }

  predicate KnownParties(users: map<UserId, User>, t: Transfer) {
    t.fromUser in users && t.toUser in users
  }

  function SentNote(users: map<UserId, User>, t: Transfer): Notification
    requires KnownParties(users, t)
  {
    Notification(t.fromUser, SentText(t.amount, users[t.toUser]))
  }

  function ReceivedNote(users: map<UserId, User>, t: Transfer): Notification
    requires KnownParties(users, t)
  {
    Notification(t.toUser, ReceivedText(t.amount, users[t.fromUser]))
  }

  /** Add `delta` to one balance. */
  function Credit(users: map<UserId, User>, id: UserId, delta: int): map<UserId, User>
    requires id in users
  {
    users[id := users[id].(balance := users[id].balance + delta)]
  }

  /** The meaning of one committed transfer. */
  function Settle(db: Db, t: Transfer): Db
    requires KnownParties(db.users, t)
  {
    Db(Credit(Credit(db.users, t.fromUser, -t.amount), t.toUser, t.amount),
       db.transfers + [t],
       db.notifications + [SentNote(db.users, t), ReceivedNote(db.users, t)])
  }

  function Insert(db: Db, id: UserId, u: User): Db {
    db.(users := db.users[id := u])
  }

  function DoneReply(sender: User, receiver: User, amount: int): Response {
    Response(200, TransferOk(sender.username, receiver.username, receiver.accountNumber, amount))
  }

  /** What the handler does once it has both rows. */
  function Decision(user: UserId, sender: User, receiverId: UserId, receiver: User, amount: int): Outcome {
    if receiverId == user then Replied(SELF_TRANSFER)
    else if sender.balance < amount then Replied(INSUFFICIENT_BALANCE)
    else if receiver.balance + amount > MAX_INTEGER then Raised(OutOfRange)
    else Replied(DoneReply(sender, receiver, amount))
  }

  predicate IsDone(o: Outcome) { o.Replied? && o.response.status == 200 }

  /** The transfer rules as a sequential program: the tables afterwards, and how the handler ended. */
  ghost function TransferAlone(db: Db, user: UserId, req: Request): (Db, Outcome) {
    var c := Candidates(db.users, req);
    if Refusal(req).Some? then (db, Replied(Refusal(req).value))
    else if user !in db.users then (db, Replied(SENDER_NOT_FOUND))
    else if c == {} then (db, Replied(RECEIVER_NOT_FOUND))
    else if c != {PickOne(c)} then (db, Raised(MultipleRows))
    else
      var outcome := Decision(user, db.users[user], PickOne(c), db.users[PickOne(c)], req.amount);
      (if IsDone(outcome) then Settle(db, Transfer(user, PickOne(c), req.amount)) else db, outcome)
  }

  lemma TransferAloneWithOne(db: Db, user: UserId, req: Request, receiver: UserId)
    requires Refusal(req).None? && user in db.users && receiver in Candidates(db.users, req)
    ensures var outcome := Decision(user, db.users[user], receiver, db.users[receiver], req.amount);
            TransferAlone(db, user, req) ==
              if |Candidates(db.users, req)| != 1 then (db, Raised(MultipleRows))
              else (if IsDone(outcome) then Settle(db, Transfer(user, receiver, req.amount)) else db, outcome)
  {
    var c := Candidates(db.users, req);
    OnlyElement(c, receiver);
    OnlyElement(c, PickOne(c));
  }

  // ----- sums of balances

  ghost function Balances(users: map<UserId, User>): map<UserId, int> {
    map id | id in users :: users[id].balance
  }

  ghost function TotalBalance(users: map<UserId, User>): int {
    Sum(Balances(users))
  }

  lemma TotalAfterUpdate(users: map<UserId, User>, id: UserId, u: User)
    ensures TotalBalance(users[id := u]) ==
            TotalBalance(users) + u.balance - (if id in users then users[id].balance else 0)
  {
    SumAfterUpdate(Balances(users), id, u.balance);
    assert Balances(users[id := u]) == Balances(users)[id := u.balance];
  }

  // ----- the ledger

  function Received(ts: seq<Transfer>, id: UserId): int {
    if ts == [] then 0
    else
      var last := ts[|ts| - 1];
      Received(ts[..|ts| - 1], id) + if last.toUser == id then last.amount else 0
  }

  function Sent(ts: seq<Transfer>, id: UserId): int {
    if ts == [] then 0
    else
      var last := ts[|ts| - 1];
      Sent(ts[..|ts| - 1], id) + if last.fromUser == id then last.amount else 0
  }

  ghost predicate WellFormedRow(users: map<UserId, User>, t: Transfer) {
    KnownParties(users, t) && t.fromUser != t.toUser && t.amount >= 1
  }

  /** Every balance is the opening balance plus what the ledger says, and none is negative. */
  ghost predicate LedgerExplains(db: Db) {
    forall id :: id in db.users ==>
      && db.users[id].balance == INITIAL_BALANCE + Received(db.transfers, id) - Sent(db.transfers, id)
      && 0 <= db.users[id].balance
  }

  /** The notification table holds, for each transfer, the sender's text and then the receiver's. */
  ghost predicate NotesMatch(db: Db) {
    && |db.notifications| == 2 * |db.transfers|
    && forall i :: 0 <= i < |db.transfers| && KnownParties(db.users, db.transfers[i]) ==>
         && db.notifications[2 * i] == SentNote(db.users, db.transfers[i])
         && db.notifications[2 * i + 1] == ReceivedNote(db.users, db.transfers[i])
  }

  ghost predicate UniqueColumns(users: map<UserId, User>) {
    forall a, b :: a in users && b in users && a != b ==>
      users[a].phone != users[b].phone && users[a].accountNumber != users[b].accountNumber
  }

  ghost predicate RowsWellFormed(db: Db) {
    forall i :: 0 <= i < |db.transfers| ==> WellFormedRow(db.users, db.transfers[i])
  }

  ghost predicate BooksBalance(db: Db) {
    && UniqueColumns(db.users)
    && LedgerExplains(db)
    && RowsWellFormed(db)
    && NotesMatch(db)
    && TotalBalance(db.users) == INITIAL_BALANCE * |db.users|
  }

  /** A row that may be inserted: fresh id, unique phone and account number, opening balance. */
  ghost predicate Insertable(db: Db, id: UserId, u: User) {
    && id !in db.users
    && u.balance == INITIAL_BALANCE
    && forall other :: other in db.users ==>
         db.users[other].phone != u.phone && db.users[other].accountNumber != u.accountNumber
  }

  ghost predicate Fundable(db: Db, t: Transfer) {
    WellFormedRow(db.users, t) && t.amount <= db.users[t.fromUser].balance
  }

  lemma {:induction false} StrangersUnmentioned(ts: seq<Transfer>, users: map<UserId, User>, id: UserId)
    requires id !in users
    requires forall i :: 0 <= i < |ts| ==> KnownParties(users, ts[i])
    ensures Received(ts, id) == 0 && Sent(ts, id) == 0
  {
    if ts != [] {
      StrangersUnmentioned(ts[..|ts| - 1], users, id);
      assert KnownParties(users, ts[|ts| - 1]);
    }
  }

  lemma InsertKeepsBooks(db: Db, id: UserId, u: User)
    requires BooksBalance(db) && Insertable(db, id, u)
    ensures BooksBalance(Insert(db, id, u))
  {
    InsertKeepsTotal(db, id, u);
    InsertKeepsUnique(db, id, u);
    InsertKeepsLedger(db, id, u);
    InsertKeepsNotes(db, id, u);
  }

  lemma InsertKeepsTotal(db: Db, id: UserId, u: User)
    requires id !in db.users
    ensures TotalBalance(Insert(db, id, u).users) == TotalBalance(db.users) + u.balance
    ensures |Insert(db, id, u).users| == |db.users| + 1
  {
    TotalAfterUpdate(db.users, id, u);
    assert db.users[id := u].Keys == db.users.Keys + {id};
  }

  lemma InsertKeepsUnique(db: Db, id: UserId, u: User)
    requires UniqueColumns(db.users) && Insertable(db, id, u)
    ensures UniqueColumns(Insert(db, id, u).users)
  {
  }

  lemma InsertKeepsLedger(db: Db, id: UserId, u: User)
    requires LedgerExplains(db) && RowsWellFormed(db) && Insertable(db, id, u)
    ensures LedgerExplains(Insert(db, id, u)) && RowsWellFormed(Insert(db, id, u))
  {
    var after := Insert(db, id, u);
    forall i | 0 <= i < |db.transfers|
      ensures WellFormedRow(db.users, db.transfers[i]) && WellFormedRow(after.users, db.transfers[i])
    {
      assert WellFormedRow(db.users, db.transfers[i]);
    }
    StrangersUnmentioned(db.transfers, db.users, id);
  }

  lemma InsertKeepsNotes(db: Db, id: UserId, u: User)
    requires RowsWellFormed(db) && NotesMatch(db) && id !in db.users
    ensures NotesMatch(Insert(db, id, u))
  {
  }

  /** The five parts of the ledger survive a settlement one by one. */
  lemma SettleKeepsBooks(db: Db, t: Transfer)
    requires BooksBalance(db) && Fundable(db, t)
    ensures BooksBalance(Settle(db, t))
  {
    SettleKeepsTotal(db, t);
    SettleKeepsRows(db, t);
    SettleKeepsLedger(db, t);
    SettleKeepsNotes(db, t);
    SettleKeepsUnique(db, t);
  }

  lemma SettleKeepsUnique(db: Db, t: Transfer)
    requires UniqueColumns(db.users) && KnownParties(db.users, t)
    ensures UniqueColumns(Settle(db, t).users)
  {
  }

  lemma SettleKeepsTotal(db: Db, t: Transfer)
    requires KnownParties(db.users, t)
    ensures TotalBalance(Settle(db, t).users) == TotalBalance(db.users)
    ensures |Settle(db, t).users| == |db.users|
  {
    var debited := Credit(db.users, t.fromUser, -t.amount);
    var after := Settle(db, t).users;
    TotalAfterUpdate(db.users, t.fromUser, debited[t.fromUser]);
    TotalAfterUpdate(debited, t.toUser, after[t.toUser]);
    assert after.Keys == db.users.Keys;
    assert |after| == |after.Keys|;
  }

  lemma SettleKeepsRows(db: Db, t: Transfer)
    requires RowsWellFormed(db) && WellFormedRow(db.users, t)
    ensures RowsWellFormed(Settle(db, t))
  {
  }

  lemma SettleKeepsLedger(db: Db, t: Transfer)
    requires LedgerExplains(db) && Fundable(db, t)
    ensures LedgerExplains(Settle(db, t))
  {
  }

  lemma SettleKeepsNotes(db: Db, t: Transfer)
    requires RowsWellFormed(db) && NotesMatch(db) && WellFormedRow(db.users, t)
    ensures NotesMatch(Settle(db, t))
  {
  }
}
