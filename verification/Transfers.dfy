/** Concurrent transfers under row locks.

    Any number of handlers run at once; each takes its row locks one row at a time
    with SELECT ... FOR UPDATE and keeps them until it ends.  A step is one such
    database interaction.  A lock is not stored apart: a transaction holds exactly the
    rows of which it keeps a copy (`held`). */
module Transfers {
  import opened Collections
  import opened Bank
  import opened Runs

  type TxId = nat

  datatype Phase =
    | Fresh                                              // no row locked yet
    | SenderHeld                                         // the sender row is locked and read
    | Scanning(todo: seq<UserId>, found: seq<UserId>)    // the receiver statement is under way
    | Chosen(receiver: UserId)                           // the receiver statement gave exactly one row

  datatype Txn = Txn(user: UserId, req: Request, held: map<UserId, User>, phase: Phase)

  /** What took effect, in order: registrations, and the end of each transfer handler. */
  datatype Entry =
    | Registered(id: UserId, account: User)
    | Committed(tx: TxId, user: UserId, req: Request, outcome: Outcome, row: Transfer)
    | Refused(tx: TxId, user: UserId, req: Request, outcome: Outcome)

  /** `log`, `at` (a transaction's place in the log) and `begun` are history: no step is guarded by the log. */
  datatype State = State(db: Db, live: map<TxId, Txn>, log: seq<Entry>, at: map<TxId, nat>, begun: set<TxId>)

  const INITIAL: State := State(EMPTY_DB, map[], [], map[], {})

  datatype Step =
    | Register(id: UserId, row: User)
    | Begin(tx: TxId, user: UserId, req: Request)
    | LockSender(tx: TxId)
    | MissSender(tx: TxId)
    | StartScan(tx: TxId, order: seq<UserId>)  // the statement's snapshot, in the order it visits the rows
    | LockNext(tx: TxId)
    | EndScan(tx: TxId)
    | Decide(tx: TxId)
    | Abort(tx: TxId)                          // deadlock victim, lost connection or dead process

  ghost predicate Free(s: State, tx: TxId, id: UserId) {
    forall other :: other in s.live && other != tx ==> id !in s.live[other].held
  }

  ghost predicate Enabled(s: State, step: Step) {
    match step
    case Register(id, row) => Insertable(s.db, id, row)
    case Begin(tx, _, req) => tx !in s.begun && Refusal(req).None?
    case LockSender(tx) =>
      tx in s.live && s.live[tx].phase.Fresh? && s.live[tx].user in s.db.users && Free(s, tx, s.live[tx].user)
    case MissSender(tx) =>
      tx in s.live && s.live[tx].phase.Fresh? && s.live[tx].user !in s.db.users
    case StartScan(tx, order) =>
      && tx in s.live && s.live[tx].phase.SenderHeld?
      && Distinct(order) && Elements(order) == Candidates(s.db.users, s.live[tx].req)
    case LockNext(tx) =>
      && tx in s.live && s.live[tx].phase.Scanning? && s.live[tx].phase.todo != []
      && s.live[tx].phase.todo[0] in s.db.users && Free(s, tx, s.live[tx].phase.todo[0])
    case EndScan(tx) =>
      tx in s.live && s.live[tx].phase.Scanning? && s.live[tx].phase.todo == []
    case Decide(tx) =>
      && tx in s.live && s.live[tx].phase.Chosen?
      && {s.live[tx].user, s.live[tx].phase.receiver} <= s.live[tx].held.Keys * s.db.users.Keys
    case Abort(tx) => tx in s.live
  }

  function Continue(s: State, tx: TxId, t: Txn): State {
    s.(live := s.live[tx := t])
  }

  /** The transaction ends: its locks go, and the entry is logged. */
  function Finish(s: State, tx: TxId, db: Db, e: Entry): State {
    s.(db := db, live := s.live - {tx}, log := s.log + [e], at := s.at[tx := |s.log|])
  }

  function EndWithout(s: State, tx: TxId, outcome: Outcome): State
    requires tx in s.live
  {
    Finish(s, tx, s.db, Refused(tx, s.live[tx].user, s.live[tx].req, outcome))
  }

  /** UPDATE users SET balance = ... WHERE id = ... */
  function WriteBalance(users: map<UserId, User>, id: UserId, balance: int): map<UserId, User>
    requires id in users
  {
    users[id := users[id].(balance := balance)]
  }

  /** The four writes of a commit, computed from the handler's own copies of the two rows. */
  function WriteTransfer(db: Db, user: UserId, sender: User, receiverId: UserId, receiver: User, amount: int): Db
    requires user in db.users && receiverId in db.users
  {
    Db(WriteBalance(WriteBalance(db.users, user, sender.balance - amount), receiverId, receiver.balance + amount),
       db.transfers + [Transfer(user, receiverId, amount)],
       db.notifications + [Notification(user, SentText(amount, receiver)),
                           Notification(receiverId, ReceivedText(amount, sender))])
  }

  ghost function Apply(s: State, step: Step): State
    requires Enabled(s, step)
  {
    match step
    case Register(id, row) =>
      s.(db := Insert(s.db, id, row), log := s.log + [Registered(id, row)])
    case Begin(tx, user, req) =>
      s.(live := s.live[tx := Txn(user, req, map[], Fresh)], begun := s.begun + {tx})
    case LockSender(tx) =>
      var t := s.live[tx];
      Continue(s, tx, t.(held := t.held[t.user := s.db.users[t.user]], phase := SenderHeld))
    case MissSender(tx) =>
      EndWithout(s, tx, Replied(SENDER_NOT_FOUND))
    case StartScan(tx, order) =>
      if order == [] then EndWithout(s, tx, Replied(RECEIVER_NOT_FOUND))
      else Continue(s, tx, s.live[tx].(phase := Scanning(order, [])))
    case LockNext(tx) =>
      var t := s.live[tx];
      var id := t.phase.todo[0];
      Continue(s, tx, t.(held := t.held[id := s.db.users[id]],
                         phase := Scanning(t.phase.todo[1..], t.phase.found + [id])))
    case EndScan(tx) =>
      var t := s.live[tx];
      if |t.phase.found| == 1 then Continue(s, tx, t.(phase := Chosen(t.phase.found[0])))
      else EndWithout(s, tx, Raised(MultipleRows))
    case Decide(tx) =>
      var t := s.live[tx];
      var sender, receiver := t.held[t.user], t.held[t.phase.receiver];
      var outcome := Decision(t.user, sender, t.phase.receiver, receiver, t.req.amount);
      if IsDone(outcome) then
        Finish(s, tx,
               WriteTransfer(s.db, t.user, sender, t.phase.receiver, receiver, t.req.amount),
               Committed(tx, t.user, t.req, outcome, Transfer(t.user, t.phase.receiver, t.req.amount)))
      else
        EndWithout(s, tx, outcome)
    case Abort(tx) => s.(live := s.live - {tx})
  }

  ghost function Next(s: State, step: Step): Option<State> {
    if Enabled(s, step) then Some(Apply(s, step)) else None
  }

  ghost predicate Reachable(s: State) { LeadsTo(Next, INITIAL, s) }

  // ----- the invariant

  /** A held copy equals the committed row. */
  ghost predicate CopiesCurrent(s: State) {
    forall tx, id :: tx in s.live && id in s.live[tx].held ==>
      id in s.db.users && s.live[tx].held[id] == s.db.users[id]
  }

  /** No row is locked twice. */
  ghost predicate LocksExclusive(s: State) {
    forall a, b, id :: a in s.live && b in s.live && a != b && id in s.live[a].held ==> id !in s.live[b].held
  }

  ghost predicate AllMatch(users: map<UserId, User>, req: Request, ids: seq<UserId>) {
    forall i :: 0 <= i < |ids| ==> ids[i] in users && Matches(req, users[ids[i]])
  }

  ghost predicate PhaseFits(users: map<UserId, User>, t: Txn) {
    && Refusal(t.req).None?
    && match t.phase
       case Fresh => t.held == map[]
       case SenderHeld => t.held.Keys == {t.user}
       case Scanning(todo, found) =>
         && t.held.Keys == {t.user} + Elements(found)
         && found + todo != [] && Distinct(found + todo) && AllMatch(users, t.req, found + todo)
       case Chosen(receiver) =>
         t.held.Keys == {t.user, receiver} && AllMatch(users, t.req, [receiver])
  }

  ghost predicate PhasesFit(s: State) {
    forall tx :: tx in s.live ==> PhaseFits(s.db.users, s.live[tx])
  }

  /** A live transaction has begun and has not been logged. */
  ghost predicate Tracked(s: State) {
    s.live.Keys <= s.begun && s.at.Keys <= s.begun && s.live.Keys !! s.at.Keys
  }

  /** One effect on the tables, read from the log entry alone. */
  function Effect(db: Db, e: Entry): Db {
    match e
    case Registered(id, row) => Insert(db, id, row)
    case Committed(_, _, _, _, row) => if KnownParties(db.users, row) then Settle(db, row) else db
    case Refused(_, _, _, _) => db
  }

  function Replay(log: seq<Entry>): Db {
    if log == [] then EMPTY_DB else Effect(Replay(log[..|log| - 1]), log[|log| - 1])
  }

  /** The handler got as far as one chosen receiver. */
  predicate Decided(e: Entry) {
    || e.Committed?
    || (e.Refused? && e.outcome in {Replied(SELF_TRANSFER), Replied(INSUFFICIENT_BALANCE), Raised(OutOfRange)})
  }

  /** Running this entry's request alone on `before` gives the same tables and the same answer. */
  ghost predicate AsIfAlone(before: Db, e: Entry) {
    match e
    case Registered(id, row) => Insertable(before, id, row)
    case _ => TransferAlone(before, e.user, e.req) == (Effect(before, e), e.outcome)
  }

  ghost predicate OneBearer(before: Db, e: Entry) {
    Decided(e) ==> |Candidates(before.users, e.req)| == 1
  }

  ghost predicate EntryFits(before: Db, e: Entry) {
    && (AsIfAlone(before, e) <==> OneBearer(before, e))
    && (Decided(e) ==> Candidates(before.users, e.req) != {})
    && (e.Committed? ==> CommitFits(before, e))
    && (e.Refused? && e.outcome == Raised(OutOfRange) ==> TotalBalance(before.users) > MAX_INTEGER)
  }

  /** What a committed entry says of itself. */
  ghost predicate CommitFits(before: Db, e: Entry)
    requires e.Committed?
  {
    && Refusal(e.req).None? && e.row.fromUser == e.user && e.row.amount == e.req.amount
    && Fundable(before, e.row)
    && Matches(e.req, before.users[e.row.toUser])
    && e.outcome == Replied(DoneReply(before.users[e.user], before.users[e.row.toUser], e.req.amount))
  }

  /** The tables so far are in order, and so is the next entry. */
  ghost predicate FitsAt(before: Db, e: Entry) {
    BooksBalance(before) && EntryFits(before, e)
  }

  /** Every entry fits the tables that the entries before it leave. */
  ghost predicate AllFit(log: seq<Entry>, fits: (Db, Entry) -> bool) {
    log == [] ||
    (AllFit(log[..|log| - 1], fits) && fits(Replay(log[..|log| - 1]), log[|log| - 1]))
  }

  ghost predicate Explained(log: seq<Entry>) {
    AllFit(log, FitsAt)
  }

  ghost predicate LogFits(s: State) {
    Replay(s.log) == s.db && Explained(s.log)
  }

  /** Each transaction is logged at most once, and `at` finds it. */
  ghost predicate IndexFits(s: State) {
    && (forall tx :: tx in s.at ==>
         s.at[tx] < |s.log| && !s.log[s.at[tx]].Registered? && s.log[s.at[tx]].tx == tx)
    && forall i :: 0 <= i < |s.log| && !s.log[i].Registered? ==> s.log[i].tx in s.at && s.at[s.log[i].tx] == i
  }

  ghost predicate LocksHold(s: State) {
    CopiesCurrent(s) && LocksExclusive(s) && PhasesFit(s) && Tracked(s)
  }

  ghost predicate Inv(s: State) {
    LocksHold(s) && BooksBalance(s.db) && LogFits(s) && IndexFits(s)
  }

  // ----- preservation of the locking discipline

  /** A table change that other transactions cannot notice: only balances of rows in `mine` move. */
  ghost predicate OnlyTouches(before: map<UserId, User>, after: map<UserId, User>, mine: set<UserId>) {
    && before.Keys <= after.Keys
    && (forall id :: id in before ==> after[id] == before[id].(balance := after[id].balance))
    && (forall id :: id in before && id !in mine ==> after[id] == before[id])
  }

  /** The copies a transaction goes on with: current ones, of rows it held already or that nobody holds. */
  ghost predicate MayHold(s: State, tx: TxId, held: map<UserId, User>)
    requires tx in s.live
  {
    forall id :: id in held ==>
      id in s.db.users && held[id] == s.db.users[id] && (id in s.live[tx].held || Free(s, tx, id))
  }

  lemma ContinueKeepsCopies(s: State, tx: TxId, t: Txn)
    requires CopiesCurrent(s) && tx in s.live && MayHold(s, tx, t.held)
    ensures CopiesCurrent(Continue(s, tx, t))
  {
  }

  lemma ContinueKeepsExclusion(s: State, tx: TxId, t: Txn)
    requires LocksExclusive(s) && tx in s.live && MayHold(s, tx, t.held)
    ensures LocksExclusive(Continue(s, tx, t))
  {
  }

  lemma ContinueKeepsLocks(s: State, tx: TxId, t: Txn)
    requires LocksHold(s) && tx in s.live && PhaseFits(s.db.users, t) && MayHold(s, tx, t.held)
    ensures LocksHold(Continue(s, tx, t))
  {
    ContinueKeepsCopies(s, tx, t);
    ContinueKeepsExclusion(s, tx, t);
  }

  lemma LeaveKeepsCopies(s: State, tx: TxId, after: State)
    requires CopiesCurrent(s) && LocksExclusive(s) && tx in s.live && after.live == s.live - {tx}
    requires OnlyTouches(s.db.users, after.db.users, s.live[tx].held.Keys)
    ensures CopiesCurrent(after) && LocksExclusive(after)
  {
    forall other, id | other in after.live && id in after.live[other].held
      ensures id in after.db.users && after.live[other].held[id] == after.db.users[id]
    {
      assert id !in s.live[tx].held;
    }
  }

  lemma OthersKeepPhases(s: State, after: State, mine: set<UserId>)
    requires PhasesFit(s) && OnlyTouches(s.db.users, after.db.users, mine)
    requires forall tx :: tx in after.live ==> tx in s.live && after.live[tx] == s.live[tx]
    ensures PhasesFit(after)
  {
  }

  lemma FinishKeepsLocks(s: State, tx: TxId, db: Db, e: Entry)
    requires LocksHold(s) && tx in s.live
    requires OnlyTouches(s.db.users, db.users, s.live[tx].held.Keys)
    ensures LocksHold(Finish(s, tx, db, e))
  {
    LeaveKeepsCopies(s, tx, Finish(s, tx, db, e));
    OthersKeepPhases(s, Finish(s, tx, db, e), s.live[tx].held.Keys);
  }

  lemma AbortKeepsLocks(s: State, tx: TxId)
    requires LocksHold(s) && Enabled(s, Abort(tx))
    ensures LocksHold(Apply(s, Abort(tx)))
  {
    LeaveKeepsCopies(s, tx, Apply(s, Abort(tx)));
    OthersKeepPhases(s, Apply(s, Abort(tx)), {});
  }

  /** Rows that come, and balances of rows that nobody holds, are no concern of the locks. */
  lemma NobodyNotices(s: State, after: State)
    requires CopiesCurrent(s) && LocksExclusive(s) && after.live == s.live
             && OnlyTouches(s.db.users, after.db.users, {})
    ensures CopiesCurrent(after) && LocksExclusive(after)
  {
  }

  lemma RegisterKeepsLocks(s: State, id: UserId, row: User)
    requires LocksHold(s) && Enabled(s, Register(id, row))
    ensures LocksHold(Apply(s, Register(id, row)))
  {
    NobodyNotices(s, Apply(s, Register(id, row)));
    OthersKeepPhases(s, Apply(s, Register(id, row)), {});
  }

  /** A new transaction holds nothing. */
  lemma NewcomerKeepsLocks(s: State, tx: TxId, t: Txn, after: State)
    requires CopiesCurrent(s) && LocksExclusive(s) && t.held == map[]
    requires after.live == s.live[tx := t] && after.db == s.db
    ensures CopiesCurrent(after) && LocksExclusive(after)
  {
  }

  lemma BeginKeepsLocks(s: State, tx: TxId, user: UserId, req: Request)
    requires LocksHold(s) && Enabled(s, Begin(tx, user, req))
    ensures LocksHold(Apply(s, Begin(tx, user, req)))
  {
    var t, after := Txn(user, req, map[], Fresh), Apply(s, Begin(tx, user, req));
    NewcomerKeepsLocks(s, tx, t, after);
  }

  lemma LockSenderKeepsLocks(s: State, tx: TxId)
    requires LocksHold(s) && Enabled(s, LockSender(tx))
    ensures LocksHold(Apply(s, LockSender(tx)))
  {
    ContinueKeepsLocks(s, tx, Apply(s, LockSender(tx)).live[tx]);
  }

  lemma StartScanKeepsLocks(s: State, tx: TxId, order: seq<UserId>)
    requires LocksHold(s) && Enabled(s, StartScan(tx, order))
    ensures LocksHold(Apply(s, StartScan(tx, order)))
  {
    if order == [] {
      FinishKeepsLocks(s, tx, s.db, Apply(s, StartScan(tx, order)).log[|s.log|]);
    } else {
      ScanStarts(s, tx, order);
      ContinueKeepsLocks(s, tx, s.live[tx].(phase := Scanning(order, [])));
    }
  }

  lemma LockNextKeepsLocks(s: State, tx: TxId)
    requires LocksHold(s) && Enabled(s, LockNext(tx))
    ensures LocksHold(Apply(s, LockNext(tx)))
  {
    var after := Apply(s, LockNext(tx)).live[tx];
    ScanAdvances(s.db.users, s.live[tx], after);
    ContinueKeepsLocks(s, tx, after);
  }

  lemma EndScanKeepsLocks(s: State, tx: TxId)
    requires LocksHold(s) && Enabled(s, EndScan(tx))
    ensures LocksHold(Apply(s, EndScan(tx)))
  {
    var t := s.live[tx];
    if |t.phase.found| == 1 {
      ScanChooses(s.db.users, t);
      ContinueKeepsLocks(s, tx, t.(phase := Chosen(t.phase.found[0])));
    } else {
      FinishKeepsLocks(s, tx, s.db, Apply(s, EndScan(tx)).log[|s.log|]);
    }
  }

  lemma DecideTouches(s: State, tx: TxId)
    requires CopiesCurrent(s) && Enabled(s, Decide(tx))
    ensures OnlyTouches(s.db.users, Apply(s, Decide(tx)).db.users, s.live[tx].held.Keys)
  {
  }

  lemma DecideKeepsLocks(s: State, tx: TxId)
    requires LocksHold(s) && Enabled(s, Decide(tx))
    ensures LocksHold(Apply(s, Decide(tx)))
  {
    var after := Apply(s, Decide(tx));
    DecideTouches(s, tx);
    FinishKeepsLocks(s, tx, after.db, after.log[|s.log|]);
  }

  lemma StepKeepsLocks(s: State, step: Step)
    requires LocksHold(s) && Enabled(s, step)
    ensures LocksHold(Apply(s, step))
  {
    match step
    case Register(id, row) => RegisterKeepsLocks(s, id, row);
    case Begin(tx, user, req) => BeginKeepsLocks(s, tx, user, req);
    case LockSender(tx) => LockSenderKeepsLocks(s, tx);
    case MissSender(tx) => FinishKeepsLocks(s, tx, s.db, Apply(s, step).log[|s.log|]);
    case StartScan(tx, order) => StartScanKeepsLocks(s, tx, order);
    case LockNext(tx) => LockNextKeepsLocks(s, tx);
    case EndScan(tx) => EndScanKeepsLocks(s, tx);
    case Decide(tx) => DecideKeepsLocks(s, tx);
    case Abort(tx) => AbortKeepsLocks(s, tx);
  }

  lemma ScanChooses(users: map<UserId, User>, t: Txn)
    requires PhaseFits(users, t) && t.phase.Scanning? && t.phase.todo == [] && |t.phase.found| == 1
    ensures PhaseFits(users, t.(phase := Chosen(t.phase.found[0])))
  {
    assert t.phase.found + t.phase.todo == [t.phase.found[0]];
    assert Elements(t.phase.found) == {t.phase.found[0]};
  }

  lemma ScanStarts(s: State, tx: TxId, order: seq<UserId>)
    requires LocksHold(s) && Enabled(s, StartScan(tx, order)) && order != []
    ensures PhaseFits(s.db.users, s.live[tx].(phase := Scanning(order, [])))
  {
    assert [] + order == order;
    forall i | 0 <= i < |order| ensures order[i] in s.db.users && Matches(s.live[tx].req, s.db.users[order[i]]) {
      assert order[i] in Elements(order);
    }
  }

  lemma ScanAdvances(users: map<UserId, User>, t: Txn, after: Txn)
    requires PhaseFits(users, t) && t.phase.Scanning? && t.phase.todo != [] && t.phase.todo[0] in users
    requires after.user == t.user && after.req == t.req
    requires after.held == t.held[t.phase.todo[0] := users[t.phase.todo[0]]]
    requires after.phase == Scanning(t.phase.todo[1..], t.phase.found + [t.phase.todo[0]])
    ensures PhaseFits(users, after)
  {
    assert after.phase.found + after.phase.todo == t.phase.found + t.phase.todo;
    forall x ensures x in Elements(after.phase.found) <==> x in Elements(t.phase.found) + {t.phase.todo[0]} {
      if x in Elements(t.phase.found) {
        var i :| 0 <= i < |t.phase.found| && t.phase.found[i] == x;
        assert after.phase.found[i] == x;
      }
      assert after.phase.found[|t.phase.found|] == t.phase.todo[0];
    }
  }

  // ----- preservation of the log

  /** A step logs `e`, which fits, and does to the tables what it says. */
  ghost predicate LogsEntry(s: State, after: State, e: Entry) {
    after.log == s.log + [e] && after.db == Effect(s.db, e) && EntryFits(s.db, e)
  }

  ghost predicate LogsWell(s: State, after: State) {
    (after.log == s.log && after.db == s.db) || exists e :: LogsEntry(s, after, e)
  }

  lemma EntryKeepsBooks(db: Db, e: Entry)
    requires BooksBalance(db) && EntryFits(db, e)
    ensures BooksBalance(Effect(db, e))
  {
    match e
    case Registered(id, row) => InsertKeepsBooks(db, id, row);
    case Committed(_, _, _, _, row) => SettleKeepsBooks(db, row);
    case Refused(_, _, _, _) =>
  }

  lemma LogGrows(s: State, after: State)
    requires LogFits(s) && BooksBalance(s.db) && LogsWell(s, after)
    ensures LogFits(after) && BooksBalance(after.db)
  {
    if after.log != s.log || after.db != s.db {
      var e :| LogsEntry(s, after, e);
      EntryKeepsBooks(s.db, e);
    }
  }

  /** The heart of the matter: writing from copies that are current is settling on the committed tables. */
  lemma WriteIsSettle(db: Db, user: UserId, receiver: UserId, amount: int)
    requires user in db.users && receiver in db.users && user != receiver
    ensures WriteTransfer(db, user, db.users[user], receiver, db.users[receiver], amount)
            == Settle(db, Transfer(user, receiver, amount))
  {
  }

  /** What the locks guarantee a handler that holds both rows. */
  lemma BothHeld(s: State, tx: TxId)
    requires LocksHold(s) && tx in s.live && s.live[tx].phase.Chosen?
    ensures var t := s.live[tx];
            && Refusal(t.req).None?
            && t.user in s.db.users && t.phase.receiver in Candidates(s.db.users, t.req)
            && t.held == map[t.user := s.db.users[t.user], t.phase.receiver := s.db.users[t.phase.receiver]]
  {
    var t := s.live[tx];
    assert PhaseFits(s.db.users, t);
    assert AllMatch(s.db.users, t.req, [t.phase.receiver]) && [t.phase.receiver][0] == t.phase.receiver;
  }

  /** The entry a decision logs, given the two committed rows. */
  function DecisionEntry(db: Db, tx: TxId, user: UserId, req: Request, receiver: UserId): Entry
    requires user in db.users && receiver in db.users
  {
    var outcome := Decision(user, db.users[user], receiver, db.users[receiver], req.amount);
    if IsDone(outcome) then Committed(tx, user, req, outcome, Transfer(user, receiver, req.amount))
    else Refused(tx, user, req, outcome)
  }

  lemma DecisionAsIfAlone(db: Db, tx: TxId, user: UserId, req: Request, receiver: UserId)
    requires Refusal(req).None? && user in db.users && receiver in Candidates(db.users, req)
    ensures var e := DecisionEntry(db, tx, user, req, receiver);
            Decided(e) && (AsIfAlone(db, e) <==> OneBearer(db, e))
  {
    TransferAloneWithOne(db, user, req, receiver);
  }

  lemma DecisionEntryFits(db: Db, tx: TxId, user: UserId, req: Request, receiver: UserId)
    requires NoneNegative(db.users)
    requires Refusal(req).None? && user in db.users && receiver in Candidates(db.users, req)
    ensures EntryFits(db, DecisionEntry(db, tx, user, req, receiver))
  {
    DecisionAsIfAlone(db, tx, user, req, receiver);
    if user != receiver {
      PairWithinSum(Balances(db.users), user, receiver);
    }
  }

  lemma DecideIsEntry(s: State, tx: TxId)
    requires LocksHold(s) && Enabled(s, Decide(tx))
    ensures var t := s.live[tx];
            t.user in s.db.users && t.phase.receiver in s.db.users &&
            var e := DecisionEntry(s.db, tx, t.user, t.req, t.phase.receiver);
            Apply(s, Decide(tx)) == Finish(s, tx, Effect(s.db, e), e)
  {
    BothHeld(s, tx);
    var t := s.live[tx];
    if t.user != t.phase.receiver {
      WriteIsSettle(s.db, t.user, t.phase.receiver, t.req.amount);
    }
  }

  ghost predicate NoneNegative(users: map<UserId, User>) {
    forall id :: id in users ==> users[id].balance >= 0
  }

  lemma DecideFits(s: State, tx: TxId)
    requires LocksHold(s) && Enabled(s, Decide(tx)) && NoneNegative(s.db.users)
    ensures LogsWell(s, Apply(s, Decide(tx)))
  {
    var t := s.live[tx];
    BothHeld(s, tx);
    DecideIsEntry(s, tx);
    DecisionEntryFits(s.db, tx, t.user, t.req, t.phase.receiver);
    assert LogsEntry(s, Apply(s, Decide(tx)), DecisionEntry(s.db, tx, t.user, t.req, t.phase.receiver));
  }

  lemma NoReceiverFits(db: Db, tx: TxId, user: UserId, req: Request)
    requires Refusal(req).None? && user in db.users && Candidates(db.users, req) == {}
    ensures EntryFits(db, Refused(tx, user, req, Replied(RECEIVER_NOT_FOUND)))
  {
  }

  lemma StartScanFits(s: State, tx: TxId)
    requires LocksHold(s) && Enabled(s, StartScan(tx, []))
    ensures LogsWell(s, Apply(s, StartScan(tx, [])))
  {
    var t := s.live[tx];
    assert t.user in t.held;
    assert Elements([]) == {};
    NoReceiverFits(s.db, tx, t.user, t.req);
    assert LogsEntry(s, Apply(s, StartScan(tx, [])), Refused(tx, t.user, t.req, Replied(RECEIVER_NOT_FOUND)));
  }

  lemma TwoFound(s: State, tx: TxId)
    requires LocksHold(s) && Enabled(s, EndScan(tx)) && |s.live[tx].phase.found| != 1
    ensures var t := s.live[tx];
            && Refusal(t.req).None? && t.user in s.db.users
            && |t.phase.found| >= 2 && t.phase.found[0] != t.phase.found[1]
            && {t.phase.found[0], t.phase.found[1]} <= Candidates(s.db.users, t.req)
  {
    var t := s.live[tx];
    assert t.user in t.held;
    assert t.phase.found + t.phase.todo == t.phase.found;
  }

  lemma EndScanFits(s: State, tx: TxId)
    requires LocksHold(s) && Enabled(s, EndScan(tx)) && |s.live[tx].phase.found| != 1
    ensures LogsWell(s, Apply(s, EndScan(tx)))
  {
    var t := s.live[tx];
    TwoFound(s, tx);
    assert LogsEntry(s, Apply(s, EndScan(tx)), Refused(tx, t.user, t.req, Raised(MultipleRows)));
  }

  lemma MissSenderFits(s: State, tx: TxId)
    requires LocksHold(s) && Enabled(s, MissSender(tx))
    ensures LogsWell(s, Apply(s, MissSender(tx)))
  {
    var t := s.live[tx];
    assert LogsEntry(s, Apply(s, MissSender(tx)), Refused(tx, t.user, t.req, Replied(SENDER_NOT_FOUND)));
  }

  lemma StepLogsWell(s: State, step: Step)
    requires LocksHold(s) && NoneNegative(s.db.users) && Enabled(s, step)
    ensures LogsWell(s, Apply(s, step))
  {
    match step
    case Register(id, row) => assert LogsEntry(s, Apply(s, step), Registered(id, row));
    case MissSender(tx) => MissSenderFits(s, tx);
    case StartScan(tx, order) => if order == [] { StartScanFits(s, tx); }
    case EndScan(tx) => if |s.live[tx].phase.found| != 1 { EndScanFits(s, tx); }
    case Decide(tx) => DecideFits(s, tx);
    case _ =>
  }

  lemma FinishKeepsIndex(s: State, tx: TxId, db: Db, e: Entry)
    requires Tracked(s) && IndexFits(s) && tx in s.live && !e.Registered? && e.tx == tx
    ensures IndexFits(Finish(s, tx, db, e))
  {
  }

  /** Other than by a registration, something is logged only when a transaction ends. */
  lemma IndexAfter(s: State, step: Step)
    requires Enabled(s, step) && !step.Register? && Apply(s, step).log != s.log
    ensures step.tx in s.live && |s.log| < |Apply(s, step).log|
    ensures var after := Apply(s, step);
            var e := after.log[|s.log|];
            !e.Registered? && e.tx == step.tx && after.log == s.log + [e] && after.at == s.at[step.tx := |s.log|]
  {
  }

  lemma StepKeepsIndex(s: State, step: Step)
    requires Tracked(s) && IndexFits(s) && Enabled(s, step)
    ensures IndexFits(Apply(s, step))
  {
    if !step.Register? && Apply(s, step).log != s.log {
      IndexAfter(s, step);
      FinishKeepsIndex(s, step.tx, s.db, Apply(s, step).log[|s.log|]);
    }
  }

  lemma StepKeepsInv(s: State, step: Step)
    requires Inv(s) && Enabled(s, step)
    ensures Inv(Apply(s, step))
  {
    StepKeepsLocks(s, step);
    StepLogsWell(s, step);
    LogGrows(s, Apply(s, step));
    StepKeepsIndex(s, step);
  }

  lemma StepsKeepInv()
    ensures StepsKeep(Next, Inv)
  {
    forall x, step | Inv(x) && Next(x, step).Some? ensures Inv(Next(x, step).value) {
      StepKeepsInv(x, step);
    }
  }

  lemma InitialInv()
    ensures Inv(INITIAL)
  {
  }

  /** Every reachable state keeps locks, ledger and log in order. */
  lemma ReachableInv(s: State)
    requires Reachable(s)
    ensures Inv(s)
  {
    InitialInv();
    StepsKeepInv();
    LeadsToKept(Next, Inv, INITIAL, s);
  }
}
