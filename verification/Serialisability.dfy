/** What the row locks buy: the main results about `Transfers`, for every reachable state. */
module Serialisability {
  import opened Collections
  import opened Text
  import opened Bank
  import opened Transfers

  /** A request as a client makes it: no outcome, no row. */
  datatype Call = Signup(id: UserId, account: User) | Ask(user: UserId, req: Request)

  function CallOf(e: Entry): Call {
    if e.Registered? then Signup(e.id, e.account) else Ask(e.user, e.req)
  }

  function Calls(log: seq<Entry>): seq<Call> {
    seq(|log|, i requires 0 <= i < |log| => CallOf(log[i]))
  }

  /** One call, run alone to its end. */
  ghost function RunAlone(before: Db, call: Call): Db {
    match call
    case Signup(id, account) => Insert(before, id, account)
    case Ask(user, req) => TransferAlone(before, user, req).0
  }

  /** The same calls made one at a time. */
  ghost function OneAtATime(calls: seq<Call>): Db {
    if calls == [] then EMPTY_DB else RunAlone(OneAtATime(calls[..|calls| - 1]), calls[|calls| - 1])
  }

  ghost predicate Unambiguous(log: seq<Entry>) {
    forall i :: 0 <= i < |log| ==> OneBearer(Replay(log[..i]), log[i])
  }

  lemma {:induction false} AllFitAt(log: seq<Entry>, fits: (Db, Entry) -> bool, i: nat)
    requires AllFit(log, fits) && i < |log|
    ensures fits(Replay(log[..i]), log[i])
    decreases |log|
  {
    if i < |log| - 1 {
      AllFitAt(log[..|log| - 1], fits, i);
      assert log[..|log| - 1][..i] == log[..i];
    }
  }

  lemma {:induction false} AllFitIf(log: seq<Entry>, fits: (Db, Entry) -> bool, n: nat)
    requires n <= |log| && forall i :: 0 <= i < |log| ==> fits(Replay(log[..i]), log[i])
    ensures AllFit(log[..n], fits)
  {
    if n > 0 {
      AllFitIf(log, fits, n - 1);
      assert log[..n][..n - 1] == log[..n - 1];
    }
  }

  lemma EntryAt(log: seq<Entry>, i: nat)
    requires Explained(log) && i < |log|
    ensures FitsAt(Replay(log[..i]), log[i])
  {
    AllFitAt(log, FitsAt, i);
  }

  lemma {:induction false} ReplayIsOneAtATime(log: seq<Entry>, n: nat)
    requires n <= |log|
    requires forall i :: 0 <= i < |log| ==> AsIfAlone(Replay(log[..i]), log[i])
    ensures OneAtATime(Calls(log)[..n]) == Replay(log[..n])
  {
    if n > 0 {
      ReplayIsOneAtATime(log, n - 1);
      OneMoreCall(log, n - 1);
    }
  }

  /** Every interleaving leaves the tables of the committed effects taken one at a time in commit
      order; and entry by entry, running the request alone at that point gives the very same answer
      and tables exactly when no second user had come to bear the receiver's name. */
  lemma CommitOrderExplainsTables(s: State)
    requires Reachable(s)
    ensures Replay(s.log) == s.db
    ensures forall i :: 0 <= i < |s.log| ==>
      (AsIfAlone(Replay(s.log[..i]), s.log[i]) <==> OneBearer(Replay(s.log[..i]), s.log[i]))
  {
    ReachableInv(s);
    forall i | 0 <= i < |s.log|
      ensures AsIfAlone(Replay(s.log[..i]), s.log[i]) <==> OneBearer(Replay(s.log[..i]), s.log[i])
    {
      EntryAt(s.log, i);
    }
  }

  /** Made one at a time in this order, every call gets the answer it got in the concurrent run. */
  ghost predicate AnswersMatch(order: seq<Entry>) {
    forall i :: 0 <= i < |order| && !order[i].Registered? ==> AnswerAfter(order, i) == order[i].outcome
  }

  /** The answer to the i-th call of an order, when the ones before it have been made. */
  ghost function AnswerAfter(order: seq<Entry>, i: nat): Outcome
    requires i < |order| && !order[i].Registered?
  {
    TransferAlone(OneAtATime(Calls(order)[..i]), order[i].user, order[i].req).1
  }

  /** The entry is as if alone, or at least its answer tells that it is not. */
  ghost predicate AnswerTells(before: Db, e: Entry) {
    AsIfAlone(before, e) || (!e.Registered? && TransferAlone(before, e.user, e.req).1 != e.outcome)
  }

  lemma OneMoreCall(order: seq<Entry>, n: nat)
    requires n < |order|
    ensures OneAtATime(Calls(order)[..n + 1]) == RunAlone(OneAtATime(Calls(order)[..n]), CallOf(order[n]))
    ensures Replay(order[..n + 1]) == Effect(Replay(order[..n]), order[n])
  {
    assert Calls(order)[..n + 1][..n] == Calls(order)[..n];
    assert order[..n + 1][..n] == order[..n];
  }

  lemma MatchIsAlone(order: seq<Entry>, i: nat)
    requires i < |order| && AnswersMatch(order) && AllFit(order, AnswerTells)
    requires OneAtATime(Calls(order)[..i]) == Replay(order[..i])
    ensures AsIfAlone(Replay(order[..i]), order[i])
    ensures RunAlone(Replay(order[..i]), CallOf(order[i])) == Effect(Replay(order[..i]), order[i])
  {
    AllFitAt(order, AnswerTells, i);
    assert !order[i].Registered? ==> AnswerAfter(order, i) == order[i].outcome;
  }

  lemma {:induction false} MatchingCallsReplay(order: seq<Entry>, n: nat)
    requires n <= |order| && AnswersMatch(order) && AllFit(order, AnswerTells)
    ensures OneAtATime(Calls(order)[..n]) == Replay(order[..n])
  {
    if n > 0 {
      MatchingCallsReplay(order, n - 1);
      MatchIsAlone(order, n - 1);
      OneMoreCall(order, n - 1);
    }
  }

  /** If each entry is as if alone, the bare calls get the same answers and leave the same tables. */
  lemma AloneIsSerial(order: seq<Entry>)
    requires forall i :: 0 <= i < |order| ==> AsIfAlone(Replay(order[..i]), order[i])
    ensures AnswersMatch(order) && OneAtATime(Calls(order)) == Replay(order)
  {
    forall i | 0 <= i < |order| && !order[i].Registered? ensures AnswerAfter(order, i) == order[i].outcome {
      ReplayIsOneAtATime(order, i);
    }
    ReplayIsOneAtATime(order, |order|);
    assert Calls(order)[..|order|] == Calls(order) && order[..|order|] == order;
  }

  /** Where answers tell, an order explains all answers if and only if every entry is as if alone; and then
      the bare calls, made one at a time, rebuild what the entries do. */
  lemma SerialIff(order: seq<Entry>)
    requires AllFit(order, AnswerTells)
    ensures AnswersMatch(order) <==> forall i :: 0 <= i < |order| ==> AsIfAlone(Replay(order[..i]), order[i])
    ensures AnswersMatch(order) ==> OneAtATime(Calls(order)) == Replay(order)
  {
    if AnswersMatch(order) {
      forall i | 0 <= i < |order| ensures AsIfAlone(Replay(order[..i]), order[i]) {
        MatchingCallsReplay(order, i);
        MatchIsAlone(order, i);
      }
      AloneIsSerial(order);
    } else if forall i :: 0 <= i < |order| ==> AsIfAlone(Replay(order[..i]), order[i]) {
      AloneIsSerial(order);
    }
  }

  lemma AmbiguousAnswerTells(before: Db, e: Entry)
    requires EntryFits(before, e)
    ensures AnswerTells(before, e)
  {
    if !AsIfAlone(before, e) {
      OnlyElement(Candidates(before.users, e.req), PickOne(Candidates(before.users, e.req)));
    }
  }

  lemma {:induction false} FittingAnswersTell(log: seq<Entry>)
    requires Explained(log)
    ensures AllFit(log, AnswerTells)
    decreases |log|
  {
    if log != [] {
      FittingAnswersTell(log[..|log| - 1]);
      AmbiguousAnswerTells(Replay(log[..|log| - 1]), log[|log| - 1]);
    }
  }

  /** Commit order explains every answer, and with them the tables, if and only if no receiver's name had
      a second bearer by the time of the decision. */
  lemma CommitOrderIsSerialIff(s: State)
    requires Reachable(s)
    ensures AnswersMatch(s.log) <==> Unambiguous(s.log)
    ensures AnswersMatch(s.log) ==> OneAtATime(Calls(s.log)) == s.db
  {
    CommitOrderExplainsTables(s);
    ReachableInv(s);
    FittingAnswersTell(s.log);
    SerialIff(s.log);
  }

  /** At most one user bears an account number. */
  lemma OneAccount(users: map<UserId, User>, req: Request)
    requires UniqueColumns(users) && ToAccount(req) != "" && Candidates(users, req) != {}
    ensures |Candidates(users, req)| == 1
  {
    var c := Candidates(users, req);
    var receiver := PickOne(c);
    forall other | other in c ensures other == receiver {
      assert users[other].accountNumber == users[receiver].accountNumber;
    }
    OnlyElement(c, receiver);
  }

  /** Requests that name an account number are never ambiguous, whatever registers meanwhile. */
  lemma AccountNumbersAreUnambiguous(s: State)
    requires Reachable(s)
    requires forall i :: 0 <= i < |s.log| && Decided(s.log[i]) ==> ToAccount(s.log[i].req) != ""
    ensures Unambiguous(s.log)
  {
    ReachableInv(s);
    forall i | 0 <= i < |s.log| ensures OneBearer(Replay(s.log[..i]), s.log[i]) {
      if Decided(s.log[i]) {
        EntryAt(s.log, i);
        OneAccount(Replay(s.log[..i]).users, s.log[i].req);
      }
    }
  }

  // ----- the ledger in every run

  /** While a handler holds a row, its copy is the committed one and no other handler holds it. */
  lemma HeldRowsAreCurrent(s: State, tx: TxId, id: UserId)
    requires Reachable(s) && tx in s.live && id in s.live[tx].held
    ensures id in s.db.users && s.live[tx].held[id] == s.db.users[id]
    ensures forall other :: other in s.live && other != tx ==> id !in s.live[other].held
  {
    ReachableInv(s);
  }

  /** The books in every reachable state: opening balance plus ledger, nothing negative, proper rows,
      one note for each party of each transfer, and money only ever made by registering. */
  lemma LedgerHolds(s: State)
    requires Reachable(s)
    ensures LedgerExplains(s.db) && RowsWellFormed(s.db) && NotesMatch(s.db) && UniqueColumns(s.db.users)
    ensures TotalBalance(s.db.users) == 100000 * |s.db.users|
  {
    ReachableInv(s);
  }

  /** Users stay, with all but their balances. */
  ghost predicate AccountsKept(before: map<UserId, User>, after: map<UserId, User>) {
    forall id :: id in before ==> id in after && after[id] == before[id].(balance := after[id].balance)
  }

  /** Every registration in the log brought a new id. */
  ghost predicate NewIds(log: seq<Entry>) {
    log == [] ||
    (NewIds(log[..|log| - 1]) && (log[|log| - 1].Registered? ==> log[|log| - 1].id !in Replay(log[..|log| - 1]).users))
  }

  lemma {:induction false} ExplainedHasNewIds(log: seq<Entry>)
    requires Explained(log)
    ensures NewIds(log)
    decreases |log|
  {
    if log != [] {
      ExplainedHasNewIds(log[..|log| - 1]);
      assert FitsAt(Replay(log[..|log| - 1]), log[|log| - 1]);
    }
  }

  lemma {:induction false} AccountsStay(log: seq<Entry>, n: nat)
    requires NewIds(log) && n <= |log|
    ensures AccountsKept(Replay(log[..n]).users, Replay(log).users)
    decreases |log|
  {
    if n == |log| {
      assert log[..n] == log;
    } else {
      var front := log[..|log| - 1];
      AccountsStay(front, n);
      assert front[..n] == log[..n];
    }
  }

  lemma BalanceWithinTotal(users: map<UserId, User>, id: UserId)
    requires id in users && forall other :: other in users ==> users[other].balance >= 0
    ensures users[id].balance <= TotalBalance(users)
  {
    SumWithout(Balances(users), id);
    SumNotNegative(Balances(users) - {id});
  }

  lemma LogFact(s: State)
    requires Reachable(s)
    ensures LogFits(s) && TotalBalance(s.db.users) == INITIAL_BALANCE * |s.db.users|
  {
    ReachableInv(s);
  }

  lemma EarlierTotalIsSmaller(s: State, i: nat)
    requires Reachable(s) && i < |s.log|
    ensures TotalBalance(Replay(s.log[..i]).users) <= TotalBalance(s.db.users)
  {
    LogFact(s);
    EntryAt(s.log, i);
    ExplainedHasNewIds(s.log);
    AccountsStay(s.log, i);
    SubsetIsSmaller(Replay(s.log[..i]).users.Keys, s.db.users.Keys);
    assert |Replay(s.log[..i]).users.Keys| == |Replay(s.log[..i]).users|;
    assert |s.db.users.Keys| == |s.db.users|;
  }

  /** With at most 21474 users every balance fits its Integer column, and no credit that was
      ever decided failed for want of range. */
  lemma NoCreditOverflowed(s: State)
    requires Reachable(s) && INITIAL_BALANCE * |s.db.users| <= MAX_INTEGER
    ensures forall id :: id in s.db.users ==> 0 <= s.db.users[id].balance <= MAX_INTEGER
    ensures forall i :: 0 <= i < |s.log| && s.log[i].Refused? ==> s.log[i].outcome != Raised(OutOfRange)
  {
    ReachableInv(s);
    forall id | id in s.db.users ensures 0 <= s.db.users[id].balance <= MAX_INTEGER {
      BalanceWithinTotal(s.db.users, id);
    }
    forall i | 0 <= i < |s.log| && s.log[i].Refused? ensures s.log[i].outcome != Raised(OutOfRange) {
      EntryAt(s.log, i);
      EarlierTotalIsSmaller(s, i);
    }
  }

  /** Nor can the next one fail so. */
  lemma NoCreditOverflows(s: State, tx: TxId)
    requires Reachable(s) && INITIAL_BALANCE * |s.db.users| <= MAX_INTEGER
    requires Enabled(s, Decide(tx))
    ensures var t := s.live[tx];
            Decision(t.user, t.held[t.user], t.phase.receiver, t.held[t.phase.receiver], t.req.amount)
            != Raised(OutOfRange)
  {
    ReachableInv(s);
    var t := s.live[tx];
    BothHeld(s, tx);
    if t.user != t.phase.receiver {
      PairWithinSum(Balances(s.db.users), t.user, t.phase.receiver);
    }
  }

  function RowIn(e: Entry): seq<Transfer> { if e.Committed? then [e.row] else [] }

  /** The rows of the committed entries, in order. */
  function RowsOf(log: seq<Entry>): seq<Transfer> { FlatMap(RowIn, log) }

  lemma {:induction false} TableIsRowsOf(log: seq<Entry>)
    requires Explained(log)
    ensures Replay(log).transfers == RowsOf(log)
    decreases |log|
  {
    if log != [] {
      TableIsRowsOf(log[..|log| - 1]);
    }
  }

  /** What a committed entry has moved: the amount asked for, from the requesting user to another one, who bears the
      account number asked for, or the name if no number was; and the reply names them and the amount. */
  ghost predicate MovedAsAsked(users: map<UserId, User>, e: Entry)
    requires e.Committed?
  {
    var row := e.row;
    && row.fromUser == e.user && row.fromUser in users && row.toUser in users && row.fromUser != row.toUser
    && row.amount == e.req.amount >= 1
    && (if Strip(e.req.toAccountNumber) != "" then users[row.toUser].accountNumber == Strip(e.req.toAccountNumber)
        else Strip(e.req.toUsername) != "" && users[row.toUser].username == Strip(e.req.toUsername))
    && e.outcome == Replied(Response(200, TransferOk(users[row.fromUser].username, users[row.toUser].username,
                                                      users[row.toUser].accountNumber, row.amount)))
  }

  lemma CommitMovesAsAsked(before: Db, e: Entry, users: map<UserId, User>)
    requires EntryFits(before, e) && e.Committed? && AccountsKept(before.users, users)
    ensures MovedAsAsked(users, e)
  {
  }

  /** A committed entry's row is in the table and is what was asked for. */
  lemma CommittedRow(s: State, i: nat)
    requires Reachable(s) && i < |s.log| && s.log[i].Committed?
    ensures s.log[i].row in s.db.transfers && MovedAsAsked(s.db.users, s.log[i])
  {
    LogFact(s);
    TableIsRowsOf(s.log);
    FlatMapOf(RowIn, s.log, i);
    assert s.log[i].row in RowsOf(s.log[..i]) + RowIn(s.log[i]);
    EntryAt(s.log, i);
    ExplainedHasNewIds(s.log);
    AccountsStay(s.log, i);
    CommitMovesAsAsked(Replay(s.log[..i]), s.log[i], s.db.users);
  }

  /** The k-th transfer's notes: what each party is told. */
  lemma NotesRead(s: State, k: nat)
    requires Reachable(s) && k < |s.db.transfers|
    ensures |s.db.notifications| == 2 * |s.db.transfers|
    ensures var row, users := s.db.transfers[k], s.db.users;
            && row.fromUser in users && row.toUser in users
            && s.db.notifications[2 * k] ==
               Notification(row.fromUser, "Bạn đã chuyển " + Decimal(row.amount) + " đến " + users[row.toUser].username)
            && s.db.notifications[2 * k + 1] ==
               Notification(row.toUser, "Bạn nhận " + Decimal(row.amount) + " từ " + users[row.fromUser].username)
  {
    LedgerHolds(s);
    assert WellFormedRow(s.db.users, s.db.transfers[k]);
  }

  /** The transfers table is exactly the committed rows in commit order, and a handler commits at most one. */
  lemma TransfersTableIsCommitted(s: State)
    requires Reachable(s)
    ensures s.db.transfers == RowsOf(s.log)
    ensures forall i, j :: 0 <= i < j < |s.log| && s.log[i].Committed? && s.log[j].Committed? ==>
      s.log[i].tx != s.log[j].tx
  {
    ReachableInv(s);
    TableIsRowsOf(s.log);
  }
}
