/** Sequential orders of the requests of a run, each request placed within its window.

    What a request gets when its turn comes depends on which entries came before it (`Cut`), not on their order.
    Its sender then has what it had when the request decided, and the credits that committed later but came
    before; its receiver's number or name has the bearers of the receiver statement, and perhaps more.  So the
    answer alone is the answer that it got, or a visibly different one (`DecidedAnswer`). */
module Orders {
  import opened Collections
  import opened Bank
  import opened Transfers
  import opened Serialisability
  import opened Windows
  import opened Places

  /** What is known of the log of a run whose users are `all`. */
  ghost predicate Sound(all: map<UserId, User>, log: seq<Entry>, looked: seq<nat>) {
    && UniqueColumns(all) && Enrols(all, log) && WindowsFit(log, looked)
    && forall n :: 0 <= n <= |log| ==> LeavesAt(all, log, n)
  }

  /** Entry `b` may come when just the entries at `places` have: all that had ended before its receiver statement
      are among them, and none whose own receiver statement came after its end. */
  ghost predicate Cut(log: seq<Entry>, looked: seq<nat>, places: set<nat>, b: nat)
    requires |looked| == |log|
  {
    && b < |log| && b !in places
    && (forall a :: 0 <= a < looked[b] ==> a in places)
    && (forall a :: a in places ==> a < |log| && looked[a] <= b)
  }

  // ----- the sender's balance

  function LateCredit(log: seq<Entry>, places: set<nat>, b: nat, id: UserId): nat -> int {
    (k: nat) =>
      if k in places && b < k < |log| && log[k].Committed? && log[k].row.toUser == id then log[k].row.amount else 0
  }

  /** The transfers to `id` among the entries at `places` that committed later than entry `b`. */
  function LateCredits(log: seq<Entry>, places: set<nat>, b: nat, id: UserId): int {
    Tally(|log|, LateCredit(log, places, b, id))
  }

  lemma CommitFact(log: seq<Entry>, looked: seq<nat>, k: nat)
    requires WindowsFit(log, looked) && k < |log| && log[k].Committed?
    ensures log[k].row.fromUser == log[k].user && log[k].row.amount == log[k].req.amount > 0
    ensures looked[k] <= k && Untouched(log, looked[k], k, log[k].user)
  {
    assert WindowFits(log, looked[k], k);
  }

  lemma DecidedFact(log: seq<Entry>, looked: seq<nat>, b: nat)
    requires WindowsFit(log, looked) && b < |log| && Decided(log[b])
    ensures looked[b] <= b && DecisionFits(log, looked[b], b) && Refusal(log[b].req).None?
  {
    assert WindowFits(log, looked[b], b);
  }

  lemma DecidedIsQuiet(log: seq<Entry>, looked: seq<nat>, b: nat)
    requires WindowsFit(log, looked) && b < |log| && Decided(log[b])
    ensures looked[b] <= b && Untouched(log, looked[b], b, log[b].user)
  {
    DecidedFact(log, looked, b);
  }

  lemma EarlierMove(log: seq<Entry>, l: nat, places: set<nat>, b: nat, k: nat)
    requires k < b < |log| && !log[b].Registered? && Untouched(log, l, b, log[b].user) && (k < l ==> k in places)
    ensures k !in places ==> MoveOf(log[k], log[b].user) == 0
  {
    assert l <= k ==> !Involves(log[k], log[b].user);
  }

  lemma LaterMove(log: seq<Entry>, l: nat, b: nat, k: nat)
    requires l <= b < k < |log| && !log[b].Registered? && !log[k].Registered? && Untouched(log, l, k, log[k].user)
    ensures log[k].user != log[b].user
  {
    assert !Involves(log[b], log[k].user);
  }

  /** The entry moves the balance of `id` as it had by the time of `b`, or is a late credit. */
  ghost predicate MoveSplits(log: seq<Entry>, places: set<nat>, b: nat, id: UserId, k: nat) {
    Moves(log, places, id)(k) == Moves(log, First(b), id)(k) + LateCredit(log, places, b, id)(k)
  }

  lemma MoveSplitsIf(log: seq<Entry>, places: set<nat>, b: nat, id: UserId, k: nat)
    requires k < |log| && b !in places
    requires k < b && k !in places ==> MoveOf(log[k], id) == 0
    requires k > b && k in places && log[k].Committed? ==> log[k].row.fromUser != id
    ensures MoveSplits(log, places, b, id, k)
  {
  }

  lemma MoveInCut(log: seq<Entry>, looked: seq<nat>, places: set<nat>, b: nat, k: nat)
    requires WindowsFit(log, looked) && Cut(log, looked, places, b) && Decided(log[b]) && k < |log|
    ensures MoveSplits(log, places, b, log[b].user, k)
  {
    if k < b {
      DecidedIsQuiet(log, looked, b);
      EarlierMove(log, looked[b], places, b, k);
    } else if k > b && log[k].Committed? && k in places {
      CommitFact(log, looked, k);
      LaterMove(log, looked[k], b, k);
    }
    MoveSplitsIf(log, places, b, log[b].user, k);
  }

  lemma BalanceSplits(log: seq<Entry>, places: set<nat>, b: nat, id: UserId)
    requires forall k :: 0 <= k < |log| ==> MoveSplits(log, places, b, id, k)
    ensures Balance(log, places, id) == Balance(log, First(b), id) + LateCredits(log, places, b, id)
  {
    forall k | 0 <= k < |log|
      ensures Moves(log, places, id)(k) == Moves(log, First(b), id)(k) + LateCredit(log, places, b, id)(k)
    {
      assert MoveSplits(log, places, b, id, k);
    }
    TallyPlus(|log|, Moves(log, places, id), Moves(log, First(b), id), LateCredit(log, places, b, id));
  }

  /** When its turn comes within its window, a decided request's sender has what it had when the request decided, and
      the late credits that came before. */
  lemma BalanceInCut(log: seq<Entry>, looked: seq<nat>, places: set<nat>, b: nat)
    requires WindowsFit(log, looked) && Cut(log, looked, places, b) && Decided(log[b])
    ensures var id := log[b].user;
            Balance(log, places, id) == Balance(log, First(b), id) + LateCredits(log, places, b, id)
  {
    forall k | 0 <= k < |log| ensures MoveSplits(log, places, b, log[b].user, k) {
      MoveInCut(log, looked, places, b, k);
    }
    BalanceSplits(log, places, b, log[b].user);
  }

  lemma LateIsNotNegative(log: seq<Entry>, looked: seq<nat>, places: set<nat>, b: nat, id: UserId)
    requires WindowsFit(log, looked)
    ensures LateCredits(log, places, b, id) >= 0
  {
    forall k | 0 <= k < |log| ensures Moves(log, {}, id)(k) <= LateCredit(log, places, b, id)(k) {
      if log[k].Committed? {
        CommitFact(log, looked, k);
      }
    }
    TallyAtMost(|log|, Moves(log, {}, id), LateCredit(log, places, b, id));
    TallyOne(|log|, |log|, Moves(log, {}, id));
  }

  // ----- who is there

  lemma MoreNewcomers(all: map<UserId, User>, log: seq<Entry>, some: set<nat>, places: set<nat>, req: Request)
    requires forall k :: k in some && k < |log| && log[k].Registered? ==> k in places
    ensures UsersOf(all, log, some).Keys <= UsersOf(all, log, places).Keys
    ensures Candidates(UsersOf(all, log, some), req) <= Candidates(UsersOf(all, log, places), req)
  {
  }

  lemma UsersThen(all: map<UserId, User>, log: seq<Entry>, looked: seq<nat>, n: nat)
    requires Sound(all, log, looked) && n <= |log|
    ensures UsersAt(log, n) == UsersOf(all, log, First(n))
  {
    assert LeavesAt(all, log, n);
  }

  /** Whoever was there at the receiver statement is there. */
  lemma AtLeast(all: map<UserId, User>, log: seq<Entry>, looked: seq<nat>, places: set<nat>, b: nat, req: Request)
    requires Sound(all, log, looked) && Cut(log, looked, places, b)
    ensures looked[b] <= b
    ensures UsersAt(log, looked[b]).Keys <= UsersOf(all, log, places).Keys
    ensures Candidates(UsersAt(log, looked[b]), req) <= Candidates(UsersOf(all, log, places), req)
  {
    assert WindowFits(log, looked[b], b);
    UsersThen(all, log, looked, looked[b]);
    MoreNewcomers(all, log, First(looked[b]), places, req);
  }

  lemma EarlierSignups(log: seq<Entry>, looked: seq<nat>, places: set<nat>, b: nat)
    requires WindowsFit(log, looked) && Cut(log, looked, places, b)
    ensures forall k :: k in places && k < |log| && log[k].Registered? ==> k < b
  {
    forall k | k in places && k < |log| && log[k].Registered? ensures k < b {
      assert WindowFits(log, looked[k], k);
    }
  }

  /** And if all of the window is one moment, nobody else. */
  lemma Exactly(all: map<UserId, User>, log: seq<Entry>, looked: seq<nat>, places: set<nat>, b: nat, req: Request)
    requires Sound(all, log, looked) && Cut(log, looked, places, b) && looked[b] == b
    ensures UsersAt(log, b).Keys == UsersOf(all, log, places).Keys
    ensures Candidates(UsersAt(log, b), req) == Candidates(UsersOf(all, log, places), req)
  {
    AtLeast(all, log, looked, places, b, req);
    EarlierSignups(log, looked, places, b);
    UsersThen(all, log, looked, b);
    MoreNewcomers(all, log, places, First(b), req);
  }

  // ----- the answer

  predicate ShortOfFunds(e: Entry) { e.Refused? && e.outcome == Replied(INSUFFICIENT_BALANCE) }

  function BalanceAt(log: seq<Entry>, n: nat, id: UserId): int
    requires n <= |log|
  {
    if id in UsersAt(log, n) then UsersAt(log, n)[id].balance else 0
  }

  /** A decided request that comes when its receiver's name has several bearers. */
  ghost predicate Blurred(all: map<UserId, User>, log: seq<Entry>, places: set<nat>, b: nat)
    requires b < |log|
  {
    Decided(log[b]) && |Candidates(UsersOf(all, log, places), log[b].req)| != 1
  }

  /** A refusal for want of funds that comes when its sender, with what it had and the credits that came in the
      meantime, could have paid. */
  ghost predicate Overtaken(log: seq<Entry>, places: set<nat>, b: nat)
    requires b < |log|
  {
    ShortOfFunds(log[b]) &&
    log[b].req.amount <= BalanceAt(log, b, log[b].user) + LateCredits(log, places, b, log[b].user)
  }

  /** This entry comes next, on tables that the entries at `places` left. */
  ghost predicate ReadyFor(all: map<UserId, User>, log: seq<Entry>, looked: seq<nat>, places: set<nat>, b: nat,
                           db: Db) {
    Sound(all, log, looked) && Cut(log, looked, places, b) && Leaves(all, log, places, db)
  }

  ghost predicate HasRoom(users: map<UserId, User>) {
    NoneNegative(users) && TotalBalance(users) <= MAX_INTEGER
  }

  lemma SignupAnswer(all: map<UserId, User>, log: seq<Entry>, looked: seq<nat>, places: set<nat>, b: nat, db: Db)
    requires ReadyFor(all, log, looked, places, b, db) && log[b].Registered?
    ensures AsIfAlone(db, log[b])
  {
    NotYetNew(all, log, places, b);
    assert AccountIn(all, log[b]);
  }

  lemma UndecidedAnswer(all: map<UserId, User>, log: seq<Entry>, looked: seq<nat>, places: set<nat>, b: nat, db: Db)
    requires ReadyFor(all, log, looked, places, b, db) && log[b].Refused? && !Decided(log[b])
    ensures AsIfAlone(db, log[b])
  {
    var e := log[b];
    assert WindowFits(log, looked[b], b);
    AtLeast(all, log, looked, places, b, e.req);
    if e.outcome == Raised(MultipleRows) {
      SubsetIsSmaller(Candidates(UsersAt(log, looked[b]), e.req), Candidates(db.users, e.req));
      OnlyElement(Candidates(db.users, e.req), PickOne(Candidates(db.users, e.req)));
    } else {
      Exactly(all, log, looked, places, b, e.req);
    }
  }

  /** The sender's balance when a decided request comes, and when it decided. */
  lemma SenderThenAndNow(all: map<UserId, User>, log: seq<Entry>, looked: seq<nat>, places: set<nat>, b: nat, db: Db)
    requires ReadyFor(all, log, looked, places, b, db) && Decided(log[b])
    ensures var id := log[b].user;
            && id in db.users && id in UsersAt(log, b)
            && db.users[id].balance == UsersAt(log, b)[id].balance + LateCredits(log, places, b, id)
  {
    DecidedFact(log, looked, b);
    AtLeast(all, log, looked, places, b, log[b].req);
    UsersThen(all, log, looked, b);
    BalanceInCut(log, looked, places, b);
  }

  /** A user then and now differs in the balance only. */
  lemma SameButBalance(all: map<UserId, User>, log: seq<Entry>, some: set<nat>, places: set<nat>, id: UserId)
    requires id in UsersOf(all, log, some) && id in UsersOf(all, log, places)
    ensures var before, now := UsersOf(all, log, some)[id], UsersOf(all, log, places)[id];
            now == before.(balance := now.balance)
  {
  }

  /** What the entry says, and what the request gets alone. */
  lemma DecisionThenAndNow(all: map<UserId, User>, log: seq<Entry>, looked: seq<nat>, places: set<nat>, b: nat,
                           db: Db, to: UserId)
    requires ReadyFor(all, log, looked, places, b, db) && Decided(log[b])
    requires looked[b] <= b && Found(log, looked[b], b, to)
    ensures var e, before := log[b], UsersAt(log, b);
            && e.user in db.users && to in Candidates(db.users, e.req) && e.user in before && to in before
            && e.outcome == Decision(e.user, before[e.user], to, before[to], e.req.amount)
            && db.users[e.user] == before[e.user].(balance := db.users[e.user].balance)
            && db.users[to] == before[to].(balance := db.users[to].balance)
  {
    var e := log[b];
    SenderThenAndNow(all, log, looked, places, b, db);
    AtLeast(all, log, looked, places, b, e.req);
    UsersThen(all, log, looked, b);
    SameButBalance(all, log, First(b), places, e.user);
    SameButBalance(all, log, First(b), places, to);
  }

  lemma RoomForCredit(users: map<UserId, User>, a: UserId, b: UserId)
    requires a in users && b in users && a != b && HasRoom(users)
    ensures users[a].balance + users[b].balance <= MAX_INTEGER
  {
    PairWithinSum(Balances(users), a, b);
  }

  /** An entry that decided on `then`, with `late` more for its sender by now. */
  ghost predicate DecidedBefore(before: map<UserId, User>, late: int, db: Db, e: Entry, to: UserId) {
    && !e.Registered? && Refusal(e.req).None? && e.user in before && to in before
    && e == DecisionEntry(Db(before, [], []), e.tx, e.user, e.req, to) && e.outcome != Raised(OutOfRange)
    && e.user in db.users && to in Candidates(db.users, e.req)
    && db.users[e.user] == before[e.user].(balance := before[e.user].balance + late)
    && db.users[to] == before[to].(balance := db.users[to].balance)
  }

  lemma OneBearerAnswer(before: map<UserId, User>, late: int, db: Db, e: Entry, to: UserId)
    requires DecidedBefore(before, late, db, e, to) && late >= 0 && |Candidates(db.users, e.req)| == 1
    requires e.user != to ==> db.users[e.user].balance + db.users[to].balance <= MAX_INTEGER
    ensures AsIfAlone(db, e) <==> !(ShortOfFunds(e) && e.req.amount <= before[e.user].balance + late)
    ensures AnswerTells(db, e)
  {
    TransferAloneWithOne(db, e.user, e.req, to);
  }

  lemma SeveralBearersAnswer(before: map<UserId, User>, late: int, db: Db, e: Entry, to: UserId)
    requires DecidedBefore(before, late, db, e, to) && |Candidates(db.users, e.req)| != 1
    ensures !AsIfAlone(db, e) && AnswerTells(db, e)
  {
    TransferAloneWithOne(db, e.user, e.req, to);
  }

  lemma DecidedIsBefore(all: map<UserId, User>, log: seq<Entry>, looked: seq<nat>, places: set<nat>, b: nat, db: Db,
                        to: UserId)
    requires ReadyFor(all, log, looked, places, b, db) && Decided(log[b]) && log[b].outcome != Raised(OutOfRange)
    requires looked[b] <= b && Found(log, looked[b], b, to)
    ensures DecidedBefore(UsersAt(log, b), LateCredits(log, places, b, log[b].user), db, log[b], to)
  {
    DecidedFact(log, looked, b);
    SenderThenAndNow(all, log, looked, places, b, db);
    DecisionThenAndNow(all, log, looked, places, b, db, to);
  }

  lemma FoundOne(log: seq<Entry>, looked: seq<nat>, b: nat) returns (to: UserId)
    requires WindowsFit(log, looked) && b < |log| && Decided(log[b])
    ensures looked[b] <= b && Found(log, looked[b], b, to)
  {
    DecidedFact(log, looked, b);
    to :| Found(log, looked[b], b, to);
  }

  /** The answer to a decided request is the answer alone, unless its receiver's name has several bearers by then or
      it is overtaken. */
  lemma DecidedAnswer(all: map<UserId, User>, log: seq<Entry>, looked: seq<nat>, places: set<nat>, b: nat, db: Db)
    requires ReadyFor(all, log, looked, places, b, db) && HasRoom(db.users)
    requires Decided(log[b]) && log[b].outcome != Raised(OutOfRange)
    ensures AsIfAlone(db, log[b]) <==> !Blurred(all, log, places, b) && !Overtaken(log, places, b)
    ensures AnswerTells(db, log[b])
  {
    var e, late := log[b], LateCredits(log, places, b, log[b].user);
    var to := FoundOne(log, looked, b);
    DecidedIsBefore(all, log, looked, places, b, db, to);
    LateIsNotNegative(log, looked, places, b, e.user);
    if |Candidates(db.users, e.req)| != 1 {
      SeveralBearersAnswer(UsersAt(log, b), late, db, e, to);
    } else {
      if e.user != to {
        RoomForCredit(db.users, e.user, to);
      }
      OneBearerAnswer(UsersAt(log, b), late, db, e, to);
    }
  }

  lemma AnswerInCut(all: map<UserId, User>, log: seq<Entry>, looked: seq<nat>, places: set<nat>, b: nat, db: Db)
    requires ReadyFor(all, log, looked, places, b, db) && HasRoom(db.users)
    requires log[b].Refused? ==> log[b].outcome != Raised(OutOfRange)
    ensures AsIfAlone(db, log[b]) <==> !Blurred(all, log, places, b) && !Overtaken(log, places, b)
    ensures AnswerTells(db, log[b])
  {
    if log[b].Registered? {
      SignupAnswer(all, log, looked, places, b, db);
    } else if Decided(log[b]) {
      if log[b].Committed? {
        CommitFact(log, looked, b);
        CommittedIsDone(log, looked, b);
      }
      DecidedAnswer(all, log, looked, places, b, db);
    } else {
      UndecidedAnswer(all, log, looked, places, b, db);
    }
  }

  lemma CommittedIsDone(log: seq<Entry>, looked: seq<nat>, b: nat)
    requires WindowsFit(log, looked) && b < |log| && log[b].Committed?
    ensures IsDone(log[b].outcome)
  {
    DecidedFact(log, looked, b);
  }

  // ----- orders

  /** An order of all entries in which each request keeps its place within its window: whoever had ended before
      another's receiver statement does not come after it. */
  ghost predicate IsOrder(log: seq<Entry>, looked: seq<nat>, order: seq<nat>)
    requires |looked| == |log|
  {
    IsPermutation(order, |log|)
    && forall i, j :: 0 <= i < j < |order| ==> looked[order[i]] <= order[j]
  }

  function EntryOf(log: seq<Entry>): nat -> seq<Entry> { (k: nat) => if k < |log| then [log[k]] else [] }

  function Listed(log: seq<Entry>, order: seq<nat>): seq<Entry> { FlatMap(EntryOf(log), order) }

  lemma {:induction false} ListedAt(log: seq<Entry>, order: seq<nat>, i: nat)
    requires i <= |order| && forall j :: 0 <= j < |order| ==> order[j] < |log|
    ensures |Listed(log, order)| == |order| && Listed(log, order)[..i] == Listed(log, order[..i])
    ensures i < |order| ==> Listed(log, order)[i] == log[order[i]]
    decreases |order|
  {
    if i < |order| {
      var front := order[..|order| - 1];
      ListedAt(log, front, i);
      assert front[..i] == order[..i];
    } else {
      assert order[..i] == order;
      if order != [] {
        ListedAt(log, order[..|order| - 1], 0);
      }
    }
  }

  lemma CutAt(log: seq<Entry>, looked: seq<nat>, order: seq<nat>, p: nat)
    requires WindowsFit(log, looked) && IsOrder(log, looked, order) && p < |order|
    ensures Cut(log, looked, Elements(order[..p]), order[p])
  {
    var b := order[p];
    assert WindowFits(log, looked[b], b);
    forall a | 0 <= a < looked[b] ensures a in order[..p] {
      assert a in order;
      var i :| 0 <= i < |order| && order[i] == a;
    }
  }

  lemma CommitIsFunded(all: map<UserId, User>, log: seq<Entry>, looked: seq<nat>, places: set<nat>, b: nat, db: Db)
    requires ReadyFor(all, log, looked, places, b, db) && log[b].Committed?
    ensures Fundable(db, log[b].row)
  {
    CommitFact(log, looked, b);
    SenderThenAndNow(all, log, looked, places, b, db);
    LateIsNotNegative(log, looked, places, b, log[b].user);
    var to := FoundOne(log, looked, b);
    AtLeast(all, log, looked, places, b, log[b].req);
  }

  lemma EntryKeepsAll(all: map<UserId, User>, log: seq<Entry>, looked: seq<nat>, places: set<nat>, b: nat, db: Db)
    requires ReadyFor(all, log, looked, places, b, db) && BooksBalance(db)
    ensures Leaves(all, log, places + {b}, Effect(db, log[b])) && BooksBalance(Effect(db, log[b]))
  {
    match log[b] {
      case Registered(id, account) =>
        SignupAnswer(all, log, looked, places, b, db);
        InsertKeepsBooks(db, id, account);
      case Committed(_, _, _, _, row) =>
        CommitIsFunded(all, log, looked, places, b, db);
        SettleKeepsBooks(db, row);
      case Refused(_, _, _, _) =>
    }
    OneMoreLeaves(all, log, places, b, db);
  }

  /** What an order's first entries leave. */
  ghost predicate PrefixLeaves(all: map<UserId, User>, log: seq<Entry>, order: seq<nat>, p: nat)
    requires p <= |order|
  {
    var db := Replay(Listed(log, order[..p]));
    Leaves(all, log, Elements(order[..p]), db) && BooksBalance(db)
  }

  lemma ReplayListed(log: seq<Entry>, order: seq<nat>, p: nat)
    requires p < |order| && order[p] < |log|
    ensures Replay(Listed(log, order[..p + 1])) == Effect(Replay(Listed(log, order[..p])), log[order[p]])
    ensures Elements(order[..p + 1]) == Elements(order[..p]) + {order[p]}
  {
    assert order[..p + 1] == order[..p] + [order[p]];
    FlatMapAppend(EntryOf(log), order[..p], order[p]);
    var front := Listed(log, order[..p]);
    assert (front + [log[order[p]]])[..|front|] == front;
  }

  lemma NextLeaves(all: map<UserId, User>, log: seq<Entry>, looked: seq<nat>, order: seq<nat>, p: nat)
    requires Sound(all, log, looked) && IsOrder(log, looked, order) && p < |order| && PrefixLeaves(all, log, order, p)
    ensures PrefixLeaves(all, log, order, p + 1)
  {
    CutAt(log, looked, order, p);
    ReplayListed(log, order, p);
    EntryKeepsAll(all, log, looked, Elements(order[..p]), order[p], Replay(Listed(log, order[..p])));
  }

  lemma NoneListed(all: map<UserId, User>, log: seq<Entry>, order: seq<nat>)
    ensures PrefixLeaves(all, log, order, 0)
  {
    assert order[..0] == [] && Elements([]) == {};
    StartLeaves(all, log);
  }

  lemma OrderLeaves(all: map<UserId, User>, log: seq<Entry>, looked: seq<nat>, order: seq<nat>, p: nat)
    requires Sound(all, log, looked) && IsOrder(log, looked, order) && p <= |order|
    ensures PrefixLeaves(all, log, order, p)
  {
    NoneListed(all, log, order);
    for q := 0 to p
      invariant PrefixLeaves(all, log, order, q)
    {
      NextLeaves(all, log, looked, order, q);
    }
  }
}
