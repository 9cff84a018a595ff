/** Serialisability of requests, by account number or by name: what orders within the windows explain. */
module WindowOrder {
  import opened Collections
  import opened Bank
  import opened Transfers
  import opened Serialisability
  import opened Windows
  import opened Places
  import opened Orders

  lemma RecordedIsSound(h: History)
    requires Recorded(h)
    ensures Sound(h.s.db.users, h.s.log, h.looked) && Explained(h.s.log)
    ensures Replay(h.s.log) == h.s.db && BooksBalance(h.s.db)
  {
    var all, log := h.s.db.users, h.s.log;
    RecordedFits(h);
    RecordedIsReachable(h);
    ReachableInv(h.s);
    LogEnrols(log);
    PartiesKnown(log);
    forall n | 0 <= n <= |log| ensures LeavesAt(all, log, n) {
      LogLeaves(all, log, n);
    }
  }

  /** The entries of a run in another order, each request within its window. */
  ghost predicate Reorders(h: History, order: seq<nat>) {
    |h.looked| == |h.s.log| && IsOrder(h.s.log, h.looked, order)
  }

  ghost function InOrder(h: History, order: seq<nat>): seq<Entry> { Listed(h.s.log, order) }

  lemma InOrderAt(h: History, order: seq<nat>, p: nat)
    requires Reorders(h, order) && p <= |order|
    ensures |InOrder(h, order)| == |order| && InOrder(h, order)[..p] == InOrder(h, order[..p])
    ensures p < |order| ==> InOrder(h, order)[p] == h.s.log[order[p]]
  {
    ListedAt(h.s.log, order, p);
  }

  lemma BooksHaveRoom(db: Db, all: map<UserId, User>)
    requires BooksBalance(db) && db.users.Keys <= all.Keys && INITIAL_BALANCE * |all| <= MAX_INTEGER
    ensures HasRoom(db.users)
  {
    SubsetIsSmaller(db.users.Keys, all.Keys);
    assert |db.users.Keys| == |db.users| && |all.Keys| == |all|;
  }

  lemma NoneWasOutOfRange(h: History, b: nat)
    requires Recorded(h) && INITIAL_BALANCE * |h.s.db.users| <= MAX_INTEGER
    requires b < |h.s.log| && h.s.log[b].Refused?
    ensures h.s.log[b].outcome != Raised(OutOfRange)
  {
    RecordedIsReachable(h);
    NoCreditOverflowed(h.s);
  }

  /** Entry by entry: at its place in the order the request alone gets the answer that it got, unless its receiver's
      name has several bearers there or it is overtaken there. */
  lemma AnswerAtPlace(h: History, order: seq<nat>, p: nat)
    requires Recorded(h) && INITIAL_BALANCE * |h.s.db.users| <= MAX_INTEGER
    requires Reorders(h, order) && p < |order|
    ensures var before, b, done := Replay(InOrder(h, order[..p])), order[p], Elements(order[..p]);
            && (AsIfAlone(before, h.s.log[b]) <==>
                !Blurred(h.s.db.users, h.s.log, done, b) && !Overtaken(h.s.log, done, b))
            && AnswerTells(before, h.s.log[b])
  {
    RecordedIsSound(h);
    OrderLeaves(h.s.db.users, h.s.log, h.looked, order, p);
    CutAt(h.s.log, h.looked, order, p);
    var before := Replay(InOrder(h, order[..p]));
    BooksHaveRoom(before, h.s.db.users);
    if h.s.log[order[p]].Refused? {
      NoneWasOutOfRange(h, order[p]);
    }
    AnswerInCut(h.s.db.users, h.s.log, h.looked, Elements(order[..p]), order[p], before);
  }

  /** The p-th is not where its answer would be another. */
  ghost predicate ClearAt(h: History, order: seq<nat>, p: nat)
    requires Reorders(h, order) && p < |order|
  {
    var b, done := order[p], Elements(order[..p]);
    !Blurred(h.s.db.users, h.s.log, done, b) && !Overtaken(h.s.log, done, b)
  }

  ghost predicate AllClear(h: History, order: seq<nat>)
    requires Reorders(h, order)
  {
    forall p :: 0 <= p < |order| ==> ClearAt(h, order, p)
  }

  lemma AnswersTell(h: History, order: seq<nat>)
    requires Recorded(h) && INITIAL_BALANCE * |h.s.db.users| <= MAX_INTEGER && Reorders(h, order)
    ensures AllFit(InOrder(h, order), AnswerTells)
  {
    var entries := InOrder(h, order);
    InOrderAt(h, order, 0);
    forall p | 0 <= p < |entries| ensures AnswerTells(Replay(entries[..p]), entries[p]) {
      InOrderAt(h, order, p);
      AnswerAtPlace(h, order, p);
    }
    AllFitIf(entries, AnswerTells, |entries|);
    assert entries[..|entries|] == entries;
  }

  lemma AloneAt(h: History, order: seq<nat>, p: nat)
    requires Recorded(h) && INITIAL_BALANCE * |h.s.db.users| <= MAX_INTEGER && Reorders(h, order) && p < |order|
    ensures |InOrder(h, order)| == |order|
    ensures AsIfAlone(Replay(InOrder(h, order)[..p]), InOrder(h, order)[p]) <==> ClearAt(h, order, p)
  {
    InOrderAt(h, order, p);
    AnswerAtPlace(h, order, p);
  }

  lemma AloneIffClear(h: History, order: seq<nat>)
    requires Recorded(h) && INITIAL_BALANCE * |h.s.db.users| <= MAX_INTEGER && Reorders(h, order)
    ensures var entries := InOrder(h, order);
            (forall p :: 0 <= p < |entries| ==> AsIfAlone(Replay(entries[..p]), entries[p])) <==> AllClear(h, order)
  {
    var entries := InOrder(h, order);
    InOrderAt(h, order, 0);
    forall p | 0 <= p < |order| ensures AsIfAlone(Replay(entries[..p]), entries[p]) <==> ClearAt(h, order, p) {
      AloneAt(h, order, p);
    }
  }

  // ----- the tables

  /** The same users; the same transfer and notification rows, perhaps in another order. */
  ghost predicate SameTables(a: Db, b: Db) {
    a.users == b.users && multiset(a.transfers) == multiset(b.transfers)
    && multiset(a.notifications) == multiset(b.notifications)
  }

  ghost function NotesFor(users: map<UserId, User>, t: Transfer): seq<Notification> {
    if KnownParties(users, t) then [SentNote(users, t), ReceivedNote(users, t)] else []
  }

  ghost function Notes(users: map<UserId, User>): Transfer -> seq<Notification> {
    (t: Transfer) => NotesFor(users, t)
  }

  /** The k-th pair of notes. */
  function PairAt(notes: seq<Notification>, k: nat): seq<Notification>
    requires 2 * k + 1 < |notes|
  {
    [notes[2 * k], notes[2 * k + 1]]
  }

  lemma {:induction false} PairsAreNotes(users: map<UserId, User>, ts: seq<Transfer>, notes: seq<Notification>)
    requires |notes| == 2 * |ts| && forall k :: 0 <= k < |ts| ==> PairAt(notes, k) == NotesFor(users, ts[k])
    ensures notes == FlatMap(Notes(users), ts)
    decreases |ts|
  {
    if ts != [] {
      var n := |ts| - 1;
      var front := notes[..2 * n];
      forall k | 0 <= k < n ensures PairAt(front, k) == NotesFor(users, ts[..n][k]) {
        assert PairAt(notes, k) == NotesFor(users, ts[k]);
      }
      PairsAreNotes(users, ts[..n], front);
      assert notes == front + PairAt(notes, n);
    }
  }

  /** The notification table is the transfers' notes. */
  lemma AllNotes(db: Db)
    requires RowsWellFormed(db) && NotesMatch(db)
    ensures db.notifications == FlatMap(Notes(db.users), db.transfers)
  {
    forall k | 0 <= k < |db.transfers| ensures PairAt(db.notifications, k) == NotesFor(db.users, db.transfers[k]) {
      assert WellFormedRow(db.users, db.transfers[k]);
    }
    PairsAreNotes(db.users, db.transfers, db.notifications);
  }

  lemma SameRowsSameTables(a: Db, b: Db)
    requires a.users == b.users && multiset(a.transfers) == multiset(b.transfers)
    requires a.notifications == FlatMap(Notes(a.users), a.transfers)
    requires b.notifications == FlatMap(Notes(b.users), b.transfers)
    ensures SameTables(a, b)
  {
    FlatMapPermutes(Notes(a.users), a.transfers, b.transfers);
  }

  ghost predicate RowsListed(entries: seq<Entry>) {
    Replay(entries).transfers == RowsOf(entries)
  }

  lemma OneMoreRow(entries: seq<Entry>, e: Entry)
    requires RowsListed(entries) && (e.Committed? ==> KnownParties(Replay(entries).users, e.row))
    ensures RowsListed(entries + [e])
  {
    FlatMapAppend(RowIn, entries, e);
    assert (entries + [e])[..|entries|] == entries;
  }

  lemma PartiesInOrder(h: History, order: seq<nat>, p: nat)
    requires Recorded(h) && Reorders(h, order) && p < |order| && h.s.log[order[p]].Committed?
    ensures KnownParties(Replay(InOrder(h, order[..p])).users, h.s.log[order[p]].row)
  {
    RecordedIsSound(h);
    OrderLeaves(h.s.db.users, h.s.log, h.looked, order, p);
    CutAt(h.s.log, h.looked, order, p);
    CommitIsFunded(h.s.db.users, h.s.log, h.looked, Elements(order[..p]), order[p], Replay(InOrder(h, order[..p])));
  }

  lemma NextRow(h: History, order: seq<nat>, p: nat)
    requires Recorded(h) && Reorders(h, order) && p < |order| && RowsListed(InOrder(h, order[..p]))
    ensures RowsListed(InOrder(h, order[..p + 1]))
  {
    if h.s.log[order[p]].Committed? {
      PartiesInOrder(h, order, p);
    }
    assert order[..p + 1] == order[..p] + [order[p]];
    FlatMapAppend(EntryOf(h.s.log), order[..p], order[p]);
    OneMoreRow(InOrder(h, order[..p]), h.s.log[order[p]]);
  }

  lemma RowsReplay(h: History, order: seq<nat>)
    requires Recorded(h) && Reorders(h, order)
    ensures Replay(InOrder(h, order)).transfers == RowsOf(InOrder(h, order))
  {
    assert order[..0] == [];
    for p := 0 to |order|
      invariant RowsListed(InOrder(h, order[..p]))
    {
      NextRow(h, order, p);
    }
    assert order[..|order|] == order;
  }

  lemma ListedAsIs(log: seq<Entry>)
    ensures Listed(log, Upto(|log|)) == log
  {
    var all := Upto(|log|);
    ListedAt(log, all, 0);
    forall k | 0 <= k < |log| ensures Listed(log, all)[k] == log[k] {
      ListedAt(log, all, k);
    }
  }

  lemma SameEntries(h: History, order: seq<nat>)
    requires Reorders(h, order)
    ensures multiset(InOrder(h, order)) == multiset(h.s.log)
  {
    var log := h.s.log;
    UptoIsPermutation(|log|);
    PermutationsAgree(order, Upto(|log|), |log|);
    FlatMapPermutes(EntryOf(log), order, Upto(|log|));
    ListedAsIs(log);
  }

  lemma AllListed(order: seq<nat>, n: nat)
    requires IsPermutation(order, n)
    ensures Elements(order) == First(n)
  {
  }

  lemma WholeLog(log: seq<Entry>, order: seq<nat>)
    ensures log[..|log|] == log && order[..|order|] == order
  {
  }

  lemma SameUsersInTheEnd(h: History, order: seq<nat>)
    requires Recorded(h) && Reorders(h, order)
    ensures Replay(InOrder(h, order)).users == h.s.db.users && BooksBalance(Replay(InOrder(h, order)))
  {
    var all, log := h.s.db.users, h.s.log;
    RecordedIsSound(h);
    OrderLeaves(all, log, h.looked, order, |order|);
    WholeLog(log, order);
    AllListed(order, |log|);
    UsersThen(all, log, h.looked, |log|);
  }

  /** Replayed in any order within the windows, the entries leave the tables as they are. */
  lemma OrdersRebuild(h: History, order: seq<nat>)
    requires Recorded(h) && Reorders(h, order)
    ensures SameTables(Replay(InOrder(h, order)), h.s.db)
  {
    SameUsersInTheEnd(h, order);
    RowsReplay(h, order);
    SameEntries(h, order);
    RecordedIsReachable(h);
    TransfersTableIsCommitted(h.s);
    LedgerHolds(h.s);
    FlatMapPermutes(RowIn, InOrder(h, order), h.s.log);
    AllNotes(Replay(InOrder(h, order)));
    AllNotes(h.s.db);
    SameRowsSameTables(Replay(InOrder(h, order)), h.s.db);
  }

  // ----- which orders explain the answers

  /** An order within the windows explains the answer of every request, and with them the tables, if and only if nobody
      comes when its receiver's name has several bearers, and no refusal for want of funds is overtaken. */
  lemma OrderIsSerialIff(h: History, order: seq<nat>)
    requires Recorded(h) && INITIAL_BALANCE * |h.s.db.users| <= MAX_INTEGER && Reorders(h, order)
    ensures multiset(InOrder(h, order)) == multiset(h.s.log)
    ensures AnswersMatch(InOrder(h, order)) <==> AllClear(h, order)
    ensures AnswersMatch(InOrder(h, order)) ==> SameTables(OneAtATime(Calls(InOrder(h, order))), h.s.db)
  {
    SameEntries(h, order);
    AnswersTell(h, order);
    SerialIff(InOrder(h, order));
    AloneIffClear(h, order);
    OrdersRebuild(h, order);
  }

  // ----- which runs have an order that does

  /** How many users had the receiver's number or name that entry `k` asks for, when entry `b` looked up its own. */
  ghost function BearersThen(h: History, k: nat, b: nat): nat
    requires k < |h.s.log| && b < |h.looked| && h.looked[b] <= |h.s.log| && !h.s.log[k].Registered?
  {
    |Candidates(UsersAt(h.s.log, h.looked[b]), h.s.log[k].req)|
  }

  /** A transfer to `b`'s sender that was on its way when `b` was refused, and cannot be placed after it: by the time
      of `b`'s receiver statement its receiver's name had a second bearer, whom it did not see. */
  ghost predicate OnItsWay(h: History, b: nat, k: nat)
    requires b < |h.s.log| && b < |h.looked| && h.looked[b] <= |h.s.log| && !h.s.log[b].Registered?
  {
    b < k < |h.s.log| && h.s.log[k].Committed? && h.s.log[k].row.toUser == h.s.log[b].user && BearersThen(h, k, b) > 1
  }

  ghost function CreditOnItsWay(h: History, b: nat): nat -> int
    requires b < |h.s.log| && b < |h.looked| && h.looked[b] <= |h.s.log| && !h.s.log[b].Registered?
  {
    (k: nat) => if OnItsWay(h, b, k) then h.s.log[k].row.amount else 0
  }

  /** A refusal for want of funds that no order explains: with the credits on their way its sender could have paid. */
  ghost predicate Unexplainable(h: History, b: nat)
    requires b < |h.s.log|
  {
    && b < |h.looked| && h.looked[b] <= |h.s.log| && ShortOfFunds(h.s.log[b])
    && h.s.log[b].req.amount <= BalanceAt(h.s.log, b, h.s.log[b].user) + Tally(|h.s.log|, CreditOnItsWay(h, b))
  }

  ghost predicate NoneUnexplainable(h: History) {
    forall b :: 0 <= b < |h.s.log| ==> !Unexplainable(h, b)
  }

  lemma BlurredBySeen(all: map<UserId, User>, log: seq<Entry>, n: nat, k: nat, places: set<nat>)
    requires n <= |log| && UsersAt(log, n) == UsersOf(all, log, First(n)) && forall a :: 0 <= a < n ==> a in places
    requires k < |log| && log[k].Committed? && |Candidates(UsersAt(log, n), log[k].req)| > 1
    ensures Blurred(all, log, places, k)
  {
    MoreNewcomers(all, log, First(n), places, log[k].req);
    SubsetIsSmaller(Candidates(UsersAt(log, n), log[k].req), Candidates(UsersOf(all, log, places), log[k].req));
  }

  lemma SeenBefore(log: seq<Entry>, looked: seq<nat>, order: seq<nat>, p: nat, q: nat)
    requires WindowsFit(log, looked) && IsOrder(log, looked, order) && p <= q < |order|
    ensures forall a :: 0 <= a < looked[order[p]] ==> a in Elements(order[..q])
  {
    CutAt(log, looked, order, p);
    forall a | 0 <= a < looked[order[p]] ensures a in Elements(order[..q]) {
      assert a in Elements(order[..p]);
      var i :| 0 <= i < p && order[..p][i] == a;
      assert order[..q][i] == a;
    }
  }

  /** In an order that explains all, such a credit comes before the refusal. */
  lemma ComesBefore(h: History, order: seq<nat>, p: nat, q: nat)
    requires Sound(h.s.db.users, h.s.log, h.looked) && Reorders(h, order) && AllClear(h, order)
    requires p < |order| && q < |order| && !h.s.log[order[p]].Registered? && h.looked[order[p]] <= |h.s.log|
    requires OnItsWay(h, order[p], order[q])
    ensures q < p
  {
    if p <= q {
      var n := h.looked[order[p]];
      SeenBefore(h.s.log, h.looked, order, p, q);
      UsersThen(h.s.db.users, h.s.log, h.looked, n);
      assert ClearAt(h, order, q);
      BlurredBySeen(h.s.db.users, h.s.log, n, order[q], Elements(order[..q]));
    }
  }

  lemma CreditIsLate(h: History, order: seq<nat>, p: nat, k: nat)
    requires Sound(h.s.db.users, h.s.log, h.looked) && Reorders(h, order) && AllClear(h, order)
    requires p < |order| && !h.s.log[order[p]].Registered? && h.looked[order[p]] <= |h.s.log| && k < |h.s.log|
    ensures CreditOnItsWay(h, order[p])(k)
            <= LateCredit(h.s.log, Elements(order[..p]), order[p], h.s.log[order[p]].user)(k)
  {
    if OnItsWay(h, order[p], k) {
      assert k in order;
      var q :| 0 <= q < |order| && order[q] == k;
      ComesBefore(h, order, p, q);
    } else if h.s.log[k].Committed? {
      CommitFact(h.s.log, h.looked, k);
    }
  }

  lemma OnItsWayIsLate(h: History, order: seq<nat>, p: nat)
    requires Sound(h.s.db.users, h.s.log, h.looked) && Reorders(h, order) && AllClear(h, order)
    requires p < |order| && !h.s.log[order[p]].Registered? && h.looked[order[p]] <= |h.s.log|
    ensures Tally(|h.s.log|, CreditOnItsWay(h, order[p]))
            <= LateCredits(h.s.log, Elements(order[..p]), order[p], h.s.log[order[p]].user)
  {
    var f := CreditOnItsWay(h, order[p]);
    var g := LateCredit(h.s.log, Elements(order[..p]), order[p], h.s.log[order[p]].user);
    forall k | 0 <= k < |h.s.log| ensures f(k) <= g(k) {
      CreditIsLate(h, order, p, k);
    }
    TallyAtMost(|h.s.log|, f, g);
  }

  lemma ClearMeansExplainable(h: History, order: seq<nat>)
    requires Recorded(h) && Reorders(h, order) && AllClear(h, order)
    ensures NoneUnexplainable(h)
  {
    RecordedIsSound(h);
    forall b | 0 <= b < |h.s.log| ensures !Unexplainable(h, b) {
      if Unexplainable(h, b) {
        assert b in order;
        var p :| 0 <= p < |order| && order[p] == b;
        assert ClearAt(h, order, p);
        OnItsWayIsLate(h, order, p);
      }
    }
  }

  // ----- refusals as early, and commits as late, as can be

  /** The last moment up to n at which at most one user had the number or name asked for. */
  ghost function LastClear(log: seq<Entry>, req: Request, n: nat): (l: nat)
    requires n <= |log|
    ensures l <= n && |Candidates(UsersAt(log, l), req)| <= 1
    ensures l < n ==> |Candidates(UsersAt(log, l + 1), req)| > 1
  {
    assert Candidates(UsersAt(log, 0), req) == {};
    if n == 0 || |Candidates(UsersAt(log, n), req)| <= 1 then n else LastClear(log, req, n - 1)
  }

  lemma {:induction false} LastClearFrom(log: seq<Entry>, req: Request, n: nat, l: nat)
    requires l <= n <= |log| && |Candidates(UsersAt(log, l), req)| <= 1
    ensures l <= LastClear(log, req, n)
  {
    if n != 0 && |Candidates(UsersAt(log, n), req)| > 1 {
      LastClearFrom(log, req, n - 1, l);
    }
  }

  /** Refusals come at their receiver statements, committed transfers as late as their receiver's name is clear. */
  ghost function Key(log: seq<Entry>, looked: seq<nat>): nat -> int {
    (k: nat) =>
      if k >= |log| || k >= |looked| then 0
      else if log[k].Registered? then 3 * k + 2
      else if log[k].Committed? then 3 * LastClear(log, log[k].req, k) + 1
      else 3 * looked[k]
  }

  lemma KeyInWindow(log: seq<Entry>, looked: seq<nat>, k: nat)
    requires WindowsFit(log, looked) && k < |log|
    ensures 3 * looked[k] <= Key(log, looked)(k) <= 3 * k + 2
  {
    assert WindowFits(log, looked[k], k);
    if log[k].Committed? {
      var to := FoundOne(log, looked, k);
      LastClearFrom(log, log[k].req, k, looked[k]);
    }
  }

  lemma SortedReorders(log: seq<Entry>, looked: seq<nat>, order: seq<nat>)
    requires WindowsFit(log, looked) && IsPermutation(order, |log|) && SortedBy(order, Key(log, looked))
    ensures IsOrder(log, looked, order)
  {
    forall i, j | 0 <= i < j < |order| ensures looked[order[i]] <= order[j] {
      KeyInWindow(log, looked, order[i]);
      KeyInWindow(log, looked, order[j]);
    }
  }

  /** Of the entries that come before the p-th, no key is greater. */
  lemma KeysBefore(order: seq<nat>, key: nat -> int, p: nat)
    requires SortedBy(order, key) && p < |order|
    ensures forall k :: k in Elements(order[..p]) ==> key(k) <= key(order[p])
  {
  }

  ghost predicate ComesEarlier(log: seq<Entry>, looked: seq<nat>, places: set<nat>, b: nat) {
    forall k :: k in places ==> Key(log, looked)(k) <= Key(log, looked)(b)
  }

  /** When a request's receiver name was still clear: at its receiver statement, or later if it committed. */
  ghost function ClearUntil(log: seq<Entry>, looked: seq<nat>, b: nat): nat
    requires b < |log| && b < |looked| && !log[b].Registered?
  {
    if log[b].Committed? then LastClear(log, log[b].req, b) else looked[b]
  }

  lemma FewBearers(log: seq<Entry>, looked: seq<nat>, b: nat)
    requires WindowsFit(log, looked) && b < |log| && Decided(log[b])
    ensures ClearUntil(log, looked, b) <= b && |Candidates(UsersAt(log, ClearUntil(log, looked, b)), log[b].req)| <= 1
  {
    var to := FoundOne(log, looked, b);
  }

  lemma SignupsBefore(log: seq<Entry>, looked: seq<nat>, places: set<nat>, b: nat)
    requires |looked| == |log| && b < |log| && !log[b].Registered? && ComesEarlier(log, looked, places, b)
    ensures forall k :: k in places && k < |log| && log[k].Registered? ==> k < ClearUntil(log, looked, b)
  {
    forall k | k in places && k < |log| && log[k].Registered? ensures k < ClearUntil(log, looked, b) {
      assert Key(log, looked)(k) == 3 * k + 2;
    }
  }

  lemma NotBlurred(all: map<UserId, User>, log: seq<Entry>, looked: seq<nat>, places: set<nat>, b: nat)
    requires Sound(all, log, looked) && Cut(log, looked, places, b) && ComesEarlier(log, looked, places, b)
    ensures !Blurred(all, log, places, b)
  {
    if Decided(log[b]) {
      var to := FoundOne(log, looked, b);
      var n, req := ClearUntil(log, looked, b), log[b].req;
      FewBearers(log, looked, b);
      SignupsBefore(log, looked, places, b);
      AtLeast(all, log, looked, places, b, req);
      MoreNewcomers(all, log, places, First(n), req);
      UsersThen(all, log, looked, n);
      OneInFew(Candidates(UsersOf(all, log, places), req), Candidates(UsersAt(log, n), req), to);
    }
  }

  lemma OneInFew(some: set<nat>, few: set<nat>, x: nat)
    requires x in some && some <= few && |few| <= 1
    ensures |some| == 1
  {
    SubsetIsSmaller(some, few);
    OnlyElement(some, x);
  }

  lemma BearersStay(all: map<UserId, User>, log: seq<Entry>, looked: seq<nat>, n: nat, m: nat, req: Request)
    requires Sound(all, log, looked) && n <= m <= |log|
    ensures |Candidates(UsersAt(log, n), req)| <= |Candidates(UsersAt(log, m), req)|
  {
    UsersThen(all, log, looked, n);
    UsersThen(all, log, looked, m);
    MoreNewcomers(all, log, First(n), First(m), req);
    SubsetIsSmaller(Candidates(UsersAt(log, n), req), Candidates(UsersAt(log, m), req));
  }

  /** Placed so, a credit that comes before a refusal although it committed later is one on its way. */
  lemma LateIsOnItsWay(h: History, places: set<nat>, b: nat, k: nat)
    requires Sound(h.s.db.users, h.s.log, h.looked) && b < k < |h.s.log| && k in places && h.looked[b] <= b
    requires ComesEarlier(h.s.log, h.looked, places, b) && h.s.log[b].Refused?
    requires h.s.log[k].Committed? && h.s.log[k].row.toUser == h.s.log[b].user
    ensures OnItsWay(h, b, k)
  {
    var n := LastClear(h.s.log, h.s.log[k].req, k);
    assert Key(h.s.log, h.looked)(k) <= Key(h.s.log, h.looked)(b);
    BearersStay(h.s.db.users, h.s.log, h.looked, n + 1, h.looked[b], h.s.log[k].req);
  }

  lemma LateCreditsOnTheirWay(h: History, places: set<nat>, b: nat)
    requires Sound(h.s.db.users, h.s.log, h.looked) && b < |h.s.log| && h.looked[b] <= b
    requires ComesEarlier(h.s.log, h.looked, places, b) && h.s.log[b].Refused?
    ensures LateCredits(h.s.log, places, b, h.s.log[b].user) <= Tally(|h.s.log|, CreditOnItsWay(h, b))
  {
    var f, g := LateCredit(h.s.log, places, b, h.s.log[b].user), CreditOnItsWay(h, b);
    forall k | 0 <= k < |h.s.log| ensures f(k) <= g(k) {
      if k in places && b < k && h.s.log[k].Committed? && h.s.log[k].row.toUser == h.s.log[b].user {
        LateIsOnItsWay(h, places, b, k);
      } else if h.s.log[k].Committed? {
        CommitFact(h.s.log, h.looked, k);
      }
    }
    TallyAtMost(|h.s.log|, f, g);
  }

  /** With each entry by its key, only a refusal that no order explains is where its answer would be another. */
  lemma ClearByKey(h: History, order: seq<nat>, p: nat)
    requires Sound(h.s.db.users, h.s.log, h.looked) && Reorders(h, order) && p < |order|
    requires SortedBy(order, Key(h.s.log, h.looked))
    ensures !Unexplainable(h, order[p]) ==> ClearAt(h, order, p)
  {
    var b, done := order[p], Elements(order[..p]);
    assert WindowFits(h.s.log, h.looked[b], b);
    CutAt(h.s.log, h.looked, order, p);
    KeysBefore(order, Key(h.s.log, h.looked), p);
    NotBlurred(h.s.db.users, h.s.log, h.looked, done, b);
    if h.s.log[b].Refused? {
      LateCreditsOnTheirWay(h, done, b);
    }
  }

  lemma OrderByKey(h: History) returns (order: seq<nat>)
    requires Recorded(h)
    ensures Sound(h.s.db.users, h.s.log, h.looked) && Reorders(h, order) && SortedBy(order, Key(h.s.log, h.looked))
  {
    RecordedIsSound(h);
    order := SortedPermutation(|h.s.log|, Key(h.s.log, h.looked));
    SortedReorders(h.s.log, h.looked, order);
  }

  /** Some order within the windows explains every answer. */
  ghost predicate IsSerialisable(h: History) {
    exists order :: Reorders(h, order) && AnswersMatch(InOrder(h, order))
  }

  /** All answers of a run, refusals included, are those of its requests made alone one at a time in some order
      within their windows, if and only if no refusal for want of funds has credits on their way that
      would have paid. */
  lemma SerialisableIff(h: History)
    requires Recorded(h) && INITIAL_BALANCE * |h.s.db.users| <= MAX_INTEGER
    ensures IsSerialisable(h) <==> NoneUnexplainable(h)
  {
    if NoneUnexplainable(h) {
      var order := OrderByKey(h);
      forall p | 0 <= p < |order| ensures ClearAt(h, order, p) {
        ClearByKey(h, order, p);
      }
      OrderIsSerialIff(h, order);
    } else if IsSerialisable(h) {
      var order :| Reorders(h, order) && AnswersMatch(InOrder(h, order));
      OrderIsSerialIff(h, order);
      ClearMeansExplainable(h, order);
    }
  }

  /** Commit order is one of these orders. */
  lemma CommitOrderIsOne(h: History)
    requires Recorded(h)
    ensures Reorders(h, Upto(|h.s.log|)) && InOrder(h, Upto(|h.s.log|)) == h.s.log
  {
    var log := h.s.log;
    RecordedIsSound(h);
    UptoIsPermutation(|log|);
    ListedAsIs(log);
    forall j | 0 <= j < |log| ensures h.looked[j] <= j {
      assert WindowFits(log, h.looked[j], j);
    }
    forall i, j | 0 <= i < j < |log| ensures h.looked[Upto(|log|)[i]] <= Upto(|log|)[j] {
      assert h.looked[i] <= i;
    }
  }

  /** So if all receivers are given by account number, or no name gets a second bearer in time, all is explained. */
  lemma UnambiguousIsSerialisable(h: History)
    requires Recorded(h) && Unambiguous(h.s.log)
    ensures IsSerialisable(h)
  {
    RecordedIsReachable(h);
    CommitOrderIsSerialIff(h.s);
    CommitOrderIsOne(h);
  }

  // ----- what took effect

  function KeepEffect(e: Entry): seq<Entry> { if e.Refused? then [] else [e] }

  /** The registrations and the committed transfers among the entries. */
  function Effects(log: seq<Entry>): seq<Entry> { FlatMap(KeepEffect, log) }

  lemma {:induction false} RefusalsLeaveNothing(log: seq<Entry>)
    ensures Replay(Effects(log)) == Replay(log)
    decreases |log|
  {
    if log != [] {
      var front, last := log[..|log| - 1], log[|log| - 1];
      RefusalsLeaveNothing(front);
      if last.Refused? {
        assert Effects(front) + [] == Effects(front);
      } else {
        assert (Effects(front) + [last])[..|Effects(front)|] == Effects(front);
      }
    }
  }

  lemma EffectIsAlone(order: seq<Entry>, i: nat) returns (j: nat)
    requires i < |Effects(order)|
    ensures j < |order| && order[j] == Effects(order)[i] && !order[j].Refused?
    ensures Replay(Effects(order)[..i]) == Replay(order[..j])
  {
    j := FlatMapAt(KeepEffect, order, i);
    assert KeepEffect(order[j]) == [Effects(order)[i]];
    RefusalsLeaveNothing(order[..j]);
  }

  lemma UnlessShortIsAlone(h: History, order: seq<nat>, p: nat)
    requires Recorded(h) && INITIAL_BALANCE * |h.s.db.users| <= MAX_INTEGER
    requires Reorders(h, order) && SortedBy(order, Key(h.s.log, h.looked)) && p < |order| && !h.s.log[order[p]].Refused?
    ensures |InOrder(h, order)| == |order|
    ensures AsIfAlone(Replay(InOrder(h, order)[..p]), InOrder(h, order)[p])
  {
    RecordedIsSound(h);
    ClearByKey(h, order, p);
    AloneAt(h, order, p);
  }

  /** Serialisability, for requests by account number and by name alike: all registrations and committed transfers
      of a run, made alone one at a time in a certain order, get the same answers and leave the same tables. */
  lemma Serialisable(s: State) returns (order: seq<Entry>)
    requires Reachable(s) && INITIAL_BALANCE * |s.db.users| <= MAX_INTEGER
    ensures multiset(order) == multiset(Effects(s.log))
    ensures AnswersMatch(order) && SameTables(OneAtATime(Calls(order)), s.db)
  {
    var h := ReachableIsRecorded(s);
    var places := OrderByKey(h);
    var entries := InOrder(h, places);
    InOrderAt(h, places, 0);
    SameEntries(h, places);
    order := Effects(entries);
    FlatMapPermutes(KeepEffect, entries, s.log);
    forall i | 0 <= i < |order| ensures AsIfAlone(Replay(order[..i]), order[i]) {
      var j := EffectIsAlone(entries, i);
      InOrderAt(h, places, j);
      UnlessShortIsAlone(h, places, j);
    }
    AloneIsSerial(order);
    RefusalsLeaveNothing(entries);
    OrdersRebuild(h, places);
  }
}
