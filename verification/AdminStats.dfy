/** The five admin counters.  Each is a statement of its own under READ COMMITTED, so
    each may see a later state of a run of `Transfers` than the one before. */
module AdminStats {
  import opened Collections
  import opened Bank
  import opened Runs
  import opened Transfers
  import Serial = Serialisability

  datatype Stats = Stats(users: nat, balance: int, transfers: nat, transferAmount: int, notifications: nat)

  function AmountOf(ts: seq<Transfer>): int {
    if ts == [] then 0 else AmountOf(ts[..|ts| - 1]) + ts[|ts| - 1].amount
  }

  /** The counters, read one after another from the states the five statements see. */
  ghost function ReadStats(a: Db, b: Db, c: Db, d: Db, e: Db): Stats {
    Stats(|a.users|, TotalBalance(b.users), |c.transfers|, AmountOf(d.transfers), |e.notifications|)
  }

  /** `after` is a state that a run passes through at or after `s`. */
  ghost predicate LaterThan(s: State, after: State) { LeadsTo(Next, s, after) }

  ghost predicate DbGrew(before: Db, after: Db) {
    before.users.Keys <= after.users.Keys && before.transfers <= after.transfers
  }

  lemma LaterGrew(s: State, after: State)
    requires LaterThan(s, after)
    ensures DbGrew(s.db, after.db)
  {
    var inv := (x: State) => DbGrew(s.db, x.db);
    assert StepsKeep(Next, inv);
    LeadsToKept(Next, inv, s, after);
  }

  lemma LaterHolds(s: State, after: State)
    requires Reachable(s) && LaterThan(s, after)
    ensures Reachable(after) && RowsWellFormed(after.db) && NotesMatch(after.db)
    ensures TotalBalance(after.db.users) == INITIAL_BALANCE * |after.db.users|
  {
    LeadsFurther(Next, INITIAL, s, after);
    Serial.LedgerHolds(after);
  }

  lemma CountsGrew(before: Db, after: Db)
    requires DbGrew(before, after)
    ensures |before.users| <= |after.users|
    ensures |before.users| == |after.users| <==> before.users.Keys == after.users.Keys
    ensures |before.transfers| <= |after.transfers|
    ensures |before.transfers| == |after.transfers| <==> before.transfers == after.transfers
  {
    SizesTell(before.users.Keys, after.users.Keys);
    assert |before.users.Keys| == |before.users| && |after.users.Keys| == |after.users|;
  }

  lemma {:induction false} AmountsAreAtLeastOne(users: map<UserId, User>, ts: seq<Transfer>)
    requires forall i :: 0 <= i < |ts| ==> WellFormedRow(users, ts[i])
    ensures AmountOf(ts) >= |ts|
  {
    if ts != [] {
      AmountsAreAtLeastOne(users, ts[..|ts| - 1]);
      assert WellFormedRow(users, ts[|ts| - 1]);
    }
  }

  ghost function SentBy(users: map<UserId, User>, ts: seq<Transfer>): map<UserId, int> {
    map id | id in users :: Sent(ts, id)
  }

  /** The transferred amount is what all users together have sent. */
  lemma {:induction false} AmountIsSent(users: map<UserId, User>, ts: seq<Transfer>)
    requires forall i :: 0 <= i < |ts| ==> ts[i].fromUser in users
    ensures AmountOf(ts) == Sum(SentBy(users, ts))
  {
    if ts == [] {
      NothingSent(SentBy(users, ts));
    } else {
      var front, last := ts[..|ts| - 1], ts[|ts| - 1];
      AmountIsSent(users, front);
      assert SentBy(users, ts) == SentBy(users, front)[last.fromUser := Sent(front, last.fromUser) + last.amount];
      SumAfterUpdate(SentBy(users, front), last.fromUser, Sent(front, last.fromUser) + last.amount);
    }
  }

  lemma {:induction false} NothingSent(m: map<nat, int>)
    requires forall id :: id in m ==> m[id] == 0
    ensures Sum(m) == 0
    decreases |m|
  {
    if m != map[] {
      NothingSent(m - {PickOne(m.Keys)});
    }
  }

  /** However the commits fall between the five statements, the counters keep their order; and the two
      outer ones are exact if and only if nobody registered between the first two, and no transfer
      committed between the third and the fifth. */
  lemma CountersStayOrdered(a: State, b: State, c: State, d: State, e: State)
    requires Reachable(a) && LaterThan(a, b) && LaterThan(b, c) && LaterThan(c, d) && LaterThan(d, e)
    ensures var stats := ReadStats(a.db, b.db, c.db, d.db, e.db);
            && stats.balance >= INITIAL_BALANCE * stats.users
            && stats.transferAmount >= stats.transfers
            && stats.transferAmount == Sum(SentBy(d.db.users, d.db.transfers))
            && stats.notifications >= 2 * stats.transfers
            && (stats.balance == INITIAL_BALANCE * stats.users <==> b.db.users.Keys == a.db.users.Keys)
            && (stats.notifications == 2 * stats.transfers <==> e.db.transfers == c.db.transfers)
  {
    LaterHolds(a, b);
    LaterHolds(b, c);
    LaterHolds(c, d);
    LaterHolds(d, e);
    LaterGrew(a, b);
    LaterGrew(c, d);
    LaterGrew(d, e);
    CountsGrew(a.db, b.db);
    CountsGrew(c.db, d.db);
    assert DbGrew(c.db, e.db);
    CountsGrew(c.db, e.db);
    AmountsAreAtLeastOne(d.db.users, d.db.transfers);
    forall i | 0 <= i < |d.db.transfers| ensures d.db.transfers[i].fromUser in d.db.users {
      assert WellFormedRow(d.db.users, d.db.transfers[i]);
    }
    AmountIsSent(d.db.users, d.db.transfers);
  }
}
