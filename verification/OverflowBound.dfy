/** The bound of `Serialisability.NoCreditOverflowed` is exact: with one user more, some run makes a
    credit fail for want of range. */
module OverflowBound {
  import opened Collections
  import opened Text
  import opened Bank
  import opened Runs
  import opened Transfers
  import opened TransferWitnesses

  lemma {:induction false} DecimalIsInjective(a: nat, b: nat)
    requires Decimal(a) == Decimal(b)
    ensures a == b
    decreases a + b
  {
    var d := Decimal(a);
    assert DigitOf(a % 10) == d[|d| - 1] == DigitOf(b % 10);
    if a >= 10 && b >= 10 {
      assert Decimal(a / 10) == d[..|d| - 1] == Decimal(b / 10);
      DecimalIsInjective(a / 10, b / 10);
    }
  }

  /** The balances of `n` users after users 1 to `k` - 1 have sent all they had to user 0. */
  function BalanceAfter(id: UserId, k: nat): int {
    if id == 0 then INITIAL_BALANCE * k else if id < k then 0 else INITIAL_BALANCE
  }

  function Person(id: UserId, balance: int): User {
    User(Decimal(id), Decimal(id), "", "", balance)
  }

  function Crowd(n: nat, k: nat): map<UserId, User> {
    map id: UserId | 0 <= id < n :: Person(id, BalanceAfter(id, k))
  }

  const ALL_TO_ZERO: Request := Request(INITIAL_BALANCE, "0", "")

  lemma ZeroIsSelected(n: nat, k: nat)
    requires n >= 1
    ensures Refusal(ALL_TO_ZERO).None? && Candidates(Crowd(n, k), ALL_TO_ZERO) == {0}
  {
    assert Strip("0") == "0" && Strip("") == "";
    assert Decimal(0) == "0";
    forall id | id in Candidates(Crowd(n, k), ALL_TO_ZERO) ensures id == 0 {
      DecimalIsInjective(id, 0);
    }
    assert 0 in Candidates(Crowd(n, k), ALL_TO_ZERO);
  }

  lemma {:induction false} CrowdRegisters(n: nat) returns (s: State)
    ensures Reachable(s) && s.db.users == Crowd(n, 1) && s.live == map[] && s.begun == {}
  {
    if n == 0 {
      s := INITIAL;
      IsThere(Next, INITIAL);
    } else {
      s := CrowdRegisters(n - 1);
      var last := Person(n - 1, INITIAL_BALANCE);
      forall id | id in s.db.users
        ensures s.db.users[id].phone != last.phone && s.db.users[id].accountNumber != last.accountNumber
      {
        if Decimal(id) == Decimal(n - 1) {
          DecimalIsInjective(id, n - 1);
        }
      }
      s := StepsReach(s, Register(n - 1, last));
    }
  }

  /** User `k` is about to send everything to user 0. */
  lemma ToLastStep(s: State, n: nat, k: nat) returns (after: State)
    requires Reachable(s) && 1 <= k < n && s.db.users == Crowd(n, k) && s.live == map[] && k !in s.begun
    ensures Reachable(after) && after.db == s.db && after.begun == s.begun + {k}
    ensures after.live == map[k := Txn(k, ALL_TO_ZERO, map[k := s.db.users[k], 0 := s.db.users[0]], Chosen(0))]
  {
    ZeroIsSelected(n, k);
    after := ScanOne(s, k, k, ALL_TO_ZERO, 0);
    after := LockOne(after, k, 0);
  }

  lemma SendAll(s: State, n: nat, k: nat) returns (after: State)
    requires Reachable(s) && 1 <= k < n && s.db.users == Crowd(n, k) && INITIAL_BALANCE * (k + 1) <= MAX_INTEGER
    requires s.live == map[k := Txn(k, ALL_TO_ZERO, map[k := s.db.users[k], 0 := s.db.users[0]], Chosen(0))]
    ensures Reachable(after) && after.db.users == Crowd(n, k + 1) && after.live == map[] && after.begun == s.begun
  {
    var sender, receiver := Person(k, INITIAL_BALANCE), Person(0, INITIAL_BALANCE * k);
    after := CommitReaches(s, k, 0, sender, receiver, ALL_TO_ZERO);
  }

  /** A lone handler that holds both rows, with funds and room, commits. */
  lemma CommitReaches(s: State, tx: TxId, to: UserId, sender: User, receiver: User, req: Request) returns (after: State)
    requires Reachable(s) && tx != to
    requires s.live == map[tx := Txn(tx, req, map[tx := sender, to := receiver], Chosen(to))]
    requires tx in s.db.users && to in s.db.users
    requires req.amount <= sender.balance && receiver.balance + req.amount <= MAX_INTEGER
    ensures Reachable(after) && after.live == map[] && after.begun == s.begun
    ensures after.db.users == WriteBalance(WriteBalance(s.db.users, tx, sender.balance - req.amount),
                                           to, receiver.balance + req.amount)
  {
    after := StepsReach(s, Decide(tx));
  }

  lemma {:induction false} Concentrate(n: nat, k: nat) returns (s: State)
    requires 1 <= k < n && INITIAL_BALANCE * k <= MAX_INTEGER
    ensures Reachable(s) && s.db.users == Crowd(n, k) && s.live == map[] && forall tx :: tx in s.begun ==> tx < k
  {
    if k == 1 {
      s := CrowdRegisters(n);
    } else {
      s := Concentrate(n, k - 1);
      s := ToLastStep(s, n, k - 1);
      s := SendAll(s, n, k - 1);
    }
  }

  /** For every number of users beyond the bound there is a run in which a transfer between two users,
      one of them able to pay, fails for want of range. */
  lemma BoundIsExact(n: nat) returns (s: State, tx: TxId)
    requires INITIAL_BALANCE * n > MAX_INTEGER
    ensures Reachable(s) && |s.db.users| == n && Enabled(s, Decide(tx))
    ensures var t := s.live[tx];
            Decision(t.user, t.held[t.user], t.phase.receiver, t.held[t.phase.receiver], t.req.amount)
            == Raised(OutOfRange)
  {
    tx := MAX_INTEGER / INITIAL_BALANCE;
    s := Concentrate(n, tx);
    s := ToLastStep(s, n, tx);
    CrowdSize(n, tx);
  }

  lemma {:induction false} CrowdSize(n: nat, k: nat)
    ensures |Crowd(n, k)| == n
  {
    if n > 0 {
      CrowdSize(n - 1, k);
      assert Crowd(n, k).Keys == Crowd(n - 1, k).Keys + {n - 1};
      assert |Crowd(n - 1, k).Keys| == |Crowd(n - 1, k)| && |Crowd(n, k).Keys| == |Crowd(n, k)|;
    }
  }
}
