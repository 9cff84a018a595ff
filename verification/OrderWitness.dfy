/** A run that no order of its requests explains, within their windows or not. */
module OrderWitness {
  import opened Collections
  import opened Text
  import opened Bank
  import opened Transfers
  import opened Serialisability
  import opened TransferWitnesses

  /** What user 2 asks for: one more than the opening balance, for user 3. */
  const TOO_MUCH := Request(INITIAL_BALANCE + 1, "3", "")

  function Base(id: UserId): User {
    if id == 1 then AN else if id == 2 then BINH else OTHER_BINH
  }

  const CREDIT := Committed(10, 1, TO_BINH_BY_NAME, Replied(DoneReply(AN, BINH, 1)), Transfer(1, 2, 1))
  const REFUSAL := Refused(20, 2, TOO_MUCH, Replied(INSUFFICIENT_BALANCE))

  const LOG := [Registered(1, AN), Registered(2, BINH), Registered(3, OTHER_BINH), REFUSAL, CREDIT]

  // ----- the run

  lemma CreditOnItsWay() returns (s: State)
    ensures Reachable(s) && s.db == Db(map[1 := AN, 2 := BINH, 3 := OTHER_BINH], [], [])
    ensures s.log == LOG[..3] && s.begun == {10}
    ensures s.live == map[10 := Txn(1, TO_BINH_BY_NAME, map[1 := AN], Scanning([2], []))]
  {
    s := TwoUsers();
    s := ScanOne(s, 10, 1, TO_BINH_BY_NAME, 2);
    s := StepsReach(s, Register(3, OTHER_BINH));
  }

  lemma SecondOneAsks() returns (s: State)
    ensures Reachable(s) && s.db == Db(map[1 := AN, 2 := BINH, 3 := OTHER_BINH], [], []) && s.log == LOG[..3]
    ensures s.live == map[10 := Txn(1, TO_BINH_BY_NAME, map[1 := AN], Scanning([2], [])),
                          20 := Txn(2, TOO_MUCH, map[2 := BINH, 3 := OTHER_BINH], Chosen(3))]
  {
    s := CreditOnItsWay();
    s := ScanOne(s, 20, 2, TOO_MUCH, 3);
    s := LockOne(s, 20, 3);
  }

  lemma RefusedMeanwhile() returns (s: State)
    ensures Reachable(s) && s.db == Db(map[1 := AN, 2 := BINH, 3 := OTHER_BINH], [], [])
    ensures s.log == LOG[..4]
    ensures s.live == map[10 := Txn(1, TO_BINH_BY_NAME, map[1 := AN], Scanning([2], []))]
  {
    s := SecondOneAsks();
    s := StepsReach(s, Decide(20));
  }

  lemma CreditedAfterwards() returns (s: State)
    ensures Reachable(s) && s.log == LOG && s.db.users.Keys == {1, 2, 3}
  {
    s := RefusedMeanwhile();
    s := LockOne(s, 10, 2);
    s := StepsReach(s, Decide(10));
  }

  // ----- no order explains it

  ghost predicate OwnColumns(users: map<UserId, User>) {
    forall id :: id in users ==> 1 <= id <= 3 && users[id] == Base(id).(balance := users[id].balance)
  }

  function Signup(id: UserId): Entry { Registered(id, Base(id)) }

  /** Users bear their own columns, those registered so far are there, and user 2 has what it should. */
  ghost predicate Plausible(before: seq<Entry>, users: map<UserId, User>) {
    && OwnColumns(users)
    && (forall id :: 1 <= id <= 3 ==> (id in users <==> Signup(id) in before))
    && (CREDIT in before ==> 2 in users)
    && (2 in users ==> users[2].balance >= if CREDIT in before then INITIAL_BALANCE + 1 else INITIAL_BALANCE)
  }

  /** The answer to the credit tells that user 2 is there and user 3 is not. */
  lemma CreditTells(db: Db)
    requires OwnColumns(db.users) && TransferAlone(db, 1, TO_BINH_BY_NAME).1 == CREDIT.outcome
    ensures 1 in db.users && 2 in db.users && 3 !in db.users
    ensures TransferAlone(db, 1, TO_BINH_BY_NAME).0 == Settle(db, Transfer(1, 2, 1))
  {
    var rows := Candidates(db.users, TO_BINH_BY_NAME);
    assert 3 in db.users ==> 3 in rows;
  }

  /** The refusal tells that user 3 is there and user 2 has no more than at the start. */
  lemma RefusalTells(db: Db)
    requires OwnColumns(db.users) && TransferAlone(db, 2, TOO_MUCH).1 == REFUSAL.outcome
    ensures 2 in db.users && 3 in db.users && db.users[2].balance <= INITIAL_BALANCE
    ensures TransferAlone(db, 2, TOO_MUCH).0 == db
  {
  }

  const FIVE := [Signup(1), Signup(2), Signup(3), REFUSAL, CREDIT]

  lemma OneOfFive(order: seq<Entry>, n: nat)
    requires multiset(order) == multiset(LOG) && n < |order|
    ensures order[n] in FIVE && (order[n].Registered? ==> order[n] !in order[..n])
  {
    assert order[n] in multiset(LOG);
  }

  lemma SignupIsPlausible(before: seq<Entry>, db: Db, id: UserId)
    requires Plausible(before, db.users) && 1 <= id <= 3 && Signup(id) !in before
    ensures Plausible(before + [Signup(id)], Insert(db, id, Base(id)).users)
  {
  }

  lemma StepIsPlausible(before: seq<Entry>, db: Db, e: Entry)
    requires Plausible(before, db.users) && e in FIVE && (e.Registered? ==> e !in before)
    requires !e.Registered? ==> TransferAlone(db, e.user, e.req).1 == e.outcome
    ensures Plausible(before + [e], RunAlone(db, CallOf(e)).users)
  {
    if e == CREDIT {
      CreditTells(db);
    } else if e == REFUSAL {
      RefusalTells(db);
    } else {
      SignupIsPlausible(before, db, e.id);
    }
  }

  lemma NextIsPlausible(order: seq<Entry>, n: nat)
    requires n < |order| && order[n] in FIVE && (order[n].Registered? ==> order[n] !in order[..n])
    requires !order[n].Registered? ==> AnswerAfter(order, n) == order[n].outcome
    requires Plausible(order[..n], OneAtATime(Calls(order)[..n]).users)
    ensures Plausible(order[..n + 1], OneAtATime(Calls(order)[..n + 1]).users)
  {
    StepIsPlausible(order[..n], OneAtATime(Calls(order)[..n]), order[n]);
    OneMoreCall(order, n);
    assert order[..n + 1] == order[..n] + [order[n]];
  }

  lemma {:induction false} PrefixIsPlausible(order: seq<Entry>, n: nat)
    requires multiset(order) == multiset(LOG) && AnswersMatch(order) && n <= |order|
    ensures Plausible(order[..n], OneAtATime(Calls(order)[..n]).users)
  {
    if n > 0 {
      PrefixIsPlausible(order, n - 1);
      OneOfFive(order, n - 1);
      NextIsPlausible(order, n - 1);
    }
  }

  lemma AtCredit(order: seq<Entry>, c: nat)
    requires multiset(order) == multiset(LOG) && AnswersMatch(order) && c < |order| && order[c] == CREDIT
    ensures Signup(3) !in order[..c]
  {
    PrefixIsPlausible(order, c);
    assert AnswerAfter(order, c) == CREDIT.outcome;
    CreditTells(OneAtATime(Calls(order)[..c]));
  }

  lemma AtRefusal(order: seq<Entry>, r: nat)
    requires multiset(order) == multiset(LOG) && AnswersMatch(order) && r < |order| && order[r] == REFUSAL
    ensures Signup(3) in order[..r] && CREDIT !in order[..r]
  {
    PrefixIsPlausible(order, r);
    assert AnswerAfter(order, r) == REFUSAL.outcome;
    RefusalTells(OneAtATime(Calls(order)[..r]));
  }

  lemma NoOrder(order: seq<Entry>)
    requires multiset(order) == multiset(LOG)
    ensures !AnswersMatch(order)
  {
    if AnswersMatch(order) {
      assert CREDIT in multiset(order) && REFUSAL in multiset(order);
      var c :| 0 <= c < |order| && order[c] == CREDIT;
      var r :| 0 <= r < |order| && order[r] == REFUSAL;
      AtCredit(order, c);
      AtRefusal(order, r);
    }
  }

  /** A credit by name is on its way when the name gets a second bearer; its receiver then asks to pay that new
      user more than it has, and is refused, and only then is credited.  No order of the five requests gives
      everybody the answer they got: the credit has to come before the registration, the refusal after it,
      and then the funds are there. */
  lemma NoOrderExplains() returns (s: State)
    ensures Reachable(s) && INITIAL_BALANCE * |s.db.users| <= MAX_INTEGER
    ensures forall order :: multiset(order) == multiset(s.log) ==> !AnswersMatch(order)
  {
    s := CreditedAfterwards();
    assert |s.db.users| == |s.db.users.Keys|;
    forall order | multiset(order) == multiset(s.log) ensures !AnswersMatch(order) {
      NoOrder(order);
    }
  }
}
