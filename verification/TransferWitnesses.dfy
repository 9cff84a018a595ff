/** Two runs that show what the row locks do not buy: a deadlock, and a request by user name that does not
    get its answer when it is made alone at its commit. */
module TransferWitnesses {
  import opened Collections
  import opened Text
  import opened Bank
  import opened Runs
  import opened Transfers
  import opened Deadlock
  import opened Serialisability

  lemma StepsReach(s: State, step: Step) returns (after: State)
    requires Reachable(s) && Enabled(s, step)
    ensures after == Apply(s, step) && Reachable(after)
  {
    after := Apply(s, step);
    OneMoreStep(Next, INITIAL, s, step);
  }

  const AN := User("1", "1", "an", "", INITIAL_BALANCE)
  const BINH := User("2", "2", "binh", "", INITIAL_BALANCE)
  const OTHER_BINH := User("3", "3", "binh", "", INITIAL_BALANCE)

  lemma TwoUsers() returns (s: State)
    ensures Reachable(s) && s.live == map[] && s.begun == {} && s.db.users == map[1 := AN, 2 := BINH]
    ensures s.log == [Registered(1, AN), Registered(2, BINH)] && s.db == Db(s.db.users, [], [])
  {
    IsThere(Next, INITIAL);
    s := StepsReach(INITIAL, Register(1, AN));
    s := StepsReach(s, Register(2, BINH));
  }

  /** A handler of a request that selects only `receiver`, alone so far, locks its sender and starts its scan. */
  lemma ScanOne(s: State, tx: TxId, user: UserId, req: Request, receiver: UserId) returns (after: State)
    requires Reachable(s) && tx !in s.begun && Refusal(req).None?
    requires user in s.db.users && Candidates(s.db.users, req) == {receiver}
    requires forall other :: other in s.live ==> user !in s.live[other].held
    ensures Reachable(after) && after.db == s.db && after.log == s.log && after.begun == s.begun + {tx}
    ensures after.live == s.live[tx := Txn(user, req, map[user := s.db.users[user]], Scanning([receiver], []))]
  {
    after := StepsReach(s, Begin(tx, user, req));
    after := StepsReach(after, LockSender(tx));
    assert Elements([receiver]) == {receiver};
    after := StepsReach(after, StartScan(tx, [receiver]));
  }

  /** The sender's row is held; the one row selected is locked and chosen. */
  lemma LockOne(s: State, tx: TxId, receiver: UserId) returns (after: State)
    requires Reachable(s) && tx in s.live && s.live[tx].phase == Scanning([receiver], [])
    requires receiver in s.db.users
    requires forall other :: other in s.live && other != tx ==> receiver !in s.live[other].held
    ensures Reachable(after) && after.db == s.db && after.log == s.log && after.begun == s.begun
    ensures after.live == s.live[tx := s.live[tx].(held := s.live[tx].held[receiver := s.db.users[receiver]],
                                                   phase := Chosen(receiver))]
  {
    after := StepsReach(s, LockNext(tx));
    after := StepsReach(after, EndScan(tx));
  }

  const TO_BINH := Request(1, "2", "")
  const TO_AN := Request(1, "1", "")
  const TO_BINH_BY_NAME := Request(1, "", "binh")

  lemma CrossedAreStuck(s: State)
    requires LocksHold(s) && s.live == map[
      10 := Txn(1, TO_BINH, map[1 := AN], Scanning([2], [])),
      20 := Txn(2, TO_AN, map[2 := BINH], Scanning([1], []))]
    ensures Stuck(s)
  {
    assert WaitsFor(s, 10, 20) && WaitsFor(s, 20, 10);
    MovesUnlessWaiting(s, 10);
    MovesUnlessWaiting(s, 20);
    assert 10 in s.live;
  }

  /** Opposite transfers between two users can deadlock. */
  lemma DeadlockHappens() returns (s: State)
    ensures Reachable(s) && Stuck(s)
  {
    s := TwoUsers();
    s := ScanOne(s, 10, 1, TO_BINH, 2);
    s := ScanOne(s, 20, 2, TO_AN, 1);
    ReachableInv(s);
    CrossedAreStuck(s);
  }

  /** The same transfer by name, with a second bearer registered between its scan and its lock. */
  lemma BearerRegistersMeanwhile() returns (s: State)
    ensures Reachable(s) && s.db == Db(map[1 := AN, 2 := BINH, 3 := OTHER_BINH], [], [])
    ensures |s.log| == 3 && 10 in s.live && s.live[10].user == 1 && s.live[10].req == TO_BINH_BY_NAME
    ensures s.live[10].held == map[1 := AN, 2 := BINH] && s.live[10].phase == Chosen(2)
  {
    s := TwoUsers();
    s := ScanOne(s, 10, 1, TO_BINH_BY_NAME, 2);
    s := StepsReach(s, Register(3, OTHER_BINH));
    s := LockOne(s, 10, 2);
  }

  /** A transfer to a user name commits although a second bearer registered after its statement began;
      run alone at that point, the same request raises.  Placed where its statement began it does not. */
  lemma SecondBearerGoesUnseen() returns (s: State)
    ensures Reachable(s) && !Unambiguous(s.log)
    ensures |s.log| == 4 && s.log[3].Committed? && ToName(s.log[3].req) == "binh"
    ensures TransferAlone(Replay(s.log[..3]), s.log[3].user, s.log[3].req).1 == Raised(MultipleRows)
  {
    var before := BearerRegistersMeanwhile();
    ReachableLog(before);
    s := StepsReach(before, Decide(10));
    assert s.log[..3] == before.log;
    NameIsAmbiguous(before.db);
    assert !OneBearer(Replay(s.log[..3]), s.log[3]);
  }

  lemma ReachableLog(s: State)
    requires Reachable(s)
    ensures Replay(s.log) == s.db
  {
    ReachableInv(s);
  }

  lemma NameIsAmbiguous(db: Db)
    requires db.users == map[1 := AN, 2 := BINH, 3 := OTHER_BINH]
    ensures |Candidates(db.users, TO_BINH_BY_NAME)| != 1
    ensures TransferAlone(db, 1, TO_BINH_BY_NAME) == (db, Raised(MultipleRows))
    ensures ToName(TO_BINH_BY_NAME) == "binh"
  {
    assert Strip("") == "" && Strip("binh") == "binh";
    var c := Candidates(db.users, TO_BINH_BY_NAME);
    assert {2, 3} <= c;
    OnlyElement(c, 2);
    assert c != {PickOne(c)};
  }
}
