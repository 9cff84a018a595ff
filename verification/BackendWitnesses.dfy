/** Runs that show what an answer does not say: a 500 can hide a committed transfer, a redelivered
    message can be carried out twice, and a 400 can follow an earlier delivery that did commit. */
module BackendWitnesses {
  import opened Collections
  import opened Text
  import opened Bank
  import opened Runs
  import opened Backend
  import opened Guarantees
  import T = Transfers
  import R = Rpc

  const AN := User("1", "1", "an", "", INITIAL_BALANCE)
  const BINH := User("2", "2", "binh", "", INITIAL_BALANCE)

  function ToBinh(amount: int): R.Message { R.Message("transfer", "sid", Request(amount, "2", "")) }

  /** Nobody holds a lock, the message of `cid` is queued, and its session is user 1's. */
  ghost predicate Quiet(s: State, verify: Verifier, cid: R.Cid, amount: int) {
    && Reachable(s, verify)
    && s.bank.live == map[]
    && cid in s.net.ready && cid in s.net.messages && s.net.messages[cid] == ToBinh(amount)
    && s.now == 0 && "sid" in s.sessions && s.sessions["sid"] == Session(1, 0)
    && s.bank.db.users.Keys == {1, 2}
    && s.bank.db.users[1] == AN.(balance := s.bank.db.users[1].balance)
    && s.bank.db.users[2] == BINH.(balance := s.bank.db.users[2].balance)
  }

  lemma RowReaches(s: State, verify: Verifier, row: T.Step) returns (after: State)
    requires Reachable(s, verify) && T.Enabled(s.bank, row) && Continues(s.bank, row)
    ensures Reachable(after, verify) && after == s.(bank := T.Apply(s.bank, row))
  {
    after := StepReaches(s, Row(row), verify);
  }

  lemma WireReaches(s: State, verify: Verifier, wire: R.Step) returns (after: State)
    requires Reachable(s, verify) && R.Enabled(s.net, wire) && LeavesHandlers(wire)
    ensures Reachable(after, verify) && after == s.(net := R.Apply(s.net, wire))
  {
    after := StepReaches(s, Wire(wire), verify);
  }

  function Txn(users: map<UserId, User>, amount: int, held: set<UserId>, phase: T.Phase): T.Txn {
    T.Txn(1, Request(amount, "2", ""), map id | id in held && id in users :: users[id], phase)
  }

  lemma StartReaches(s: State, verify: Verifier, cid: R.Cid, amount: int, d: R.DeliveryId) returns (after: State)
    requires Quiet(s, verify, cid, amount) && amount > 0 && d !in s.net.deliveries
    ensures Reachable(after, verify)
    ensures after.bank == s.bank.(live := map[d := Txn(s.bank.db.users, amount, {}, T.Fresh)],
                                        begun := after.bank.begun)
    ensures after.net == s.net.(ready := s.net.ready - {cid},
                                deliveries := s.net.deliveries[d := R.Delivery(cid, R.Handling, true)])
    ensures after == s.(bank := after.bank, net := after.net, auth := after.auth)
  {
    FreshDelivery(s, verify, d);
    after := WireReaches(s, verify, R.Deliver(d, cid));
    after := StepReaches(after, Start(d), verify);
  }

  /** From the first lock to the moment the handler holds both rows. */
  lemma LocksReach(s: State, verify: Verifier, d: R.DeliveryId, amount: int) returns (after: State)
    requires Reachable(s, verify) && s.bank.db.users.Keys == {1, 2}
    requires Candidates(s.bank.db.users, Request(amount, "2", "")) == {2}
    requires s.bank.live == map[d := Txn(s.bank.db.users, amount, {}, T.Fresh)]
    ensures Reachable(after, verify) && after == s.(bank := after.bank)
    ensures after.bank == s.bank.(live := map[d := Txn(s.bank.db.users, amount, {1, 2}, T.Chosen(2))])
  {
    after := RowReaches(s, verify, T.LockSender(d));
    var users := s.bank.db.users;
    assert Txn(users, amount, {1}, T.SenderHeld).held == Txn(users, amount, {}, T.Fresh).held[1 := users[1]];
    assert after.bank.live == map[d := Txn(users, amount, {1}, T.SenderHeld)];
    assert Elements([2]) == {2};
    after := RowReaches(after, verify, T.StartScan(d, [2]));
    assert after.bank.live == map[d := Txn(s.bank.db.users, amount, {1}, T.Scanning([2], []))];
    after := ScanReaches(after, verify, d, amount);
  }

  lemma ScanReaches(s: State, verify: Verifier, d: R.DeliveryId, amount: int) returns (after: State)
    requires Reachable(s, verify) && s.bank.db.users.Keys == {1, 2}
    requires s.bank.live == map[d := Txn(s.bank.db.users, amount, {1}, T.Scanning([2], []))]
    ensures Reachable(after, verify) && after == s.(bank := after.bank)
    ensures after.bank == s.bank.(live := map[d := Txn(s.bank.db.users, amount, {1, 2}, T.Chosen(2))])
  {
    var todo: seq<UserId>, found: seq<UserId> := [2], [];
    assert todo[1..] == [] && found + [2] == [2];
    after := RowReaches(s, verify, T.LockNext(d));
    var users := s.bank.db.users;
    assert Txn(users, amount, {1, 2}, T.Chosen(2)).held == Txn(users, amount, {1}, T.SenderHeld).held[2 := users[2]];
    assert after.bank.live == map[d := Txn(users, amount, {1, 2}, T.Scanning([], [2]))];
    after := RowReaches(after, verify, T.EndScan(d));
  }

  /** A new delivery of the message, up to the point where its handler holds both rows. */
  lemma ToChosen(s: State, verify: Verifier, cid: R.Cid, amount: int, d: R.DeliveryId) returns (after: State)
    requires Quiet(s, verify, cid, amount) && amount > 0 && d !in s.net.deliveries
    ensures Reachable(after, verify)
    ensures after.bank == s.bank.(live := map[d := Txn(s.bank.db.users, amount, {1, 2}, T.Chosen(2))],
                                        begun := after.bank.begun)
    ensures after.net == s.net.(ready := s.net.ready - {cid},
                                deliveries := s.net.deliveries[d := R.Delivery(cid, R.Handling, true)])
    ensures after == s.(bank := after.bank, net := after.net, auth := after.auth)
  {
    after := StartReaches(s, verify, cid, amount, d);
    after := LocksReach(after, verify, d, amount);
  }

  lemma FreshDelivery(s: State, verify: Verifier, d: R.DeliveryId)
    requires Reachable(s, verify) && d !in s.net.deliveries
    ensures d !in s.bank.begun
  {
    ReachableInv(s, verify);
  }

  /** And on through the commit. */
  lemma ToCommit(s: State, verify: Verifier, cid: R.Cid, amount: int, d: R.DeliveryId) returns (after: State)
    requires Quiet(s, verify, cid, amount) && 0 < amount <= s.bank.db.users[1].balance && d !in s.net.deliveries
    requires s.bank.db.users[2].balance + amount <= MAX_INTEGER
    ensures Reachable(after, verify)
    ensures after.bank.db == Settle(s.bank.db, Transfer(1, 2, amount)) && after.bank.live == map[]
    ensures |after.bank.log| == |s.bank.log| + 1 && s.bank.log < after.bank.log
    ensures after.bank.log[|s.bank.log|].Committed? && after.bank.log[|s.bank.log|].tx == d
    ensures after.net == s.net.(ready := s.net.ready - {cid},
                                deliveries := s.net.deliveries[d := R.Delivery(cid, R.Handling, true)])
    ensures after.now == s.now && after.sessions == s.sessions && after.pushed == s.pushed
    ensures d in after.pushing && after.pushing[d].response.status == 200
  {
    after := ToChosen(s, verify, cid, amount, d);
    after := StepReaches(after, Commit(d), verify);
    T.WriteIsSettle(s.bank.db, 1, 2, amount);
  }

  lemma Opening(verify: Verifier, amount: int) returns (s: State)
    requires verify("", "") && amount > 0
    ensures Quiet(s, verify, 0, amount) && s.net.deliveries == map[] && s.net.replies == map[] && s.pushed == {}
    ensures s.bank.db == Db(map[1 := AN, 2 := BINH], [], []) && s.net.producers == map[0 := R.Waiting(0)]
    ensures |s.bank.log| == 2 && s.bank.log[0].Registered? && s.bank.log[1].Registered?
  {
    IsThere(Next(verify), INITIAL);
    s := RowReaches(INITIAL, verify, T.Register(1, AN));
    s := RowReaches(s, verify, T.Register(2, BINH));
    s := SessionReaches(s, verify);
    s := WireReaches(s, verify, R.Publish(0, ToBinh(amount)));
  }

  lemma SessionReaches(s: State, verify: Verifier) returns (after: State)
    requires Reachable(s, verify) && verify("", "") && s.logins == {}
    requires 1 in s.bank.db.users && s.bank.db.users[1] == AN
    ensures Reachable(after, verify)
    ensures after == s.(sessions := s.sessions["sid" := Session(1, s.now)], logins := after.logins)
  {
    after := StepReaches(s, OpenSession("sid", 1, ""), verify);
  }

  /** The producer reads the reply that is there and returns it. */
  lemma ToAnswer(s: State, verify: Verifier) returns (after: State)
    requires Reachable(s, verify) && s.net.producers == map[0 := R.Waiting(0)] && 0 in s.net.replies
    ensures Reachable(after, verify) && AnsweredWith(after, 0, s.net.replies[0].status)
    ensures after == s.(net := after.net)
    ensures after.net.deliveries == s.net.deliveries && after.net.messages == s.net.messages
  {
    after := WireReaches(s, verify, R.Read(0));
    after := WireReaches(after, verify, R.Remove(0));
  }

  lemma LastIsCommitOf(s: State, d: R.DeliveryId, i: nat)
    requires i < |s.bank.log| && s.bank.log[i].Committed? && s.bank.log[i].tx == d
    requires d in s.net.deliveries && s.net.deliveries[d].cid == 0
    ensures i in CommitsOf(s, 0)
  {
  }

  /** Something fails after the commit, before or after the notice went out: the client is told 500, and the money
      has moved. */
  lemma ErrorAfterCommit(verify: Verifier, sent: bool) returns (s: State)
    requires verify("", "")
    ensures Reachable(s, verify) && AnsweredWith(s, 0, 500) && CommitsOf(s, 0) != {}
    ensures sent <==> s.pushed != {}
  {
    s := Opening(verify, 1);
    var n := |s.bank.log|;
    s := ToCommit(s, verify, 0, 1, 7);
    s := StepReaches(s, RaisesLate(7, sent, ""), verify);
    s := WireReaches(s, verify, R.StoreError(7));
    s := ToAnswer(s, verify);
    LastIsCommitOf(s, 7, n);
  }

  /** The first delivery commits and its process dies before a reply is stored: the message is queued again. */
  lemma CommitThenCrash(verify: Verifier, amount: int) returns (s: State)
    requires verify("", "") && 0 < amount <= INITIAL_BALANCE
    ensures Quiet(s, verify, 0, amount)
    ensures s.bank.db.users[1].balance == INITIAL_BALANCE - amount
    ensures s.bank.db.users[2].balance == INITIAL_BALANCE + amount
    ensures |s.bank.log| == 3 && s.bank.log[2].Committed? && s.bank.log[2].tx == 7
    ensures s.net.deliveries == map[7 := R.Delivery(0, R.Dead, false)] && s.net.producers == map[0 := R.Waiting(0)]
  {
    s := Opening(verify, amount);
    s := ToCommit(s, verify, 0, amount, 7);
    s := StepReaches(s, Stop(R.Kill(7)), verify);
  }

  lemma ToStored(s: State, verify: Verifier, d: R.DeliveryId) returns (after: State)
    requires Reachable(s, verify) && d in s.pushing
    requires d in s.net.deliveries && s.net.deliveries[d] == R.Delivery(0, R.Handling, true)
    ensures Reachable(after, verify) && after.bank == s.bank && after.net.producers == s.net.producers
    ensures after.net.deliveries == s.net.deliveries[d := R.Delivery(0, R.Answered, true)]
    ensures 0 in after.net.replies && after.net.replies[0] == s.pushing[d].response
  {
    after := StepReaches(s, SendPush(d), verify);
    after := WireReaches(after, verify, R.Store(d));
  }

  /** A crash between commit and reply, and the message's second delivery commits again. */
  lemma CarriedOutTwice(verify: Verifier) returns (s: State)
    requires verify("", "")
    ensures Reachable(s, verify) && AnsweredWith(s, 0, 200)
    ensures {2, 3} <= CommitsOf(s, 0)
  {
    s := CommitThenCrash(verify, 1);
    s := ToCommit(s, verify, 0, 1, 8);
    s := ToStored(s, verify, 8);
    s := ToAnswer(s, verify);
    LastIsCommitOf(s, 7, 2);
    LastIsCommitOf(s, 8, 3);
  }

  lemma ToRefused(s: State, verify: Verifier, d: R.DeliveryId) returns (after: State)
    requires Quiet(s, verify, 0, INITIAL_BALANCE) && d !in s.net.deliveries && s.bank.db.users[1].balance == 0
    ensures Reachable(after, verify)
    ensures s.bank.log < after.bank.log && after.net.producers == s.net.producers
    ensures after.net.deliveries == s.net.deliveries[d := R.Delivery(0, R.Computed(INSUFFICIENT_BALANCE), true)]
  {
    var chosen := ToChosen(s, verify, 0, INITIAL_BALANCE, d);
    after := DecisionReaches(chosen, verify, d);
  }

  lemma DecisionReaches(s: State, verify: Verifier, d: R.DeliveryId) returns (after: State)
    requires Reachable(s, verify) && s.bank.db.users.Keys == {1, 2} && s.bank.db.users[1].balance == 0
    requires s.bank.live == map[d := Txn(s.bank.db.users, INITIAL_BALANCE, {1, 2}, T.Chosen(2))]
    requires d in s.net.deliveries && s.net.deliveries[d] == R.Delivery(0, R.Handling, true)
    ensures Reachable(after, verify)
    ensures s.bank.log < after.bank.log && after.net.producers == s.net.producers
    ensures after.net.deliveries == s.net.deliveries[d := R.Delivery(0, R.Computed(INSUFFICIENT_BALANCE), true)]
  {
    after := StepReaches(s, Finish(T.Decide(d), ""), verify);
  }

  /** The same crash with an amount the sender has only once: the client is told 400, and the money has moved. */
  lemma RefusedAfterCommit(verify: Verifier) returns (s: State)
    requires verify("", "")
    ensures Reachable(s, verify) && AnsweredWith(s, 0, 400) && CommitsOf(s, 0) != {}
  {
    s := CommitThenCrash(verify, INITIAL_BALANCE);
    s := ToRefused(s, verify, 8);
    s := WireReaches(s, verify, R.Store(8));
    s := ToAnswer(s, verify);
    LastIsCommitOf(s, 7, 2);
  }

  /** The producer reads `k` more times and finds nothing. */
  lemma {:induction false} PollsMiss(s: State, verify: Verifier, k: nat) returns (after: State)
    requires Reachable(s, verify) && k <= R.MAX_READS && 0 !in s.net.replies
    requires 0 in s.net.producers && s.net.producers[0] == R.Waiting(R.MAX_READS - k)
    ensures Reachable(after, verify)
    ensures after == s.(net := s.net.(producers := s.net.producers[0 := R.Waiting(R.MAX_READS)]))
    decreases k
  {
    if k == 0 {
      assert s.net.producers[0 := R.Waiting(R.MAX_READS)] == s.net.producers;
      after := s;
    } else {
      var next := WireReaches(s, verify, R.Read(0));
      after := PollsMiss(next, verify, k - 1);
      assert next.net.producers[0 := R.Waiting(R.MAX_READS)] == s.net.producers[0 := R.Waiting(R.MAX_READS)];
    }
  }

  /** The request ends without a reply: 502 if something breaks in the producer, 504 after all its reads. */
  lemma ToSilence(s: State, verify: Verifier, timeout: bool) returns (after: State)
    requires Reachable(s, verify) && s.net.producers == map[0 := R.Waiting(0)] && 0 !in s.net.replies
    ensures Reachable(after, verify) && AnsweredWith(after, 0, if timeout then 504 else 502)
    ensures after.bank == s.bank && after.net.deliveries == s.net.deliveries
  {
    if timeout {
      after := PollsMiss(s, verify, R.MAX_READS);
      after := WireReaches(after, verify, R.Timeout(0));
    } else {
      after := WireReaches(s, verify, R.Break(0));
    }
  }

  /** 502 and 504 say nothing: with either answer the transfer may have been carried out, or not. */
  lemma SilenceSaysNothing(verify: Verifier, timeout: bool, committed: bool) returns (s: State)
    requires verify("", "")
    ensures Reachable(s, verify) && AnsweredWith(s, 0, if timeout then 504 else 502)
    ensures CommitsOf(s, 0) != {} <==> committed
  {
    s := Opening(verify, 1);
    if committed {
      var n := |s.bank.log|;
      s := ToCommit(s, verify, 0, 1, 7);
      s := ToSilence(s, verify, timeout);
      LastIsCommitOf(s, 7, n);
    } else {
      s := ToSilence(s, verify, timeout);
    }
  }
}
