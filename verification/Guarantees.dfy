/** What a client of the transfer API may conclude from an answer, in every run with any number of
    producers, consumers, crashes, redeliveries, late replies and failing stores. */
module Guarantees {
  import opened Collections
  import opened Bank
  import opened Backend
  import opened Replies
  import opened TransferRules
  import opened Windows
  import T = Transfers
  import R = Rpc
  import L = LoginCache
  import Serial = Serialisability

  /** The HTTP status a producer answers with, once it has one. */
  function HttpStatus(p: R.Producer): Option<int> {
    match p
    case Returned(r) => Some(r.status)
    case TimedOut => Some(504)
    case Broken => Some(502)
    case _ => None
  }

  predicate AnsweredWith(s: State, cid: R.Cid, status: int) {
    cid in s.net.producers && HttpStatus(s.net.producers[cid]) == Some(status)
  }

  /** Delivery `d` of message `cid` committed the transfer that the message asks for, on behalf of the
      user its session belongs to, and computed `r` as the reply. */
  ghost predicate CarriedOut(s: State, cid: R.Cid, d: R.DeliveryId, r: Response) {
    && R.Write(d, cid, r) in s.net.writes
    && d in s.net.deliveries && s.net.deliveries[d].cid == cid && cid in s.net.messages
    && d in s.auth && IsCommitted(s.bank, d)
    && var e := EntryOf(s.bank, d);
       && e.outcome == Replied(r) && e.row in s.bank.db.transfers
       && e.user == s.auth[d].user && e.req == s.net.messages[cid].req
       && Serial.MovedAsAsked(s.bank.db.users, e)
  }

  /** The answer was written by a delivery of this very message. */
  lemma AnswerIsWritten(s: State, verify: Verifier, cid: R.Cid) returns (d: R.DeliveryId)
    requires Reachable(s, verify) && cid in s.net.producers && s.net.producers[cid].Returned?
    ensures R.Write(d, cid, s.net.producers[cid].result) in s.net.writes
    ensures Known(s.net, d) && s.net.deliveries[d].cid == cid
    ensures s.net.producers[cid].result.status != 500 ==>
      d in s.net.computed && s.net.computed[d] == s.net.producers[cid].result
  {
    PartsAreReachable(s, verify);
    d := R.OwnReplyOnly(s.net, cid);
    R.DeliveryIsKnown(s.net, d);
  }

  lemma ComputedIsJustified(s: State, verify: Verifier, d: R.DeliveryId)
    requires Reachable(s, verify) && d in s.net.computed
    ensures Known(s.net, d) && Justified(s, d, s.net.computed[d]) && d !in s.bank.live
  {
    ReachableInv(s, verify);
    R.ReachableInv(s.net);
    assert d in s.bank.live ==> LiveOne(s, d);
  }

  lemma CommittedIsHis(s: State, verify: Verifier, d: R.DeliveryId)
    requires Reachable(s, verify) && IsCommitted(s.bank, d)
    ensures EntryOne(s, d)
  {
    ReachableInv(s, verify);
  }

  lemma CommitCarriesOut(s: State, verify: Verifier, d: R.DeliveryId, r: Response)
    requires Reachable(s, verify) && Known(s.net, d)
    requires IsCommitted(s.bank, d) && EntryOf(s.bank, d).outcome == Replied(r)
    requires R.Write(d, s.net.deliveries[d].cid, r) in s.net.writes
    ensures CarriedOut(s, s.net.deliveries[d].cid, d, r)
  {
    PartsAreReachable(s, verify);
    Serial.CommittedRow(s.bank, s.bank.at[d]);
    CommittedIsHis(s, verify, d);
  }

  /** 200 on a transfer request: a delivery of that very message committed that very transfer, for the
      session's user, the answer is the reply it computed, and the receiver has been pushed the notice. */
  lemma OkMeansCarriedOut(s: State, verify: Verifier, cid: R.Cid) returns (d: R.DeliveryId)
    requires Reachable(s, verify) && AnsweredWith(s, cid, 200)
    requires cid in s.net.messages && s.net.messages[cid].action != "health"
    ensures CarriedOut(s, cid, d, s.net.producers[cid].result)
    ensures exists n :: n in s.pushed && IsNoticeOf(s.bank.db.users, EntryOf(s.bank, d), n)
  {
    d := AnswerIsWritten(s, verify, cid);
    ComputedIsJustified(s, verify, d);
    CommitCarriesOut(s, verify, d, s.net.producers[cid].result);
    var n := SuccessMeansPushed(s, verify, d);
  }

  /** 400 or 404: the delivery that stored the answer committed nothing, and the answer is the refusal of a malformed
      request or the one with which its transaction ended. */
  lemma RefusalMeansNothingDone(s: State, verify: Verifier, cid: R.Cid) returns (d: R.DeliveryId)
    requires Reachable(s, verify) && (AnsweredWith(s, cid, 400) || AnsweredWith(s, cid, 404))
    requires cid in s.net.messages && s.net.messages[cid].action != "health"
    ensures d in s.net.deliveries && s.net.deliveries[d].cid == cid
    ensures R.Write(d, cid, s.net.producers[cid].result) in s.net.writes
    ensures !IsCommitted(s.bank, d) && d !in s.bank.live
    ensures var r := s.net.producers[cid].result;
            if IsWellFormed(s.net.messages[cid].req) then
              d in s.bank.at && s.bank.at[d] < |s.bank.log| && EntryOf(s.bank, d).Refused?
              && EntryOf(s.bank, d).outcome == Replied(r)
            else Refusal(s.net.messages[cid].req) == Some(r)
  {
    d := AnswerIsWritten(s, verify, cid);
    ComputedIsJustified(s, verify, d);
    RefusalIsItsOwn(s, verify, d);
    WellFormedIff(s.net.messages[cid].req);
    LoggedWellFormed(s, verify, d);
  }

  lemma LoggedWellFormed(s: State, verify: Verifier, d: R.DeliveryId)
    requires Reachable(s, verify)
    ensures Logged(s.bank, d) ==> EntryOne(s, d) && Refusal(EntryOf(s.bank, d).req).None?
  {
    ReachableInv(s, verify);
    if Logged(s.bank, d) {
      assert EntryOne(s, d);
      var l := RequestWindow(s.bank, s.bank.at[d]);
    }
  }

  // ----- how often one message may be carried out

  ghost predicate IsCommitOf(s: State, cid: R.Cid, i: nat) {
    i < |s.bank.log| && s.bank.log[i].Committed? && s.bank.log[i].tx in R.DeliveriesOf(s.net, cid)
  }

  /** The places in the log where a delivery of message `cid` committed. */
  ghost function CommitsOf(s: State, cid: R.Cid): set<nat> {
    set i: nat | i < |s.bank.log| && IsCommitOf(s, cid, i)
  }

  lemma {:induction false} InjectionFits(places: set<nat>, f: map<nat, nat>, targets: set<nat>)
    requires forall i :: i in places ==> i in f && f[i] in targets
    requires forall i, j :: i in places && j in places && i != j ==> f[i] != f[j]
    ensures |places| <= |targets|
    decreases |places|
  {
    if places != {} {
      var i := PickOne(places);
      InjectionFits(places - {i}, f, targets - {f[i]});
    }
  }

  lemma CommitsHaveOwnDeliveries(s: State, verify: Verifier, cid: R.Cid)
    requires Reachable(s, verify)
    ensures forall i, j :: i in CommitsOf(s, cid) && j in CommitsOf(s, cid) && i != j ==>
      s.bank.log[i].tx != s.bank.log[j].tx
  {
    PartsAreReachable(s, verify);
    Serial.TransfersTableIsCommitted(s.bank);
  }

  /** A message is carried out at most once per delivery. */
  lemma RowsNeverExceedDeliveries(s: State, verify: Verifier, cid: R.Cid)
    requires Reachable(s, verify)
    ensures |CommitsOf(s, cid)| <= |R.DeliveriesOf(s.net, cid)|
  {
    var f := map i | i in CommitsOf(s, cid) :: s.bank.log[i].tx;
    CommitsHaveOwnDeliveries(s, verify, cid);
    InjectionFits(CommitsOf(s, cid), f, R.DeliveriesOf(s.net, cid));
  }

  /** Rows beyond the first come from lost channels and crashes: without those there is at most one. */
  lemma RowsNeverExceedLosses(s: State, verify: Verifier, cid: R.Cid)
    requires Reachable(s, verify) && cid in s.net.messages
    ensures |CommitsOf(s, cid)| <= |R.LossesOf(s.net, cid)| + if cid in s.net.ready then 0 else 1
  {
    RowsNeverExceedDeliveries(s, verify, cid);
    PartsAreReachable(s, verify);
    R.DeliveriesCounted(s.net, cid);
  }

  /** With one delivery, as when none was lost, the answer tells all: one row after 200, none after 400 or 404. */
  lemma SingleDeliveryTellsAll(s: State, verify: Verifier, cid: R.Cid)
    requires Reachable(s, verify) && cid in s.net.messages && s.net.messages[cid].action != "health"
    requires |R.DeliveriesOf(s.net, cid)| == 1 || R.LossesOf(s.net, cid) == {}
    ensures AnsweredWith(s, cid, 200) ==> |CommitsOf(s, cid)| == 1
    ensures AnsweredWith(s, cid, 400) || AnsweredWith(s, cid, 404) ==> CommitsOf(s, cid) == {}
  {
    RowsNeverExceedDeliveries(s, verify, cid);
    PartsAreReachable(s, verify);
    R.DeliveriesCounted(s.net, cid);
    if AnsweredWith(s, cid, 200) {
      var d := OkMeansCarriedOut(s, verify, cid);
      assert s.bank.at[d] in CommitsOf(s, cid) by {
        LoggedTx(s, verify, d);
      }
      OnlyElement(CommitsOf(s, cid), s.bank.at[d]);
    }
    if AnsweredWith(s, cid, 400) || AnsweredWith(s, cid, 404) {
      var d := RefusalMeansNothingDone(s, verify, cid);
      OnlyElement(R.DeliveriesOf(s.net, cid), d);
      forall i | i in CommitsOf(s, cid) ensures false {
        CommitIsIndexed(s, verify, i);
      }
    }
  }

  lemma LoggedTx(s: State, verify: Verifier, d: R.DeliveryId)
    requires Reachable(s, verify) && IsCommitted(s.bank, d)
    ensures EntryOf(s.bank, d).tx == d
  {
    PartsAreReachable(s, verify);
    T.ReachableInv(s.bank);
  }

  lemma CommitIsIndexed(s: State, verify: Verifier, i: nat)
    requires Reachable(s, verify) && i < |s.bank.log| && s.bank.log[i].Committed?
    ensures IsCommitted(s.bank, s.bank.log[i].tx) && s.bank.at[s.bank.log[i].tx] == i
  {
    PartsAreReachable(s, verify);
    T.ReachableInv(s.bank);
  }

  /** Redelivered messages and all, the books balance and the tables are those of the commits in order. */
  lemma BooksSurviveRedelivery(s: State, verify: Verifier)
    requires Reachable(s, verify)
    ensures LedgerExplains(s.bank.db) && RowsWellFormed(s.bank.db) && NotesMatch(s.bank.db)
    ensures TotalBalance(s.bank.db.users) == INITIAL_BALANCE * |s.bank.db.users|
    ensures s.bank.db == T.Replay(s.bank.log)
  {
    PartsAreReachable(s, verify);
    Serial.LedgerHolds(s.bank);
    Serial.CommitOrderExplainsTables(s.bank);
  }

  // ----- sessions and push notices

  lemma SessionFacts(s: State, verify: Verifier, d: R.DeliveryId)
    requires Reachable(s, verify) && d in s.auth && Known(s.net, d)
    ensures AuthOne(s, d) && LoginsVerified(s, verify) && SidsUnique(s)
  {
    ReachableInv(s, verify);
  }

  /** The sender of every committed transfer is the one user whose verified login opened the presented
      session, and that session was younger than its lifetime when the handler checked it. */
  lemma SenderOwnsSession(s: State, verify: Verifier, i: nat) returns (l: Login)
    requires Reachable(s, verify) && i < |s.bank.log| && s.bank.log[i].Committed?
    ensures var e := s.bank.log[i];
            && Known(s.net, e.tx) && e.tx in s.auth
            && l in s.logins && l.sid == MessageOf(s.net, e.tx).session
            && l.user == e.row.fromUser && l.user in s.bank.db.users
            && verify(l.password, s.bank.db.users[l.user].passwordHash)
            && s.auth[e.tx].checkedAt < l.at + 86400
            && forall other :: other in s.logins && other.sid == l.sid ==> other == l
  {
    CommitIsIndexed(s, verify, i);
    var d := s.bank.log[i].tx;
    PartsAreReachable(s, verify);
    Serial.CommittedRow(s.bank, i);
    CommittedIsHis(s, verify, d);
    SessionFacts(s, verify, d);
    l :| && l in s.logins && l.sid == MessageOf(s.net, d).session
         && l.user == s.auth[d].user && l.at == s.auth[d].createdAt;
  }

  /** And whoever presents a session for as long as that is served: the transfer begins, for the session's user, or is
      refused as malformed. */
  lemma LiveSessionIsServed(s: State, verify: Verifier, d: R.DeliveryId)
    requires Reachable(s, verify) && AtStart(s, d) && MessageOf(s.net, d).action != "health"
    requires var sid := MessageOf(s.net, d).session;
             sid != "" && sid in s.sessions && s.now < s.sessions[sid].createdAt + 86400
    ensures var m := MessageOf(s.net, d);
            if IsWellFormed(m.req) then
              && Enabled(s, Start(d), verify)
              && Apply(s, Start(d), verify).bank == T.Apply(s.bank, T.Begin(d, s.sessions[m.session].user, m.req))
            else Enabled(s, Invalid(d), verify)
  {
    WellFormedIff(MessageOf(s.net, d).req);
  }

  /** What `OpenSession` asks for is what the login service checks, cache or no cache: whoever it lets in may open a
      session on any table that has the same users with the same hashes. */
  lemma LoginOpensSession(login: L.State, l: L.LoginId, s: State, sid: string, verify: Verifier)
    requires L.Reachable(login, verify) && l in login.attempts
    requires login.attempts[l].phase.Ended? && login.attempts[l].phase.result.Opened?
    requires forall id :: id in login.users ==>
      id in s.bank.db.users && s.bank.db.users[id].passwordHash == login.users[id].passwordHash
    requires forall other :: other in s.logins ==> other.sid != sid
    ensures Enabled(s, OpenSession(sid, login.attempts[l].phase.result.id, login.attempts[l].password), verify)
  {
    L.OpenedIsVerified(login, l, verify);
  }

  /** A text is pushed only after the very same row is in the notifications table; it goes to the receiver of a
      committed transfer and says how much came from whom. */
  lemma PushAfterCommit(s: State, verify: Verifier, n: Notification) returns (i: nat)
    requires Reachable(s, verify) && n in s.pushed
    ensures n in s.bank.db.notifications
    ensures i < |s.bank.log| && IsNoticeOf(s.bank.db.users, s.bank.log[i], n)
  {
    ReachableInv(s, verify);
    i := PushedIsTrue(s, verify, n);
  }
}
