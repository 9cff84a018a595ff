/** What a transfer handler tells: whom it pushes which notice, and what its replies say. */
module Replies {
  import opened Bank
  import opened Collections
  import opened Text
  import opened Runs
  import opened Backend
  import T = Transfers
  import R = Rpc

  /** The notice is for the receiver of this committed transfer, and says how much came from whom. */
  ghost predicate IsNoticeOf(users: map<UserId, User>, e: T.Entry, n: Notification) {
    && e.Committed? && e.row.fromUser in users && e.row.toUser in users
    && n.userId == e.row.toUser
    && n.message == "Bạn nhận " + Decimal(e.row.amount) + " từ " + users[e.row.fromUser].username
  }

  ghost predicate Tells(bank: T.State, d: R.DeliveryId, n: Notification) {
    IsCommitted(bank, d) && IsNoticeOf(bank.db.users, EntryOf(bank, d), n)
  }

  /** The delivery's handler returned 200 for a transfer. */
  ghost predicate Succeeded(net: R.State, d: R.DeliveryId) {
    && d in net.computed && net.computed[d].status == 200
    && Known(net, d) && MessageOf(net, d).action != "health"
  }

  ghost predicate PendingTold(s: State) {
    forall d :: d in s.pushing ==> Tells(s.bank, d, s.pushing[d].note)
  }

  ghost predicate WasToldOf(bank: T.State, n: Notification) {
    exists d :: Tells(bank, d, n)
  }

  ghost predicate PushedTold(s: State) {
    forall n :: n in s.pushed ==> WasToldOf(s.bank, n)
  }

  ghost predicate WasPushed(s: State, d: R.DeliveryId) {
    exists n :: n in s.pushed && Tells(s.bank, d, n)
  }

  ghost predicate SuccessPushed(s: State) {
    forall d :: Succeeded(s.net, d) ==> WasPushed(s, d)
  }

  /** A refusal repeats what the checks before the database say, or how the transaction ended. */
  ghost predicate IsItsRefusal(s: State, d: R.DeliveryId)
    requires d in s.net.computed && Known(s.net, d)
  {
    || Refusal(MessageOf(s.net, d).req) == Some(s.net.computed[d])
    || (Logged(s.bank, d) && EntryOf(s.bank, d).Refused? && EntryOf(s.bank, d).outcome == Replied(s.net.computed[d]))
  }

  ghost predicate RefusedOnes(s: State) {
    forall d :: d in s.net.computed && Known(s.net, d) && MessageOf(s.net, d).action != "health"
                && s.net.computed[d].status != 200 ==>
      IsItsRefusal(s, d)
  }

  ghost predicate AllTold(s: State) {
    PendingTold(s) && PushedTold(s) && SuccessPushed(s) && RefusedOnes(s)
  }

  lemma TellsStays(bank: T.State, after: T.State, d: R.DeliveryId, n: Notification)
    requires Tells(bank, d, n) && BankGrew(bank, after)
    ensures Tells(after, d, n)
  {
  }

  /** What a commit leaves to be pushed tells of that commit. */
  lemma CommitTells(s: State, d: R.DeliveryId, verify: Verifier)
    requires T.LocksHold(s.bank) && Enabled(s, Commit(d), verify)
    ensures Tells(AfterBank(s, Commit(d), verify), d, PushFor(s.bank, d).note)
  {
    T.BothHeld(s.bank, d);
  }

  lemma PendingAfter(s: State, step: Step, verify: Verifier, d: R.DeliveryId)
    requires Enabled(s, step, verify) && d in Apply(s, step, verify).pushing
    ensures if step == Commit(d) then Apply(s, step, verify).pushing[d] == PushFor(s.bank, d)
            else d in s.pushing && Apply(s, step, verify).pushing[d] == s.pushing[d]
  {
  }

  lemma StepKeepsPending(s: State, step: Step, verify: Verifier)
    requires T.LocksHold(s.bank) && PendingTold(s) && Enabled(s, step, verify) && Grew(s, Apply(s, step, verify))
    ensures PendingTold(Apply(s, step, verify))
  {
    var after := Apply(s, step, verify);
    PartsAfter(s, step, verify);
    forall d | d in after.pushing ensures Tells(after.bank, d, after.pushing[d].note) {
      PendingAfter(s, step, verify, d);
      if step == Commit(d) {
        CommitTells(s, d, verify);
      } else {
        TellsStays(s.bank, after.bank, d, s.pushing[d].note);
      }
    }
  }

  lemma PushedAfter(s: State, step: Step, verify: Verifier, n: Notification)
    requires Enabled(s, step, verify) && n in Apply(s, step, verify).pushed && n !in s.pushed
    ensures (step.SendPush? || step.RaisesLate?) && step.d in s.pushing && n == s.pushing[step.d].note
  {
  }

  lemma StepKeepsPushedTold(s: State, step: Step, verify: Verifier)
    requires PendingTold(s) && PushedTold(s) && Enabled(s, step, verify) && Grew(s, Apply(s, step, verify))
    ensures PushedTold(Apply(s, step, verify))
  {
    var after := Apply(s, step, verify);
    forall n | n in after.pushed ensures WasToldOf(after.bank, n) {
      if n !in s.pushed {
        PushedAfter(s, step, verify, n);
      }
      var d :| Tells(s.bank, d, n);
      TellsStays(s.bank, after.bank, d, n);
    }
  }

  /** A 200 for a transfer is returned only after the push. */
  lemma OnlyPushSucceeds(s: State, step: Step, verify: Verifier, d: R.DeliveryId)
    requires T.Tracked(s.bank) && BegunFit(s) && LiveFit(s) && PushingFit(s) && Enabled(s, step, verify)
    requires Succeeded(AfterNet(s, step, verify), d) && d !in s.net.computed
    ensures step == SendPush(d)
  {
    ComputedAfter(s.net, NetMove(s, step).value, d);
  }

  /** A handler returns once. */
  lemma ComputedIsKept(net: R.State, move: Option<R.Step>, d: R.DeliveryId)
    requires R.WorkFits(net) && (move.Some? ==> R.Enabled(net, move.value)) && d in net.computed
    ensures d in NetMoved(net, move).computed && NetMoved(net, move).computed[d] == net.computed[d]
  {
    assert R.WorkOne(net, d);
  }

  lemma PushStays(s: State, step: Step, verify: Verifier, d: R.DeliveryId)
    requires WasPushed(s, d) && Enabled(s, step, verify) && Grew(s, Apply(s, step, verify))
    ensures WasPushed(Apply(s, step, verify), d)
  {
    var n :| n in s.pushed && Tells(s.bank, d, n);
    TellsStays(s.bank, Apply(s, step, verify).bank, d, n);
    assert n in Apply(s, step, verify).pushed;
  }

  lemma PushIsDone(s: State, d: R.DeliveryId, verify: Verifier)
    requires PendingTold(s) && Enabled(s, SendPush(d), verify)
    ensures WasPushed(Apply(s, SendPush(d), verify), d)
  {
    assert Tells(s.bank, d, s.pushing[d].note);
    assert s.pushing[d].note in Apply(s, SendPush(d), verify).pushed;
  }

  lemma StepKeepsSuccess(s: State, step: Step, verify: Verifier)
    requires T.Tracked(s.bank) && R.WorkFits(s.net) && BegunFit(s) && LiveFit(s) && PushingFit(s) && ComputedFit(s)
    requires PendingTold(s) && SuccessPushed(s) && Enabled(s, step, verify) && Grew(s, Apply(s, step, verify))
    ensures SuccessPushed(Apply(s, step, verify))
  {
    var after := Apply(s, step, verify);
    PartsAfter(s, step, verify);
    forall d | Succeeded(after.net, d) ensures WasPushed(after, d) {
      if d in s.net.computed {
        ComputedIsKept(s.net, NetMove(s, step), d);
        PushStays(s, step, verify, d);
      } else {
        OnlyPushSucceeds(s, step, verify, d);
        PushIsDone(s, d, verify);
      }
    }
  }

  lemma RefusalStays(s: State, step: Step, verify: Verifier, d: R.DeliveryId)
    requires R.WorkFits(s.net) && Enabled(s, step, verify) && Grew(s, Apply(s, step, verify))
    requires d in s.net.computed && Known(s.net, d) && IsItsRefusal(s, d)
    ensures Known(Apply(s, step, verify).net, d) && d in Apply(s, step, verify).net.computed
    ensures IsItsRefusal(Apply(s, step, verify), d)
  {
    PartsAfter(s, step, verify);
    ComputedIsKept(s.net, NetMove(s, step), d);
  }

  lemma FinishRefuses(s: State, last: T.Step, detail: string, verify: Verifier)
    requires T.Tracked(s.bank) && T.IndexFits(s.bank) && Enabled(s, Finish(last, detail), verify)
    requires LastEntry(s.bank, last).outcome.Replied?
    ensures var after := AfterBank(s, Finish(last, detail), verify);
            && Logged(after, last.tx) && EntryOf(after, last.tx).Refused?
            && EntryOf(after, last.tx).outcome == LastEntry(s.bank, last).outcome
  {
  }

  lemma NewRefusal(s: State, step: Step, verify: Verifier, d: R.DeliveryId)
    requires T.Tracked(s.bank) && T.IndexFits(s.bank) && PushingFit(s) && Enabled(s, step, verify)
    requires d in AfterNet(s, step, verify).computed && d !in s.net.computed && Known(AfterNet(s, step, verify), d)
    requires MessageOf(AfterNet(s, step, verify), d).action != "health"
    requires AfterNet(s, step, verify).computed[d].status != 200
    ensures IsItsRefusal(Apply(s, step, verify), d)
  {
    PartsAfter(s, step, verify);
    ComputedAfter(s.net, NetMove(s, step).value, d);
    if step.Finish? {
      FinishRefuses(s, step.last, step.detail, verify);
    }
  }

  lemma StepKeepsRefused(s: State, step: Step, verify: Verifier)
    requires T.Tracked(s.bank) && T.IndexFits(s.bank) && R.WorkFits(s.net) && PushingFit(s) && ComputedFit(s)
    requires RefusedOnes(s) && Enabled(s, step, verify) && Grew(s, Apply(s, step, verify))
    ensures RefusedOnes(Apply(s, step, verify))
  {
    var after := Apply(s, step, verify);
    PartsAfter(s, step, verify);
    forall d | d in after.net.computed && Known(after.net, d) && MessageOf(after.net, d).action != "health"
               && after.net.computed[d].status != 200
      ensures IsItsRefusal(after, d)
    {
      if d in s.net.computed {
        ComputedIsKept(s.net, NetMove(s, step), d);
        RefusalStays(s, step, verify, d);
      } else {
        NewRefusal(s, step, verify, d);
      }
    }
  }

  lemma StepKeepsAllTold(s: State, step: Step, verify: Verifier)
    requires Inv(s, verify) && AllTold(s) && Enabled(s, step, verify)
    ensures AllTold(Apply(s, step, verify))
  {
    T.ReachableInv(s.bank);
    R.ReachableInv(s.net);
    StepGrows(s, step, verify);
    StepKeepsPending(s, step, verify);
    StepKeepsPushedTold(s, step, verify);
    StepKeepsSuccess(s, step, verify);
    StepKeepsRefused(s, step, verify);
  }

  lemma ReachableTold(s: State, verify: Verifier)
    requires Reachable(s, verify)
    ensures AllTold(s)
  {
    var inv := (x: State) => Inv(x, verify) && AllTold(x);
    forall x, step | inv(x) && Next(verify)(x, step).Some? ensures inv(Next(verify)(x, step).value) {
      StepKeepsAllTold(x, step, verify);
      StepKeepsInv(x, step, verify);
    }
    InitialInv(verify);
    LeadsToKept(Next(verify), inv, INITIAL, s);
  }

  // ----- what follows

  /** Whoever is pushed a notice is the receiver of a committed transfer, and it says how much came from whom. */
  lemma PushedIsTrue(s: State, verify: Verifier, n: Notification) returns (i: nat)
    requires Reachable(s, verify) && n in s.pushed
    ensures i < |s.bank.log| && IsNoticeOf(s.bank.db.users, s.bank.log[i], n)
  {
    ReachableTold(s, verify);
    var d :| Tells(s.bank, d, n);
    i := s.bank.at[d];
  }

  /** And wherever a handler has returned 200 for a transfer, its receiver has been pushed the notice. */
  lemma SuccessMeansPushed(s: State, verify: Verifier, d: R.DeliveryId) returns (n: Notification)
    requires Reachable(s, verify) && Succeeded(s.net, d)
    ensures IsCommitted(s.bank, d) && n in s.pushed && IsNoticeOf(s.bank.db.users, EntryOf(s.bank, d), n)
  {
    ReachableTold(s, verify);
    assert WasPushed(s, d);
    n :| n in s.pushed && Tells(s.bank, d, n);
  }

  /** What a handler refused is what the checks before the database, or its transaction, refused it with. */
  lemma RefusalIsItsOwn(s: State, verify: Verifier, d: R.DeliveryId)
    requires Reachable(s, verify) && d in s.net.computed && s.net.computed[d].status != 200
    requires Known(s.net, d) && MessageOf(s.net, d).action != "health"
    ensures IsItsRefusal(s, d)
  {
    ReachableTold(s, verify);
  }
}
