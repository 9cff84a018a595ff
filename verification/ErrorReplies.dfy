/** What an answer 500 says: it can hide a committed transfer, and exactly when.

    A 500 is stored where something raised in the handler or in storing its reply.  Which of the two it was, and
    whether the commit had taken effect by then, is read from the steps of the run: the two causes are followed
    along it (`CausesFit`), together with what they say of the delivery's commit. */
module ErrorReplies {
  import opened Bank
  import opened Collections
  import opened Runs
  import opened Backend
  import opened Guarantees
  import T = Transfers
  import R = Rpc

  predicate RaisesLateIn(step: Step, d: R.DeliveryId) { step.RaisesLate? && step.d == d }

  predicate StoreRaisesIn(step: Step, d: R.DeliveryId) {
    step.Wire? && step.wire.StoreRaises? && step.wire.d == d
  }

  /** In the course of the run something in the handler of `d` raised after its commit had taken effect. */
  ghost predicate RaisedLate(steps: seq<Step>, d: R.DeliveryId) {
    exists i :: 0 <= i < |steps| && RaisesLateIn(steps[i], d)
  }

  /** In the course of the run the store of the reply that `d` had computed raised. */
  ghost predicate StoreRaised(steps: seq<Step>, d: R.DeliveryId) {
    exists i :: 0 <= i < |steps| && StoreRaisesIn(steps[i], d)
  }

  ghost predicate Wrote500(net: R.State, d: R.DeliveryId) {
    exists w :: w in net.writes && w.delivery == d && w.response.status == 500
  }

  /** Something raised in the handler of `d`, or a 500 was stored by it. */
  ghost predicate HasFailed(net: R.State, d: R.DeliveryId) {
    d in net.deliveries && (net.deliveries[d].work.Failing? || Wrote500(net, d))
  }

  /** What the causes so far tell of delivery `d`: `late` and `stored` say which of the two has raised. */
  ghost predicate CausesFit(s: State, d: R.DeliveryId, late: bool, stored: bool) {
    && (late ==> IsCommitted(s.bank, d))
    && (stored ==> d in s.net.computed)
    && (HasFailed(s.net, d) ==> !s.net.deliveries[d].work.Handling?)
    && (HasFailed(s.net, d) && IsCommitted(s.bank, d) ==> late || stored)
  }

  /** Which message steps make a delivery fail. */
  lemma FailsBecause(net: R.State, w: R.Step, d: R.DeliveryId)
    requires R.Enabled(net, w) && d in R.Apply(net, w).deliveries && R.Apply(net, w).deliveries[d].work.Failing?
    ensures || (d in net.deliveries && net.deliveries[d].work.Failing?)
            || (w.Raise? && w.d == d) || (w.StoreRaises? && w.d == d)
  {
  }

  /** Nothing makes a handler start again. */
  lemma NeverHandlingAgain(net: R.State, w: R.Step, d: R.DeliveryId)
    requires R.Enabled(net, w) && d in net.deliveries && !net.deliveries[d].work.Handling?
    ensures d in R.Apply(net, w).deliveries && !R.Apply(net, w).deliveries[d].work.Handling?
  {
  }

  /** Where the handler itself raises, it has committed only if its commit has taken effect already. */
  lemma RaiseOfCommitted(s: State, step: Step, verify: Verifier, d: R.DeliveryId)
    requires T.Tracked(s.bank) && T.IndexFits(s.bank) && Enabled(s, step, verify)
    requires NetMove(s, step).Some? && NetMove(s, step).value.Raise? && NetMove(s, step).value.d == d
    ensures RaisesLateIn(step, d) || !IsCommitted(AfterBank(s, step, verify), d)
  {
  }

  /** A delivery that has just failed: it had not failed before. */
  lemma NewFailureCause(s: State, step: Step, verify: Verifier, d: R.DeliveryId)
    requires T.Tracked(s.bank) && T.IndexFits(s.bank) && R.WorkFits(s.net) && Enabled(s, step, verify)
    requires d in s.net.computed ==> s.net.computed[d].status != 500
    requires HasFailed(AfterNet(s, step, verify), d) && !HasFailed(s.net, d)
    requires Wrote500(s.net, d) ==> d in s.net.deliveries
    ensures RaisesLateIn(step, d) || StoreRaisesIn(step, d) || !IsCommitted(AfterBank(s, step, verify), d)
    ensures AfterNet(s, step, verify).deliveries[d].work.Failing?
  {
    var w := NetMove(s, step).value;
    FailsBecause(s.net, w, d);
    if w.Raise? {
      RaiseOfCommitted(s, step, verify, d);
    }
  }

  lemma CauseIsRecorded(s: State, step: Step, verify: Verifier, d: R.DeliveryId)
    requires R.WorkFits(s.net) && PushingFit(s) && Enabled(s, step, verify) && Grew(s, Apply(s, step, verify))
    ensures RaisesLateIn(step, d) ==> IsCommitted(Apply(s, step, verify).bank, d)
    ensures StoreRaisesIn(step, d) ==> d in Apply(s, step, verify).net.computed
  {
    if RaisesLateIn(step, d) {
      assert PushOne(s, d);
    }
    if StoreRaisesIn(step, d) {
      assert R.WorkOne(s.net, d);
    }
  }

  lemma ComputedStays(net: R.State, move: Option<R.Step>, d: R.DeliveryId)
    requires (move.Some? ==> R.Enabled(net, move.value)) && d in net.computed
    ensures d in NetMoved(net, move).computed
  {
  }

  lemma StepKeepsCauses(s: State, step: Step, verify: Verifier, d: R.DeliveryId, late: bool, stored: bool)
    requires T.Tracked(s.bank) && T.IndexFits(s.bank) && LiveFit(s) && R.WorkFits(s.net) && PushingFit(s)
    requires Enabled(s, step, verify) && Grew(s, Apply(s, step, verify)) && CausesFit(s, d, late, stored)
    requires Untroubled(s, d)
    ensures CausesFit(Apply(s, step, verify), d, late || RaisesLateIn(step, d), stored || StoreRaisesIn(step, d))
  {
    CauseIsRecorded(s, step, verify, d);
    if stored {
      ComputedStays(s.net, NetMove(s, step), d);
    }
    if HasFailed(s.net, d) {
      if NetMove(s, step).Some? {
        NeverHandlingAgain(s.net, NetMove(s, step).value, d);
      }
      if IsCommitted(AfterBank(s, step, verify), d) {
        IdleCommitsNoMore(s, step, verify, d);
      }
    } else if HasFailed(AfterNet(s, step, verify), d) {
      NewFailureCause(s, step, verify, d);
    }
  }

  ghost predicate Untroubled(s: State, d: R.DeliveryId) {
    (d in s.net.computed ==> s.net.computed[d].status != 500) && (Wrote500(s.net, d) ==> d in s.net.deliveries)
  }

  lemma FitIsUntroubled(s: State, d: R.DeliveryId)
    requires ComputedFit(s) && R.WritesFit(s.net)
    ensures Untroubled(s, d)
  {
    if d in s.net.computed {
      assert Justified(s, d, s.net.computed[d]);
    }
  }

  lemma {:induction false} RunKeepsCauses(s: State, steps: seq<Step>, verify: Verifier, d: R.DeliveryId,
                                          late: bool, stored: bool)
    requires Inv(s, verify) && Run(Next(verify), s, steps).Some? && CausesFit(s, d, late, stored)
    ensures CausesFit(Run(Next(verify), s, steps).value, d,
                      late || RaisedLate(steps, d), stored || StoreRaised(steps, d))
    decreases |steps|
  {
    if steps != [] {
      var step := steps[0];
      OneStepKeepsCauses(s, step, verify, d, late, stored);
      RunKeepsCauses(Apply(s, step, verify), steps[1..], verify, d,
                     late || RaisesLateIn(step, d), stored || StoreRaisesIn(step, d));
    }
  }

  lemma OneStepKeepsCauses(s: State, step: Step, verify: Verifier, d: R.DeliveryId, late: bool, stored: bool)
    requires Inv(s, verify) && Enabled(s, step, verify) && CausesFit(s, d, late, stored)
    ensures Inv(Apply(s, step, verify), verify)
    ensures CausesFit(Apply(s, step, verify), d, late || RaisesLateIn(step, d), stored || StoreRaisesIn(step, d))
  {
    T.ReachableInv(s.bank);
    R.ReachableInv(s.net);
    FitIsUntroubled(s, d);
    StepGrows(s, step, verify);
    StepKeepsCauses(s, step, verify, d, late, stored);
    StepKeepsInv(s, step, verify);
  }

  lemma RunCauses(steps: seq<Step>, s: State, verify: Verifier, d: R.DeliveryId)
    requires Run(Next(verify), INITIAL, steps) == Some(s)
    ensures Reachable(s, verify) && CausesFit(s, d, RaisedLate(steps, d), StoreRaised(steps, d))
  {
    InitialInv(verify);
    RunKeepsCauses(INITIAL, steps, verify, d, false, false);
  }

  /** The reply that the handler of `d` had computed was a 200 for a transfer. */
  ghost predicate HadSucceeded(s: State, d: R.DeliveryId) {
    && d in s.net.computed && s.net.computed[d].status == 200
    && Known(s.net, d) && MessageOf(s.net, d).action != "health"
  }

  /** 500: the delivery that stored it has committed the transfer if and only if its handler raised after the commit
      had taken effect (the lost acknowledgement of the commit itself, a row that could not be read again, the
      push), or the handler succeeded and storing its 200 raised. */
  lemma ErrorHidesCommitIff(steps: seq<Step>, s: State, verify: Verifier, w: R.Write)
    requires Run(Next(verify), INITIAL, steps) == Some(s)
    requires w in s.net.writes && w.response.status == 500
    ensures IsCommitted(s.bank, w.delivery) <==>
            RaisedLate(steps, w.delivery) || (StoreRaised(steps, w.delivery) && HadSucceeded(s, w.delivery))
  {
    RunCauses(steps, s, verify, w.delivery);
    WriterHasCid(s, verify, w);
    if w.delivery in s.net.computed {
      SuccessIsCommit(s, verify, w.delivery);
    }
  }

  lemma WriterHasCid(s: State, verify: Verifier, w: R.Write)
    requires Reachable(s, verify) && w in s.net.writes
    ensures Known(s.net, w.delivery) && s.net.deliveries[w.delivery].cid == w.cid
  {
    PartsAreReachable(s, verify);
    R.ReachableInv(s.net);
  }

  /** Of the handlers that returned, those that had succeeded are the ones that committed. */
  lemma SuccessIsCommit(s: State, verify: Verifier, d: R.DeliveryId)
    requires Reachable(s, verify) && d in s.net.computed
    ensures HadSucceeded(s, d) <==> IsCommitted(s.bank, d)
  {
    ComputedIsJustified(s, verify, d);
    if IsCommitted(s.bank, d) {
      CommittedIsHis(s, verify, d);
      StartedIsTransfer(s, verify, d);
    }
  }

  lemma StartedIsTransfer(s: State, verify: Verifier, d: R.DeliveryId)
    requires Reachable(s, verify) && d in s.auth
    ensures Known(s.net, d) && MessageOf(s.net, d).action != "health"
  {
    ReachableInv(s, verify);
  }

  /** What a client may conclude from 500: some delivery of its message stored it, and that one moved the money
      exactly if the failure came after the commit took effect. */
  lemma ErrorAnswer(steps: seq<Step>, s: State, verify: Verifier, cid: R.Cid) returns (d: R.DeliveryId)
    requires Run(Next(verify), INITIAL, steps) == Some(s) && AnsweredWith(s, cid, 500)
    ensures d in s.net.deliveries && s.net.deliveries[d].cid == cid
    ensures R.Write(d, cid, s.net.producers[cid].result) in s.net.writes
    ensures IsCommitted(s.bank, d) <==> RaisedLate(steps, d) || (StoreRaised(steps, d) && HadSucceeded(s, d))
  {
    RunCauses(steps, s, verify, 0);
    d := AnswerIsWritten(s, verify, cid);
    ErrorHidesCommitIff(steps, s, verify, R.Write(d, cid, s.net.producers[cid].result));
  }
}
