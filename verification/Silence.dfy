/** When the API answers 504 or 502, and that it then says which. */
module Silence {
  import opened Collections
  import opened Bank
  import opened Runs
  import opened Backend
  import opened Guarantees
  import R = Rpc

  /** The message-protocol step took place in the course of the run. */
  ghost predicate Happened(steps: seq<Step>, w: R.Step) {
    exists i :: 0 <= i < |steps| && steps[i] == Wire(w)
  }

  /** How often the producer of `cid` looked for its reply. */
  function Reads(steps: seq<Step>, cid: R.Cid): nat {
    if steps == [] then 0 else (if steps[0] == Wire(R.Read(cid)) then 1 else 0) + Reads(steps[1..], cid)
  }

  function ProducerOf(net: R.State, cid: R.Cid): Option<R.Producer> {
    if cid in net.producers then Some(net.producers[cid]) else None
  }

  /** How often a producer that still waits has looked. */
  function Polls(p: Option<R.Producer>): Option<nat> {
    match p
    case None => Some(0)
    case Some(p) => if p.Waiting? then Some(p.polls) else None
  }

  /** What one step, if it is one of the message protocol, does to the producer of `cid`. */
  ghost predicate ProducerMoves(move: Option<R.Step>, cid: R.Cid, before: Option<R.Producer>,
                                after: Option<R.Producer>)
  {
    if move == Some(R.Read(cid)) then
      && Polls(before).Some? && Polls(before).value < 600
      && after.Some? && (after.value.Got? || after.value == R.Waiting(Polls(before).value + 1))
    else if move == Some(R.Timeout(cid)) then before == Some(R.Waiting(600)) && after == Some(R.TimedOut)
    else if move == Some(R.Break(cid)) then
      before.Some? && (before.value.Waiting? || before.value.Got?) && after == Some(R.Broken)
    else
      || after == before
      || (before == None && after == Some(R.Waiting(0)))
      || (before.Some? && before.value.Got? && after.Some? && after.value.Returned?)
  }

  lemma MoveMovesProducer(net: R.State, move: Option<R.Step>, cid: R.Cid)
    requires net.producers.Keys == net.messages.Keys && (move.Some? ==> R.Enabled(net, move.value))
    ensures ProducerMoves(move, cid, ProducerOf(net, cid), ProducerOf(NetMoved(net, move), cid))
    ensures NetMoved(net, move).producers.Keys == NetMoved(net, move).messages.Keys
  {
  }

  lemma OnlyWireReads(s: State, step: Step, w: R.Step)
    requires Allowed(s, step) && (w.Read? || w.Timeout? || w.Break?)
    ensures NetMove(s, step) == Some(w) <==> step == Wire(w)
  {
  }

  /** What the steps of a run have to do with where the producer of `cid` began and ended. */
  ghost predicate RunFits(steps: seq<Step>, cid: R.Cid, before: Option<R.Producer>, after: Option<R.Producer>) {
    && (after == Some(R.Broken) <==> before == Some(R.Broken) || Happened(steps, R.Break(cid)))
    && (after == Some(R.TimedOut) <==> before == Some(R.TimedOut) || Happened(steps, R.Timeout(cid)))
    && (Polls(after).Some? ==> Polls(before).Some? && Polls(after).value == Polls(before).value + Reads(steps, cid))
    && (Polls(before).None? ==> Reads(steps, cid) == 0)
    && (after == Some(R.TimedOut) && Polls(before).None? ==> before == Some(R.TimedOut))
    && (after == Some(R.TimedOut) && Polls(before).Some? ==> Polls(before).value + Reads(steps, cid) == 600)
  }

  ghost predicate IsMoveOf(step: Step, move: Option<R.Step>) {
    forall w: R.Step :: w.Read? || w.Timeout? || w.Break? ==> (move == Some(w) <==> step == Wire(w))
  }

  lemma HappenedFirst(steps: seq<Step>, w: R.Step)
    requires steps != []
    ensures Happened(steps, w) <==> steps[0] == Wire(w) || Happened(steps[1..], w)
  {
    if Happened(steps, w) {
      var i :| 0 <= i < |steps| && steps[i] == Wire(w);
      assert i > 0 ==> steps[1..][i - 1] == Wire(w);
    }
    if Happened(steps[1..], w) {
      var i :| 0 <= i < |steps[1..]| && steps[1..][i] == Wire(w);
      assert steps[i + 1] == Wire(w);
    }
  }

  lemma OneMoreFits(steps: seq<Step>, cid: R.Cid, move: Option<R.Step>, first: Option<R.Producer>,
                    second: Option<R.Producer>, last: Option<R.Producer>)
    requires steps != [] && IsMoveOf(steps[0], move)
    requires ProducerMoves(move, cid, first, second) && RunFits(steps[1..], cid, second, last)
    ensures RunFits(steps, cid, first, last)
  {
    HappenedFirst(steps, R.Break(cid));
    HappenedFirst(steps, R.Timeout(cid));
    assert move == Some(R.Read(cid)) <==> steps[0] == Wire(R.Read(cid));
  }

  lemma {:induction false} RunMovesProducer(s: State, steps: seq<Step>, verify: Verifier, cid: R.Cid)
    requires s.net.producers.Keys == s.net.messages.Keys && Run(Next(verify), s, steps).Some?
    ensures RunFits(steps, cid, ProducerOf(s.net, cid), ProducerOf(Run(Next(verify), s, steps).value.net, cid))
    decreases |steps|
  {
    if steps != [] {
      var step := steps[0];
      var after := Apply(s, step, verify);
      PartsAfter(s, step, verify);
      MoveMovesProducer(s.net, NetMove(s, step), cid);
      forall w: R.Step | w.Read? || w.Timeout? || w.Break? ensures NetMove(s, step) == Some(w) <==> step == Wire(w) {
        OnlyWireReads(s, step, w);
      }
      RunMovesProducer(after, steps[1..], verify, cid);
      OneMoreFits(steps, cid, NetMove(s, step), ProducerOf(s.net, cid), ProducerOf(after.net, cid),
                  ProducerOf(Run(Next(verify), s, steps).value.net, cid));
    }
  }

  /** No handler's own reply is 502 or 504. */
  lemma ReturnedStatus(s: State, verify: Verifier, cid: R.Cid)
    requires Reachable(s, verify) && cid in s.net.producers && s.net.producers[cid].Returned?
    ensures s.net.producers[cid].result.status in {200, 400, 404, 500}
  {
    var d := AnswerIsWritten(s, verify, cid);
    if s.net.producers[cid].result.status != 500 {
      ComputedIsJustified(s, verify, d);
    }
  }

  /** 504 if and only if the producer gave up waiting, having looked 600 times; 502 if and only if its channel or Redis
      broke; and every other answer was read from the reply key. */
  lemma SilenceMeans(steps: seq<Step>, s: State, verify: Verifier, cid: R.Cid)
    requires Run(Next(verify), INITIAL, steps) == Some(s)
    ensures AnsweredWith(s, cid, 504) <==> Happened(steps, R.Timeout(cid))
    ensures AnsweredWith(s, cid, 504) ==> Reads(steps, cid) == 600
    ensures AnsweredWith(s, cid, 502) <==> Happened(steps, R.Break(cid))
    ensures forall status :: AnsweredWith(s, cid, status) && status != 502 && status != 504 ==>
      s.net.producers[cid].Returned? && s.net.producers[cid].result.status == status
  {
    RunMovesProducer(INITIAL, steps, verify, cid);
    if cid in s.net.producers && s.net.producers[cid].Returned? {
      ReturnedStatus(s, verify, cid);
    }
  }
}
