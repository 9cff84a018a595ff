/** Request and reply over RabbitMQ and Redis. */
module Rpc {
  import opened Bank
  import opened Collections
  import opened Runs

  // A producer publishes a message under a fresh correlation id and polls the Redis key
  // of that id.  Consumers take messages, store a reply under the same id and
  // acknowledge.  Delivery is at least once: a delivery whose channel is lost is given
  // out again, even while its first handler may still be at work.

  type Cid = nat
  type DeliveryId = nat

  const RESPONSE_TIMEOUT: nat := 60
  const MAX_READS: nat := RESPONSE_TIMEOUT * 10

  datatype Message = Message(action: string, session: string, req: Request)

  datatype Work =
    | Handling                     // the body is parsed, the handler runs
    | Computed(result: Response)   // the handler returned, its reply is to be stored
    | Failing(detail: string)      // something raised, a 500 reply is to be stored
    | Answered                     // a reply was stored, the context manager will acknowledge
    | Acked
    | Lost                         // raised or cancelled on the way out: rejected without requeue
    | Dead                         // the process is gone

  /** `attached`: RabbitMQ still counts this delivery as the message's unacknowledged one. */
  datatype Delivery = Delivery(cid: Cid, work: Work, attached: bool)

  datatype Producer =
    | Waiting(polls: nat)
    | Got(result: Response)        // read, the key is to be deleted
    | Returned(result: Response)
    | TimedOut                     // answered 504
    | Broken                       // answered 502

  datatype Write = Write(delivery: DeliveryId, cid: Cid, response: Response)

  /** `computed`, `writes` and `released` are history, the last one: which deliveries went back to the queue because
      their channel was lost or their process died. */
  datatype State = State(
    messages: map<Cid, Message>,
    ready: set<Cid>,
    settled: set<Cid>,
    deliveries: map<DeliveryId, Delivery>,
    replies: map<Cid, Response>,
    producers: map<Cid, Producer>,
    computed: map<DeliveryId, Response>,
    writes: set<Write>,
    released: set<DeliveryId>)

  const INITIAL: State := State(map[], {}, {}, map[], map[], map[], map[], {}, {})

  datatype Step =
    | Publish(cid: Cid, message: Message)
    | Deliver(d: DeliveryId, cid: Cid)
    | Compute(d: DeliveryId, result: Response)
    | Raise(d: DeliveryId, detail: string)
    | Store(d: DeliveryId)
    | StoreRaises(d: DeliveryId, written: bool, detail: string)
    | StoreError(d: DeliveryId)
    | StoreErrorRaises(d: DeliveryId, written: bool)
    | Ack(d: DeliveryId)
    | Cancel(d: DeliveryId)
    | Detach(d: DeliveryId)
    | Kill(d: DeliveryId)
    | Expire(cid: Cid)
    | Read(cid: Cid)
    | Timeout(cid: Cid)
    | Remove(cid: Cid)
    | Break(cid: Cid)

  /** SETEX, whether or not it then raises. */
  predicate IsStore(step: Step) {
    step.Store? || step.StoreError? || (step.StoreRaises? && step.written) || (step.StoreErrorRaises? && step.written)
  }

  predicate Ended(w: Work) { w.Acked? || w.Lost? || w.Dead? }

  predicate Enabled(s: State, step: Step) {
    match step
    case Publish(cid, _) => cid !in s.messages
    case Deliver(d, cid) => d !in s.deliveries && cid in s.ready
    case Compute(d, _) => d in s.deliveries && s.deliveries[d].work.Handling?
    case Raise(d, _) => d in s.deliveries && s.deliveries[d].work.Handling?
    case Store(d) => d in s.deliveries && s.deliveries[d].work.Computed?
    case StoreRaises(d, _, _) => d in s.deliveries && s.deliveries[d].work.Computed?
    case StoreError(d) => d in s.deliveries && s.deliveries[d].work.Failing?
    case StoreErrorRaises(d, _) => d in s.deliveries && s.deliveries[d].work.Failing?
    case Ack(d) => d in s.deliveries && s.deliveries[d].work.Answered? && s.deliveries[d].attached
    case Cancel(d) => d in s.deliveries && !Ended(s.deliveries[d].work) && !s.deliveries[d].work.Answered?
    case Detach(d) => d in s.deliveries && s.deliveries[d].attached
    case Kill(d) => d in s.deliveries && !Ended(s.deliveries[d].work)
    case Expire(cid) => cid in s.replies
    case Read(cid) => cid in s.producers && s.producers[cid].Waiting? && s.producers[cid].polls < MAX_READS
    case Timeout(cid) => cid in s.producers && s.producers[cid] == Waiting(MAX_READS)
    case Remove(cid) => cid in s.producers && s.producers[cid].Got?
    case Break(cid) => cid in s.producers && (s.producers[cid].Waiting? || s.producers[cid].Got?)
  }

  function ErrorReply(detail: string): Response { Refuse(500, detail) }

  function Turn(s: State, d: DeliveryId, w: Work): State
    requires d in s.deliveries
  {
    s.(deliveries := s.deliveries[d := s.deliveries[d].(work := w)])
  }

  /** SETEX response:{cid} */
  function WriteReply(s: State, d: DeliveryId, r: Response): State
    requires d in s.deliveries
  {
    var cid := s.deliveries[d].cid;
    s.(replies := s.replies[cid := r], writes := s.writes + {Write(d, cid, r)})
  }

  /** The delivery ends; if it was attached its message is settled or goes back to the queue. */
  function End(s: State, d: DeliveryId, w: Work, requeue: bool): State
    requires d in s.deliveries
  {
    var v := s.deliveries[d];
    var freed := if v.attached then {v.cid} else {};
    s.(deliveries := s.deliveries[d := v.(work := w, attached := false)],
       ready := if requeue then s.ready + freed else s.ready,
       settled := if requeue then s.settled else s.settled + freed,
       released := if requeue && v.attached then s.released + {d} else s.released)
  }

  function Apply(s: State, step: Step): State
    requires Enabled(s, step)
  {
    match step
    case Publish(cid, message) =>
      s.(messages := s.messages[cid := message], ready := s.ready + {cid}, producers := s.producers[cid := Waiting(0)])
    case Deliver(d, cid) =>
      s.(ready := s.ready - {cid}, deliveries := s.deliveries[d := Delivery(cid, Handling, true)])
    case Compute(d, result) => Turn(s, d, Computed(result)).(computed := s.computed[d := result])
    case Raise(d, detail) => Turn(s, d, Failing(detail))
    case Store(d) => Turn(WriteReply(s, d, s.deliveries[d].work.result), d, Answered)
    case StoreRaises(d, written, detail) =>
      Turn(if written then WriteReply(s, d, s.deliveries[d].work.result) else s, d, Failing(detail))
    case StoreError(d) => Turn(WriteReply(s, d, ErrorReply(s.deliveries[d].work.detail)), d, Answered)
    case StoreErrorRaises(d, written) =>
      End(if written then WriteReply(s, d, ErrorReply(s.deliveries[d].work.detail)) else s, d, Lost, false)
    case Ack(d) => End(s, d, Acked, false)
    case Cancel(d) => End(s, d, Lost, false)
    case Detach(d) => End(s, d, s.deliveries[d].work, true)
    case Kill(d) => End(s, d, Dead, true)
    case Expire(cid) => s.(replies := s.replies - {cid})
    case Read(cid) =>
      s.(producers := s.producers[cid := if cid in s.replies then Got(s.replies[cid])
                                         else Waiting(s.producers[cid].polls + 1)])
    case Timeout(cid) => s.(producers := s.producers[cid := TimedOut])
    case Remove(cid) =>
      s.(replies := s.replies - {cid}, producers := s.producers[cid := Returned(s.producers[cid].result)])
    case Break(cid) => s.(producers := s.producers[cid := Broken])
  }

  // ----- the invariant

  /** Some delivery of message `cid` wrote `r`. */
  ghost predicate WrittenFor(s: State, cid: Cid, r: Response) {
    exists d :: Write(d, cid, r) in s.writes
  }

  /** Every reply was written by a delivery of its own message: what the handler computed, or a 500. */
  ghost predicate WriteFits(s: State, w: Write) {
    && w.delivery in s.deliveries && s.deliveries[w.delivery].cid == w.cid
    && (w.response.status == 500 || (w.delivery in s.computed && s.computed[w.delivery] == w.response))
  }

  ghost predicate WritesFit(s: State) {
    forall w :: w in s.writes ==> WriteFits(s, w)
  }

  ghost predicate RepliesFit(s: State) {
    && (forall cid :: cid in s.replies ==> WrittenFor(s, cid, s.replies[cid]))
    && (forall cid :: cid in s.producers && (s.producers[cid].Got? || s.producers[cid].Returned?) ==>
         WrittenFor(s, cid, s.producers[cid].result))
    && (forall cid :: cid in s.producers && s.producers[cid].Waiting? ==> s.producers[cid].polls <= MAX_READS)
  }

  ghost predicate WorkOne(s: State, d: DeliveryId)
    requires d in s.deliveries
  {
    match s.deliveries[d].work
    case Handling => d !in s.computed
    case Computed(r) => d in s.computed && s.computed[d] == r
    case Answered | Acked => HasWritten(s, d, s.deliveries[d].cid)
    case _ => true
  }

  ghost predicate HasWritten(s: State, d: DeliveryId, cid: Cid) {
    exists r :: Write(d, cid, r) in s.writes
  }

  ghost predicate WorkFits(s: State) {
    s.computed.Keys <= s.deliveries.Keys && forall d :: d in s.deliveries ==> WorkOne(s, d)
  }

  ghost predicate KeysFit(s: State) {
    && s.producers.Keys == s.messages.Keys && s.replies.Keys <= s.messages.Keys
    && s.ready <= s.messages.Keys && s.settled <= s.messages.Keys
    && (forall d :: d in s.deliveries ==> s.deliveries[d].cid in s.messages)
  }

  ghost predicate AttachedOne(s: State, d: DeliveryId)
    requires d in s.deliveries
  {
    s.deliveries[d].attached ==>
      !Ended(s.deliveries[d].work) && s.deliveries[d].cid !in s.ready && s.deliveries[d].cid !in s.settled
  }

  ghost predicate AttachedFit(s: State) {
    s.ready !! s.settled && forall d :: d in s.deliveries ==> AttachedOne(s, d)
  }

  ghost predicate OneAttached(s: State) {
    forall a, b :: a in s.deliveries && b in s.deliveries && a != b
                   && s.deliveries[a].attached && s.deliveries[b].attached ==>
      s.deliveries[a].cid != s.deliveries[b].cid
  }

  /** A published message is in at most one place: queued, out with its one attached delivery, or settled. */
  ghost predicate PlacesFit(s: State) {
    KeysFit(s) && AttachedFit(s) && OneAttached(s)
  }

  ghost predicate Out(s: State, cid: Cid) {
    exists d :: d in s.deliveries && s.deliveries[d].attached && s.deliveries[d].cid == cid
  }

  ghost predicate Accounted(s: State) {
    forall cid :: cid in s.messages && cid !in s.ready && cid !in s.settled ==> Out(s, cid)
  }

  /** A settled message was acknowledged or lost. */
  ghost predicate SettledFit(s: State) {
    forall cid :: cid in s.settled ==> Concluded(s, cid)
  }

  predicate Concludes(s: State, d: DeliveryId, cid: Cid) {
    d in s.deliveries && s.deliveries[d].cid == cid && (s.deliveries[d].work.Acked? || s.deliveries[d].work.Lost?)
  }

  ghost predicate Concluded(s: State, cid: Cid) {
    exists d :: Concludes(s, d, cid)
  }

  ghost predicate Inv(s: State) {
    WritesFit(s) && RepliesFit(s) && WorkFits(s) && PlacesFit(s) && Accounted(s) && SettledFit(s)
  }

  lemma StepKeepsWrites(s: State, step: Step)
    requires WritesFit(s) && WorkFits(s) && Enabled(s, step)
    ensures WritesFit(Apply(s, step))
  {
    forall w | w in Apply(s, step).writes ensures WriteFits(Apply(s, step), w) {
      assert w in s.writes ==> WriteFits(s, w);
      assert w !in s.writes ==> WorkOne(s, w.delivery);
    }
  }

  lemma StepKeepsReplies(s: State, step: Step)
    requires RepliesFit(s) && Enabled(s, step)
    ensures RepliesFit(Apply(s, step))
  {
  }

  lemma WritesOnlyGrow(s: State, step: Step)
    requires Enabled(s, step)
    ensures s.writes <= Apply(s, step).writes
  {
  }

  lemma StepKeepsWorkOne(s: State, step: Step, d: DeliveryId)
    requires d in s.deliveries && WorkOne(s, d) && Enabled(s, step) && s.writes <= Apply(s, step).writes
    ensures d in Apply(s, step).deliveries && WorkOne(Apply(s, step), d)
  {
    var after := Apply(s, step);
    var cid := s.deliveries[d].cid;
    if HasWritten(s, d, cid) {
      var r :| Write(d, cid, r) in s.writes;
      assert Write(d, cid, r) in after.writes;
    }
    if step.Store? && step.d == d {
      assert Write(d, cid, s.deliveries[d].work.result) in after.writes;
    }
    if step.StoreError? && step.d == d {
      assert Write(d, cid, ErrorReply(s.deliveries[d].work.detail)) in after.writes;
    }
  }

  lemma StepKeepsWork(s: State, step: Step)
    requires WorkFits(s) && Enabled(s, step)
    ensures WorkFits(Apply(s, step))
  {
    var after := Apply(s, step);
    WritesOnlyGrow(s, step);
    forall d | d in after.deliveries ensures WorkOne(after, d) {
      if d in s.deliveries {
        StepKeepsWorkOne(s, step, d);
      }
    }
  }

  lemma StepKeepsKeys(s: State, step: Step)
    requires KeysFit(s) && Enabled(s, step)
    ensures KeysFit(Apply(s, step))
  {
    var after := Apply(s, step);
    forall d | d in after.deliveries ensures after.deliveries[d].cid in after.messages {
      assert d in s.deliveries ==> s.deliveries[d].cid in s.messages;
    }
  }

  predicate IsEnd(step: Step) {
    step.StoreErrorRaises? || step.Ack? || step.Cancel? || step.Detach? || step.Kill?
  }

  lemma ReleasedIsElsewhere(s: State, step: Step)
    requires PlacesFit(s) && Enabled(s, step)
    ensures Apply(s, step).ready !! Apply(s, step).settled
  {
    if IsEnd(step) {
      assert AttachedOne(s, step.d);
    }
  }

  lemma StepKeepsAttached(s: State, step: Step)
    requires PlacesFit(s) && Enabled(s, step)
    ensures AttachedFit(Apply(s, step))
  {
    ReleasedIsElsewhere(s, step);
  }

  lemma StepKeepsOneAttached(s: State, step: Step)
    requires AttachedFit(s) && OneAttached(s) && Enabled(s, step)
    ensures OneAttached(Apply(s, step))
  {
    var after := Apply(s, step).deliveries;
    forall a, b | a in after && b in after && a != b && after[a].attached && after[b].attached
      ensures after[a].cid != after[b].cid
    {
      assert a in s.deliveries ==> AttachedOne(s, a);
      assert b in s.deliveries ==> AttachedOne(s, b);
    }
  }

  lemma StepKeepsAccounted(s: State, step: Step)
    requires Accounted(s) && Enabled(s, step)
    ensures Accounted(Apply(s, step))
  {
    var after := Apply(s, step);
    forall cid | cid in after.messages && cid !in after.ready && cid !in after.settled ensures Out(after, cid) {
      if step.Deliver? && step.cid == cid {
        assert after.deliveries[step.d].cid == cid;
      } else {
        var d :| d in s.deliveries && s.deliveries[d].attached && s.deliveries[d].cid == cid;
        assert after.deliveries[d].attached && after.deliveries[d].cid == cid;
      }
    }
  }

  lemma StepKeepsSettled(s: State, step: Step)
    requires SettledFit(s) && Enabled(s, step)
    ensures SettledFit(Apply(s, step))
  {
    var after := Apply(s, step);
    forall cid | cid in after.settled ensures Concluded(after, cid) {
      if cid in s.settled {
        var d :| Concludes(s, d, cid);
        assert Concludes(after, d, cid);
      } else {
        assert Concludes(after, step.d, cid);
      }
    }
  }

  lemma StepKeepsInv(s: State, step: Step)
    requires Inv(s) && Enabled(s, step)
    ensures Inv(Apply(s, step))
  {
    StepKeepsWrites(s, step);
    StepKeepsReplies(s, step);
    StepKeepsWork(s, step);
    StepKeepsKeys(s, step);
    StepKeepsAttached(s, step);
    StepKeepsOneAttached(s, step);
    StepKeepsAccounted(s, step);
    StepKeepsSettled(s, step);
  }

  ghost function Next(s: State, step: Step): Option<State> {
    if Enabled(s, step) then Some(Apply(s, step)) else None
  }

  ghost predicate Reachable(s: State) { LeadsTo(Next, INITIAL, s) }

  lemma ReachableInv(s: State)
    requires Reachable(s)
    ensures Inv(s)
  {
    forall x, step | Inv(x) && Next(x, step).Some? ensures Inv(Next(x, step).value) {
      StepKeepsInv(x, step);
    }
    LeadsToKept(Next, Inv, INITIAL, s);
  }

  // ----- the guarantees

  /** What a producer was given was written by a delivery of the message it published: the reply that
      delivery computed, or a 500. */
  lemma OwnReplyOnly(s: State, cid: Cid) returns (d: DeliveryId)
    requires Reachable(s) && cid in s.producers && (s.producers[cid].Got? || s.producers[cid].Returned?)
    ensures d in s.deliveries && s.deliveries[d].cid == cid
    ensures var r := s.producers[cid].result;
            Write(d, cid, r) in s.writes && (r.status == 500 || (d in s.computed && s.computed[d] == r))
  {
    ReachableInv(s);
    var r := s.producers[cid].result;
    d :| Write(d, cid, r) in s.writes;
  }

  lemma DeliveryIsKnown(s: State, d: DeliveryId)
    requires Reachable(s) && d in s.deliveries
    ensures s.deliveries[d].cid in s.messages
  {
    ReachableInv(s);
  }

  /** A new request finds nothing under its key: replies that came too late stay under their own. */
  lemma NewKeyIsEmpty(s: State, cid: Cid, message: Message)
    requires Reachable(s) && Enabled(s, Publish(cid, message))
    ensures cid !in s.replies && cid !in Apply(s, Publish(cid, message)).replies
  {
    ReachableInv(s);
  }

  predicate IsFinal(p: Producer) { p.Returned? || p.TimedOut? || p.Broken? }

  /** An answered request stays as it was answered: whoever has given up never reads a reply that comes later,
      however the run goes on. */
  lemma AnsweredForGood(s: State, after: State, cid: Cid)
    requires Inv(s) && LeadsTo(Next, s, after) && cid in s.producers && IsFinal(s.producers[cid])
    ensures cid in after.producers && after.producers[cid] == s.producers[cid]
  {
    var inv := (x: State) => KeysFit(x) && cid in x.producers && x.producers[cid] == s.producers[cid];
    forall x, step | inv(x) && Next(x, step).Some? ensures inv(Next(x, step).value) {
      StepKeepsKeys(x, step);
    }
    LeadsToKept(Next, inv, s, after);
  }

  /** A reply is read once: when it is returned its key is gone, and no other. */
  lemma ReturnedReplyIsGone(s: State, cid: Cid)
    requires Enabled(s, Remove(cid))
    ensures var after := Apply(s, Remove(cid));
            && after.producers[cid] == Returned(s.producers[cid].result) && cid !in after.replies
            && forall other :: other in s.replies && other != cid ==>
                 other in after.replies && after.replies[other] == s.replies[other]
  {
  }

  /** A store that raises may stand all the same; after one of the handler's reply a 500 is to be stored, after one of
      the 500 the message is rejected. */
  lemma RaisedStoreMayStand(s: State, d: DeliveryId, written: bool, detail: string)
    ensures Enabled(s, StoreRaises(d, written, detail)) ==>
      var after, cid := Apply(s, StoreRaises(d, written, detail)), s.deliveries[d].cid;
      && after.replies == (if written then s.replies[cid := s.deliveries[d].work.result] else s.replies)
      && after.deliveries[d].work == Failing(detail) && after.deliveries[d].attached == s.deliveries[d].attached
    ensures Enabled(s, StoreErrorRaises(d, written)) ==>
      var after, cid := Apply(s, StoreErrorRaises(d, written)), s.deliveries[d].cid;
      var reply := Response(500, Detail(s.deliveries[d].work.detail));
      && after.replies == (if written then s.replies[cid := reply] else s.replies)
      && after.deliveries[d].work == Lost && after.ready == s.ready
      && (s.deliveries[d].attached ==> cid in after.settled)
  {
  }

  /** Something raised in delivery `d`, with this text. */
  ghost predicate RaisedWith(steps: seq<Step>, d: DeliveryId, detail: string) {
    exists i :: 0 <= i < |steps| && (steps[i].Raise? || steps[i].StoreRaises?)
                && steps[i].d == d && steps[i].detail == detail
  }

  lemma RaisedLater(steps: seq<Step>, d: DeliveryId, detail: string)
    requires steps != [] && RaisedWith(steps[1..], d, detail)
    ensures RaisedWith(steps, d, detail)
  {
    var i :| 0 <= i < |steps[1..]| && (steps[1..][i].Raise? || steps[1..][i].StoreRaises?)
             && steps[1..][i].d == d && steps[1..][i].detail == detail;
    assert steps[i + 1] == steps[1..][i];
  }

  /** Where a delivery that is failing got its text. */
  lemma {:induction false} RunFails(s: State, steps: seq<Step>, d: DeliveryId)
    requires Run(Next, s, steps).Some?
    requires d in Run(Next, s, steps).value.deliveries && Run(Next, s, steps).value.deliveries[d].work.Failing?
    ensures var failing := Run(Next, s, steps).value.deliveries[d].work;
            || (d in s.deliveries && s.deliveries[d].work == failing)
            || RaisedWith(steps, d, failing.detail)
    decreases |steps|
  {
    if steps != [] {
      var after, failing := Apply(s, steps[0]), Run(Next, s, steps).value.deliveries[d].work;
      RunFails(after, steps[1..], d);
      if RaisedWith(steps[1..], d, failing.detail) {
        RaisedLater(steps, d, failing.detail);
      } else if !(d in s.deliveries && s.deliveries[d].work == failing) {
        assert (steps[0].Raise? || steps[0].StoreRaises?) && steps[0].d == d && steps[0].detail == failing.detail;
      }
    }
  }

  /** The 500 that a delivery stores carries the text of what raised in it. */
  lemma ErrorTellsWhatRaised(steps: seq<Step>, s: State, d: DeliveryId)
    requires Run(Next, INITIAL, steps) == Some(s) && Enabled(s, StoreError(d))
    ensures exists detail :: RaisedWith(steps, d, detail)
                             && Apply(s, StoreError(d)).replies[s.deliveries[d].cid] == Response(500, Detail(detail))
  {
    RunFails(INITIAL, steps, d);
  }

  /** Some reply was stored for message `cid`. */
  ghost predicate StoredFor(s: State, cid: Cid) {
    exists w :: w in s.writes && w.cid == cid
  }

  /** While the producer waits, the key is there if and only if a reply was ever stored. */
  ghost predicate KeyTells(s: State, cid: Cid) {
    cid in s.producers && s.producers[cid].Waiting? ==> (cid in s.replies <==> StoredFor(s, cid))
  }

  lemma StepKeepsKeyTelling(s: State, step: Step, cid: Cid)
    requires WritesFit(s) && KeysFit(s) && KeyTells(s, cid) && Enabled(s, step) && step != Expire(cid)
    ensures KeyTells(Apply(s, step), cid)
  {
    assert !IsStore(step) ==> Apply(s, step).writes == s.writes;
  }

  /** Steps other than that the key of `cid` expires. */
  ghost function NextWithKey(cid: Cid): (State, Step) -> Option<State> {
    (s: State, step: Step) => if step == Expire(cid) then None else Next(s, step)
  }

  lemma KeyTellsAlways(s: State, cid: Cid)
    requires LeadsTo(NextWithKey(cid), INITIAL, s)
    ensures Inv(s) && KeyTells(s, cid)
  {
    var inv := (x: State) => Inv(x) && KeyTells(x, cid);
    forall x, step | inv(x) && NextWithKey(cid)(x, step).Some? ensures inv(NextWithKey(cid)(x, step).value) {
      StepKeepsKeyTelling(x, step, cid);
      StepKeepsInv(x, step);
    }
    LeadsToKept(NextWithKey(cid), inv, INITIAL, s);
  }

  /** As long as the key does not expire, a read misses if and only if no reply has been stored; so a
      request is answered 504 only if none had been at the last of its reads. */
  lemma ReadMissesIff(s: State, cid: Cid)
    requires LeadsTo(NextWithKey(cid), INITIAL, s) && Enabled(s, Read(cid))
    ensures Apply(s, Read(cid)).producers[cid].Waiting? <==> !StoredFor(s, cid)
  {
    KeyTellsAlways(s, cid);
  }

  /** An acknowledged delivery has stored a reply for its message. */
  lemma AckImpliesStored(s: State, d: DeliveryId)
    requires Reachable(s) && d in s.deliveries && s.deliveries[d].work.Acked?
    ensures exists r :: Write(d, s.deliveries[d].cid, r) in s.writes
  {
    ReachableInv(s);
  }

  /** No message vanishes: it is queued, or out with exactly one attached delivery, or it was settled
      by an acknowledgement that follows a stored reply or by a rejection. */
  lemma EveryMessageAccountedFor(s: State, cid: Cid)
    requires Reachable(s) && cid in s.messages
    ensures cid in s.ready || cid in s.settled || Out(s, cid)
    ensures !(cid in s.ready && cid in s.settled)
    ensures !(cid in s.ready && Out(s, cid)) && !(cid in s.settled && Out(s, cid))
    ensures cid in s.settled ==>
      exists d :: d in s.deliveries && s.deliveries[d].cid == cid &&
        (s.deliveries[d].work.Lost? || (s.deliveries[d].work.Acked? && exists r :: Write(d, cid, r) in s.writes))
  {
    ReachableInv(s);
    if cid in s.settled {
      assert Concluded(s, cid);
    }
  }

  // ----- how often a message is delivered

  function DeliveriesOf(s: State, cid: Cid): set<DeliveryId> {
    set d | d in s.deliveries && s.deliveries[d].cid == cid
  }

  /** Its deliveries that were lost with their channel or their process. */
  function LossesOf(s: State, cid: Cid): set<DeliveryId> {
    DeliveriesOf(s, cid) * s.released
  }

  /** The one delivery of a message that is not in the queue, and was not put back there. */
  ghost predicate IsKept(s: State, d: DeliveryId, cid: Cid) {
    DeliveriesOf(s, cid) - s.released == {d}
  }

  ghost predicate LossesFitOne(s: State, cid: Cid) {
    if cid in s.ready then DeliveriesOf(s, cid) <= s.released else exists d :: IsKept(s, d, cid)
  }

  ghost predicate LossesFit(s: State) {
    && (forall d :: d in s.released ==> d in s.deliveries && !s.deliveries[d].attached)
    && (forall cid :: cid in s.messages ==> LossesFitOne(s, cid))
  }

  lemma DeliveriesAfter(s: State, step: Step, cid: Cid)
    requires Enabled(s, step)
    ensures DeliveriesOf(Apply(s, step), cid) ==
            DeliveriesOf(s, cid) + if step.Deliver? && step.cid == cid then {step.d} else {}
  {
  }

  predicate IsLoss(s: State, step: Step)
    requires Enabled(s, step)
  {
    (step.Detach? || step.Kill?) && s.deliveries[step.d].attached
  }

  lemma ReadyAfter(s: State, step: Step, cid: Cid)
    requires Enabled(s, step)
    ensures var after := Apply(s, step);
            if IsLoss(s, step) then
              after.ready == s.ready + {s.deliveries[step.d].cid} && after.released == s.released + {step.d}
            else
              && after.released == s.released
              && after.ready == if step.Publish? then s.ready + {step.cid}
                                else if step.Deliver? then s.ready - {step.cid} else s.ready
  {
  }

  lemma StepKeepsLossesOne(s: State, step: Step, cid: Cid)
    requires KeysFit(s) && AttachedFit(s) && LossesFit(s) && Enabled(s, step) && cid in Apply(s, step).messages
    ensures LossesFitOne(Apply(s, step), cid)
  {
    var after := Apply(s, step);
    DeliveriesAfter(s, step, cid);
    ReadyAfter(s, step, cid);
    if cid in s.messages {
      assert LossesFitOne(s, cid);
      if cid in s.ready {
        if cid !in after.ready {
          assert IsKept(after, step.d, cid);
        }
      } else {
        var d :| IsKept(s, d, cid);
        if IsLoss(s, step) && s.deliveries[step.d].cid == cid {
          assert step.d in DeliveriesOf(s, cid) - s.released;
        } else {
          assert IsKept(after, d, cid);
        }
      }
    }
  }

  lemma StepKeepsLosses(s: State, step: Step)
    requires KeysFit(s) && AttachedFit(s) && LossesFit(s) && Enabled(s, step)
    ensures LossesFit(Apply(s, step))
  {
    forall cid | cid in Apply(s, step).messages ensures LossesFitOne(Apply(s, step), cid) {
      StepKeepsLossesOne(s, step, cid);
    }
  }

  lemma ReachableLosses(s: State)
    requires Reachable(s)
    ensures LossesFit(s)
  {
    var inv := (x: State) => Inv(x) && LossesFit(x);
    forall x, step | inv(x) && Next(x, step).Some? ensures inv(Next(x, step).value) {
      StepKeepsInv(x, step);
      StepKeepsLosses(x, step);
    }
    LeadsToKept(Next, inv, INITIAL, s);
  }

  /** A message is delivered once more than it was lost, unless it is in the queue: redelivery has no other cause. */
  lemma DeliveriesCounted(s: State, cid: Cid)
    requires Reachable(s) && cid in s.messages
    ensures |DeliveriesOf(s, cid)| == |LossesOf(s, cid)| + if cid in s.ready then 0 else 1
  {
    ReachableLosses(s);
    var all, lost := DeliveriesOf(s, cid), LossesOf(s, cid);
    assert LossesFitOne(s, cid);
    if cid in s.ready {
      assert all == lost;
    } else {
      var d :| IsKept(s, d, cid);
      assert all == lost + {d} && d !in lost;
    }
  }
}
