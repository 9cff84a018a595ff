/** The transfer back end as a whole: producers and consumers (`Rpc`) whose handlers run
    transactions (`Transfers`), with login sessions, a clock and push notices.

    A step is a step of one part, or of both at once where the handler's progress and its
    transaction meet.  A transaction has the id of the delivery that runs it. */
module Backend {
  import opened Bank
  import opened Collections
  import opened Runs
  import T = Transfers
  import R = Rpc

  datatype Session = Session(user: UserId, createdAt: nat)

  /** A successful login: who, with which password, and the session it opened. */
  datatype Login = Login(sid: string, user: UserId, password: string, at: nat)

  /** The session check a handler passed. */
  datatype Auth = Auth(user: UserId, createdAt: nat, checkedAt: nat)

  /** A committed transfer whose handler is not through with its push notice. */
  datatype Push = Push(note: Notification, response: Response)

  /** `pushed`, `logins` and `auth` are history. */
  datatype State = State(
    bank: T.State,
    net: R.State,
    pushing: map<R.DeliveryId, Push>,
    pushed: set<Notification>,
    now: nat,
    sessions: map<string, Session>,
    logins: set<Login>,
    auth: map<R.DeliveryId, Auth>)

  const INITIAL: State := State(T.INITIAL, R.INITIAL, map[], {}, 0, map[], {}, map[])

  /** `RaisesLate`: the commit took effect, and then something in the handler raised.  Its acknowledgement was lost, the
      rows expired by the commit could not be read again, before the push or after it, or the push raised;
      `sent` says whether the notice went out. */
  datatype Step =
    | Tick
    | OpenSession(sid: string, user: UserId, password: string)
    | Wire(wire: R.Step)                              // message traffic that leaves the handler alone
    | Row(row: T.Step)                                // a database step that does not end a transaction
    | Health(d: R.DeliveryId)
    | CheckRaises(d: R.DeliveryId, detail: string)     // no such session, an expired one, or Redis failed
    | Invalid(d: R.DeliveryId)
    | Start(d: R.DeliveryId)
    | Finish(last: T.Step, detail: string)            // the transaction ends without a commit
    | Commit(d: R.DeliveryId)
    | SendPush(d: R.DeliveryId)
    | RaisesLate(d: R.DeliveryId, sent: bool, detail: string)
    | Rollback(d: R.DeliveryId, detail: string)       // the database raised: deadlock victim, lost connection
    | Stop(stop: R.Step)                              // the process dies, or the task is cancelled

  predicate LeavesHandlers(w: R.Step) {
    !w.Compute? && !w.Raise? && !w.Cancel? && !w.Kill?
  }

  /** Between two database statements of one handler, or a registration. */
  ghost predicate Continues(s: T.State, step: T.Step)
    requires T.Enabled(s, step)
  {
    step.Register? || (!step.Begin? && !step.Abort? && step.tx in T.Apply(s, step).live)
  }

  /** The statement that ends a transaction, and how. */
  ghost predicate Ends(s: T.State, step: T.Step)
    requires T.Enabled(s, step)
  {
    !step.Register? && !step.Begin? && !step.Abort? && step.tx !in T.Apply(s, step).live
  }

  ghost function LastEntry(s: T.State, step: T.Step): T.Entry
    requires T.Enabled(s, step) && Ends(s, step)
  {
    T.Apply(s, step).log[|s.log|]
  }

  predicate LiveSession(s: State, sid: string) {
    sid != "" && sid in s.sessions && s.now < s.sessions[sid].createdAt + SESSION_TTL
  }

  /** The delivery's handler has just parsed its message. */
  predicate AtStart(s: State, d: R.DeliveryId) {
    && d in s.net.deliveries && s.net.deliveries[d].work.Handling? && d !in s.bank.begun
    && s.net.deliveries[d].cid in s.net.messages
  }

  function MessageOf(net: R.State, d: R.DeliveryId): R.Message
    requires d in net.deliveries && net.deliveries[d].cid in net.messages
  {
    net.messages[net.deliveries[d].cid]
  }

  /** The message-protocol step that a step of the whole performs, if any. */
  ghost function NetMove(s: State, step: Step): Option<R.Step>
    requires Allowed(s, step)
  {
    match step
    case Wire(w) => Some(w)
    case Health(d) => Some(R.Compute(d, HEALTHY))
    case CheckRaises(d, detail) => Some(R.Raise(d, detail))
    case Invalid(d) => Some(R.Compute(d, Refusal(MessageOf(s.net, d).req).value))
    case Finish(last, detail) =>
      (match LastEntry(s.bank, last).outcome
       case Replied(r) => Some(R.Compute(last.tx, r))
       case Raised(_) => Some(R.Raise(last.tx, detail)))
    case SendPush(d) => Some(R.Compute(d, s.pushing[d].response))
    case RaisesLate(d, _, detail) => Some(R.Raise(d, detail))
    case Rollback(d, detail) => Some(R.Raise(d, detail))
    case Stop(w) => Some(w)
    case _ => None
  }

  /** The database step that it performs, if any. */
  ghost function BankMove(s: State, step: Step): Option<T.Step>
    requires Allowed(s, step)
  {
    match step
    case Row(r) => Some(r)
    case Start(d) => Some(T.Begin(d, s.sessions[MessageOf(s.net, d).session].user, MessageOf(s.net, d).req))
    case Finish(last, _) => Some(last)
    case Commit(d) => Some(T.Decide(d))
    case Rollback(d, _) => Some(T.Abort(d))
    case Stop(w) => if w.d in s.bank.live then Some(T.Abort(w.d)) else None
    case _ => None
  }

  /** The handler's own tests. */
  ghost predicate Allowed(s: State, step: Step) {
    match step
    case Tick => true
    case OpenSession(sid, user, password) => user in s.bank.db.users && forall l :: l in s.logins ==> l.sid != sid
    case Wire(w) => LeavesHandlers(w)
    case Row(r) => T.Enabled(s.bank, r) && Continues(s.bank, r)
    case Health(d) => AtStart(s, d) && MessageOf(s.net, d).action == "health"
    case CheckRaises(d, _) => AtStart(s, d) && MessageOf(s.net, d).action != "health"
    case Invalid(d) =>
      && AtStart(s, d) && MessageOf(s.net, d).action != "health" && LiveSession(s, MessageOf(s.net, d).session)
      && Refusal(MessageOf(s.net, d).req).Some?
    case Start(d) =>
      AtStart(s, d) && MessageOf(s.net, d).action != "health" && LiveSession(s, MessageOf(s.net, d).session)
    case Finish(last, _) =>
      T.Enabled(s.bank, last) && Ends(s.bank, last) && LastEntry(s.bank, last).Refused?
    case Commit(d) =>
      T.Enabled(s.bank, T.Decide(d)) && Ends(s.bank, T.Decide(d)) && LastEntry(s.bank, T.Decide(d)).Committed?
    case SendPush(d) => d in s.pushing
    case RaisesLate(d, _, _) => d in s.pushing
    case Rollback(d, _) => d in s.bank.live
    case Stop(w) => w.Kill? || w.Cancel?
  }

  ghost predicate Enabled(s: State, step: Step, verify: Verifier) {
    && Allowed(s, step)
    && (step.OpenSession? ==> verify(step.password, s.bank.db.users[step.user].passwordHash))
    && (NetMove(s, step).Some? ==> R.Enabled(s.net, NetMove(s, step).value))
    && (BankMove(s, step).Some? ==> T.Enabled(s.bank, BankMove(s, step).value))
  }

  /** The notice a commit leaves to be pushed: the receiver's text, made from the handler's copies. */
  ghost function PushFor(s: T.State, d: R.DeliveryId): Push
    requires T.Enabled(s, T.Decide(d)) && Ends(s, T.Decide(d)) && LastEntry(s, T.Decide(d)).Committed?
  {
    var t := s.live[d];
    Push(Notification(t.phase.receiver, ReceivedText(t.req.amount, t.held[t.user])),
         LastEntry(s, T.Decide(d)).outcome.response)
  }

  function NetMoved(net: R.State, move: Option<R.Step>): R.State
    requires move.Some? ==> R.Enabled(net, move.value)
  {
    if move.Some? then R.Apply(net, move.value) else net
  }

  ghost function BankMoved(bank: T.State, move: Option<T.Step>): T.State
    requires move.Some? ==> T.Enabled(bank, move.value)
  {
    if move.Some? then T.Apply(bank, move.value) else bank
  }

  ghost function AfterNet(s: State, step: Step, verify: Verifier): R.State
    requires Enabled(s, step, verify)
  {
    NetMoved(s.net, NetMove(s, step))
  }

  ghost function AfterBank(s: State, step: Step, verify: Verifier): T.State
    requires Enabled(s, step, verify)
  {
    BankMoved(s.bank, BankMove(s, step))
  }

  ghost function Apply(s: State, step: Step, verify: Verifier): State
    requires Enabled(s, step, verify)
  {
    var moved := s.(net := AfterNet(s, step, verify), bank := AfterBank(s, step, verify));
    match step
    case Tick => moved.(now := s.now + 1)
    case OpenSession(sid, user, password) =>
      moved.(sessions := s.sessions[sid := Session(user, s.now)],
             logins := s.logins + {Login(sid, user, password, s.now)})
    case Start(d) =>
      var session := s.sessions[MessageOf(s.net, d).session];
      moved.(auth := s.auth[d := Auth(session.user, session.createdAt, s.now)])
    case Commit(d) => moved.(pushing := s.pushing[d := PushFor(s.bank, d)])
    case SendPush(d) => moved.(pushed := s.pushed + {s.pushing[d].note}, pushing := s.pushing - {d})
    case RaisesLate(d, sent, _) =>
      moved.(pushed := if sent then s.pushed + {s.pushing[d].note} else s.pushed, pushing := s.pushing - {d})
    case Stop(w) => moved.(pushing := s.pushing - {w.d})
    case _ => moved
  }

  ghost function Next(verify: Verifier): (State, Step) -> Option<State> {
    (s: State, step: Step) => if Enabled(s, step, verify) then Some(Apply(s, step, verify)) else None
  }

  ghost predicate Reachable(s: State, verify: Verifier) { LeadsTo(Next(verify), INITIAL, s) }

  // ----- the invariant

  ghost predicate Known(net: R.State, d: R.DeliveryId) {
    d in net.deliveries && net.deliveries[d].cid in net.messages
  }

  ghost predicate Logged(bank: T.State, d: T.TxId) {
    d in bank.at && bank.at[d] < |bank.log| && !bank.log[bank.at[d]].Registered?
  }

  function EntryOf(bank: T.State, d: T.TxId): T.Entry
    requires d in bank.at && bank.at[d] < |bank.log|
  {
    bank.log[bank.at[d]]
  }

  ghost predicate IsCommitted(bank: T.State, d: T.TxId) {
    Logged(bank, d) && EntryOf(bank, d).Committed?
  }

  /** A transaction belongs to a delivery of a transfer message, whose session check it passed. */
  ghost predicate BegunFit(s: State) {
    && s.bank.begun == s.auth.Keys
    && forall d :: d in s.auth ==> Known(s.net, d) && MessageOf(s.net, d).action != "health"
  }

  /** The login that opened a session. */
  ghost predicate OpenedBy(s: State, sid: string, user: UserId, at: nat) {
    exists l :: l in s.logins && l.sid == sid && l.user == user && l.at == at
  }

  ghost predicate LoginsVerified(s: State, verify: Verifier) {
    forall l :: l in s.logins ==>
      l.user in s.bank.db.users && verify(l.password, s.bank.db.users[l.user].passwordHash)
  }

  ghost predicate SidsUnique(s: State) {
    forall a, b :: a in s.logins && b in s.logins && a.sid == b.sid ==> a == b
  }

  ghost predicate SessionsOpened(s: State) {
    forall sid :: sid in s.sessions ==> OpenedBy(s, sid, s.sessions[sid].user, s.sessions[sid].createdAt)
  }

  ghost predicate LoginsFit(s: State, verify: Verifier) {
    LoginsVerified(s, verify) && SidsUnique(s) && SessionsOpened(s)
  }

  ghost predicate AuthOne(s: State, d: R.DeliveryId)
    requires d in s.auth && Known(s.net, d)
  {
    && s.auth[d].checkedAt < s.auth[d].createdAt + SESSION_TTL
    && OpenedBy(s, MessageOf(s.net, d).session, s.auth[d].user, s.auth[d].createdAt)
  }

  ghost predicate AuthsFit(s: State) {
    forall d :: d in s.auth && Known(s.net, d) ==> AuthOne(s, d)
  }

  /** A live transaction is run by a handler at work, for its user and its message's request. */
  ghost predicate LiveOne(s: State, d: R.DeliveryId)
    requires d in s.bank.live
  {
    && d in s.auth && Known(s.net, d) && s.net.deliveries[d].work.Handling? && d !in s.pushing
    && s.bank.live[d].user == s.auth[d].user && s.bank.live[d].req == MessageOf(s.net, d).req
  }

  ghost predicate LiveFit(s: State) {
    forall d :: d in s.bank.live ==> LiveOne(s, d)
  }

  /** A logged transaction was its user's, with its message's request. */
  ghost predicate EntryOne(s: State, d: R.DeliveryId)
    requires d in s.bank.at
  {
    && d in s.auth && Known(s.net, d) && Logged(s.bank, d)
    && EntryOf(s.bank, d).user == s.auth[d].user && EntryOf(s.bank, d).req == MessageOf(s.net, d).req
  }

  ghost predicate EntriesFit(s: State) {
    forall d :: d in s.bank.at ==> EntryOne(s, d)
  }

  /** A pending push is for a committed transfer, whose note is in the table. */
  ghost predicate PushOne(s: State, d: R.DeliveryId)
    requires d in s.pushing
  {
    && Known(s.net, d) && s.net.deliveries[d].work.Handling? && MessageOf(s.net, d).action != "health"
    && IsCommitted(s.bank, d) && EntryOf(s.bank, d).outcome == Replied(s.pushing[d].response)
    && s.pushing[d].response.status == 200 && s.pushing[d].note in s.bank.db.notifications
  }

  ghost predicate PushingFit(s: State) {
    forall d :: d in s.pushing ==> PushOne(s, d)
  }

  ghost predicate PushedFit(s: State) {
    forall n :: n in s.pushed ==> n in s.bank.db.notifications
  }

  /** What a handler may return for its message: 200 only for a committed transfer with that very
      reply, 400 and 404 only if it committed nothing. */
  ghost predicate Justified(s: State, d: R.DeliveryId, r: Response)
    requires Known(s.net, d)
  {
    if MessageOf(s.net, d).action == "health" then r == HEALTHY
    else
      && r.status in {200, 400, 404}
      && (r.status == 200 ==> IsCommitted(s.bank, d) && EntryOf(s.bank, d).outcome == Replied(r))
      && (r.status != 200 ==> !IsCommitted(s.bank, d))
  }

  ghost predicate ComputedFit(s: State) {
    forall d :: d in s.net.computed ==> Known(s.net, d) && Justified(s, d, s.net.computed[d])
  }

  /** The parts are what runs of their own lead to, so all that holds of those holds here. */
  ghost predicate PartsReachable(s: State) {
    T.Reachable(s.bank) && R.Reachable(s.net)
  }

  ghost predicate Inv(s: State, verify: Verifier) {
    && PartsReachable(s)
    && BegunFit(s) && LoginsFit(s, verify) && AuthsFit(s) && LiveFit(s) && EntriesFit(s)
    && PushingFit(s) && PushedFit(s) && ComputedFit(s)
  }

  // ----- each step is a step, or none, of each part

  lemma StepKeepsParts(s: State, step: Step, verify: Verifier)
    requires PartsReachable(s) && Enabled(s, step, verify)
    ensures PartsReachable(Apply(s, step, verify))
  {
    BankMoves(s.bank, BankMove(s, step));
    NetMoves(s.net, NetMove(s, step));
  }

  lemma BankMoves(bank: T.State, move: Option<T.Step>)
    requires T.Reachable(bank) && (move.Some? ==> T.Enabled(bank, move.value))
    ensures T.Reachable(BankMoved(bank, move))
  {
    if move.Some? {
      OneMoreStep(T.Next, T.INITIAL, bank, move.value);
    }
  }

  lemma NetMoves(net: R.State, move: Option<R.Step>)
    requires R.Reachable(net) && (move.Some? ==> R.Enabled(net, move.value))
    ensures R.Reachable(NetMoved(net, move))
  {
    if move.Some? {
      OneMoreStep(R.Next, R.INITIAL, net, move.value);
    }
  }

  // ----- preservation

  ghost predicate BankGrew(bank: T.State, after: T.State) {
    && bank.begun <= after.begun
    && bank.db.users.Keys <= after.db.users.Keys
    && (forall id :: id in bank.db.users ==>
         && after.db.users[id].passwordHash == bank.db.users[id].passwordHash
         && after.db.users[id].username == bank.db.users[id].username)
    && (forall d :: Logged(bank, d) ==> Logged(after, d) && EntryOf(after, d) == EntryOf(bank, d))
    && bank.db.notifications <= after.db.notifications
  }

  ghost predicate NetGrew(net: R.State, after: R.State) {
    forall d :: Known(net, d) ==> Known(after, d) && MessageOf(after, d) == MessageOf(net, d)
  }

  /** All that the next lemmas need to know of a step in general: the histories grew. */
  ghost predicate Grew(s: State, after: State) {
    BankGrew(s.bank, after.bank) && NetGrew(s.net, after.net) && s.logins <= after.logins
  }

  lemma LogStays(bank: T.State, step: T.Step)
    requires T.Tracked(bank) && T.IndexFits(bank) && T.Enabled(bank, step)
    ensures var after := T.Apply(bank, step);
            forall d :: Logged(bank, d) ==> Logged(after, d) && EntryOf(after, d) == EntryOf(bank, d)
  {
  }

  lemma UsersStay(bank: T.State, step: T.Step)
    requires T.Enabled(bank, step)
    ensures var before, after := bank.db.users, T.Apply(bank, step).db.users;
            forall id :: id in before ==> id in after && after[id] == before[id].(balance := after[id].balance)
  {
  }

  lemma BankGrows(bank: T.State, step: T.Step)
    requires T.Tracked(bank) && T.IndexFits(bank) && T.Enabled(bank, step)
    ensures BankGrew(bank, T.Apply(bank, step))
  {
    LogStays(bank, step);
    UsersStay(bank, step);
  }

  lemma NetGrows(net: R.State, step: R.Step)
    requires R.Enabled(net, step)
    ensures NetGrew(net, R.Apply(net, step))
  {
  }

  lemma PartsGrow(bank: T.State, bankMove: Option<T.Step>, net: R.State, netMove: Option<R.Step>)
    requires T.Tracked(bank) && T.IndexFits(bank) && (bankMove.Some? ==> T.Enabled(bank, bankMove.value))
    requires netMove.Some? ==> R.Enabled(net, netMove.value)
    ensures BankGrew(bank, BankMoved(bank, bankMove)) && NetGrew(net, NetMoved(net, netMove))
  {
    if bankMove.Some? {
      BankGrows(bank, bankMove.value);
    }
    if netMove.Some? {
      NetGrows(net, netMove.value);
    }
  }

  lemma PartsAfter(s: State, step: Step, verify: Verifier)
    requires Enabled(s, step, verify)
    ensures Apply(s, step, verify).bank == AfterBank(s, step, verify)
    ensures Apply(s, step, verify).net == AfterNet(s, step, verify)
    ensures s.logins <= Apply(s, step, verify).logins
  {
  }

  lemma StepGrows(s: State, step: Step, verify: Verifier)
    requires T.Tracked(s.bank) && T.IndexFits(s.bank) && Enabled(s, step, verify)
    ensures Grew(s, Apply(s, step, verify))
  {
    PartsAfter(s, step, verify);
    PartsGrow(s.bank, BankMove(s, step), s.net, NetMove(s, step));
  }

  /** Only `Start` begins a transaction, and passes the session check for it. */
  lemma BegunAfter(s: State, step: Step, verify: Verifier)
    requires Enabled(s, step, verify)
    ensures var d := if step.Start? then {step.d} else {};
            AfterBank(s, step, verify).begun == s.bank.begun + d && Apply(s, step, verify).auth.Keys == s.auth.Keys + d
  {
  }

  lemma StepKeepsBegun(s: State, step: Step, verify: Verifier)
    requires BegunFit(s) && Enabled(s, step, verify) && Grew(s, Apply(s, step, verify))
    ensures BegunFit(Apply(s, step, verify))
  {
    BegunAfter(s, step, verify);
    PartsAfter(s, step, verify);
  }

  lemma OpenedStays(s: State, after: State, sid: string, user: UserId, at: nat)
    requires OpenedBy(s, sid, user, at) && s.logins <= after.logins
    ensures OpenedBy(after, sid, user, at)
  {
    var l :| l in s.logins && l.sid == sid && l.user == user && l.at == at;
    assert l in after.logins;
  }

  lemma StepKeepsSessions(s: State, step: Step, verify: Verifier)
    requires SessionsOpened(s) && Enabled(s, step, verify)
    ensures SessionsOpened(Apply(s, step, verify))
  {
    var after := Apply(s, step, verify);
    forall sid | sid in after.sessions
      ensures OpenedBy(after, sid, after.sessions[sid].user, after.sessions[sid].createdAt)
    {
      if step.OpenSession? && step.sid == sid {
        assert Login(sid, step.user, step.password, s.now) in after.logins;
      } else {
        OpenedStays(s, after, sid, s.sessions[sid].user, s.sessions[sid].createdAt);
      }
    }
  }

  lemma StepKeepsLogins(s: State, step: Step, verify: Verifier)
    requires LoginsFit(s, verify) && Enabled(s, step, verify) && Grew(s, Apply(s, step, verify))
    ensures LoginsFit(Apply(s, step, verify), verify)
  {
    StepKeepsSessions(s, step, verify);
  }

  lemma StepKeepsAuths(s: State, step: Step, verify: Verifier)
    requires BegunFit(s) && LoginsFit(s, verify) && AuthsFit(s) && Enabled(s, step, verify)
    requires Grew(s, Apply(s, step, verify))
    ensures AuthsFit(Apply(s, step, verify))
  {
    var after := Apply(s, step, verify);
    forall d | d in after.auth && Known(after.net, d) ensures AuthOne(after, d) {
      if step != Start(d) {
        assert AuthOne(s, d);
        OpenedStays(s, after, MessageOf(s.net, d).session, s.auth[d].user, s.auth[d].createdAt);
      }
    }
  }

  /** How one database step changes the set of live transactions. */
  lemma LiveAfter(bank: T.State, step: T.Step, d: T.TxId)
    requires T.Enabled(bank, step) && d in T.Apply(bank, step).live
    ensures var t := T.Apply(bank, step).live[d];
            if d in bank.live && !(step.Begin? && step.tx == d)
            then t.user == bank.live[d].user && t.req == bank.live[d].req
            else step.Begin? && step.tx == d && t.user == step.user && t.req == step.req
  {
  }

  /** And what a transaction's new log entry says of it. */
  lemma LoggedAfter(bank: T.State, step: T.Step, d: T.TxId)
    requires T.Tracked(bank) && T.IndexFits(bank) && T.Enabled(bank, step)
    requires d in T.Apply(bank, step).at && d !in bank.at
    ensures d in bank.live && Logged(T.Apply(bank, step), d)
    ensures EntryOf(T.Apply(bank, step), d).user == bank.live[d].user
    ensures EntryOf(T.Apply(bank, step), d).req == bank.live[d].req
  {
  }

  lemma HandlingStays(net: R.State, step: R.Step, d: R.DeliveryId)
    requires R.Enabled(net, step) && d in net.deliveries && net.deliveries[d].work.Handling?
    requires !Interrupts(step, d)
    ensures R.Apply(net, step).deliveries[d].work.Handling?
  {
  }

  /** A message step that takes delivery `d` out of its handler. */
  predicate Interrupts(w: R.Step, d: R.DeliveryId) {
    (w.Compute? || w.Raise? || w.Cancel? || w.Kill?) && w.d == d
  }

  ghost predicate Interrupted(s: State, step: Step, verify: Verifier, d: R.DeliveryId)
    requires Enabled(s, step, verify)
  {
    NetMove(s, step).Some? && Interrupts(NetMove(s, step).value, d)
  }

  lemma NetMovedStays(net: R.State, move: Option<R.Step>, d: R.DeliveryId)
    requires move.Some? ==> R.Enabled(net, move.value) && !Interrupts(move.value, d)
    requires d in net.deliveries && net.deliveries[d].work.Handling?
    ensures d in NetMoved(net, move).deliveries && NetMoved(net, move).deliveries[d].work.Handling?
  {
    if move.Some? {
      HandlingStays(net, move.value, d);
    }
  }

  lemma WorkStays(s: State, step: Step, verify: Verifier, d: R.DeliveryId)
    requires Enabled(s, step, verify) && !Interrupted(s, step, verify, d)
    requires d in s.net.deliveries && s.net.deliveries[d].work.Handling?
    ensures d in AfterNet(s, step, verify).deliveries && AfterNet(s, step, verify).deliveries[d].work.Handling?
  {
    NetMovedStays(s.net, NetMove(s, step), d);
  }

  /** A transaction that stays live keeps its handler. */
  lemma LiveKeepsHandler(s: State, step: Step, verify: Verifier, d: R.DeliveryId)
    requires T.Tracked(s.bank) && Enabled(s, step, verify)
    requires d in s.bank.live && LiveOne(s, d) && d in AfterBank(s, step, verify).live
    ensures !Interrupted(s, step, verify, d)
  {
  }

  lemma StepKeepsLiveOne(s: State, step: Step, verify: Verifier, d: R.DeliveryId)
    requires T.Tracked(s.bank) && BegunFit(s) && Enabled(s, step, verify) && Grew(s, Apply(s, step, verify))
    requires d in s.bank.live && LiveOne(s, d) && d in AfterBank(s, step, verify).live
    ensures LiveOne(Apply(s, step, verify), d)
  {
    LiveKeepsHandler(s, step, verify, d);
    WorkStays(s, step, verify, d);
    if BankMove(s, step).Some? {
      LiveAfter(s.bank, BankMove(s, step).value, d);
    }
  }

  lemma OnlyStartBegins(s: State, step: Step, verify: Verifier, d: R.DeliveryId)
    requires Enabled(s, step, verify) && d !in s.bank.live && d in AfterBank(s, step, verify).live
    ensures step == Start(d)
  {
  }

  lemma StepKeepsLive(s: State, step: Step, verify: Verifier)
    requires T.Tracked(s.bank) && BegunFit(s) && LiveFit(s) && PushingFit(s) && Enabled(s, step, verify)
    requires Grew(s, Apply(s, step, verify))
    ensures LiveFit(Apply(s, step, verify))
  {
    var after := Apply(s, step, verify);
    forall d | d in after.bank.live ensures LiveOne(after, d) {
      if d in s.bank.live {
        StepKeepsLiveOne(s, step, verify, d);
      } else {
        OnlyStartBegins(s, step, verify, d);
      }
    }
  }

  lemma OldEntryStays(s: State, step: Step, verify: Verifier, d: R.DeliveryId)
    requires BegunFit(s) && Enabled(s, step, verify) && Grew(s, Apply(s, step, verify))
    requires d in s.bank.at && EntryOne(s, d)
    ensures d in Apply(s, step, verify).bank.at && EntryOne(Apply(s, step, verify), d)
  {
  }

  lemma NewEntryFits(s: State, step: Step, verify: Verifier, d: R.DeliveryId)
    requires T.Tracked(s.bank) && T.IndexFits(s.bank) && LiveFit(s)
    requires Enabled(s, step, verify) && Grew(s, Apply(s, step, verify))
    requires d in AfterBank(s, step, verify).at && d !in s.bank.at
    ensures EntryOne(Apply(s, step, verify), d)
  {
    LoggedAfter(s.bank, BankMove(s, step).value, d);
    assert LiveOne(s, d);
  }

  lemma StepKeepsEntries(s: State, step: Step, verify: Verifier)
    requires T.Tracked(s.bank) && T.IndexFits(s.bank) && BegunFit(s) && LiveFit(s) && EntriesFit(s)
    requires Enabled(s, step, verify) && Grew(s, Apply(s, step, verify))
    ensures EntriesFit(Apply(s, step, verify))
  {
    PartsAfter(s, step, verify);
    var after := Apply(s, step, verify);
    forall d | d in after.bank.at ensures EntryOne(after, d) {
      if d in s.bank.at {
        OldEntryStays(s, step, verify, d);
      } else {
        NewEntryFits(s, step, verify, d);
      }
    }
  }

  lemma StepKeepsPushed(s: State, step: Step, verify: Verifier)
    requires PushingFit(s) && PushedFit(s) && Enabled(s, step, verify) && Grew(s, Apply(s, step, verify))
    ensures PushedFit(Apply(s, step, verify))
  {
  }

  lemma CommitPushes(s: State, d: R.DeliveryId, verify: Verifier)
    requires T.LocksHold(s.bank) && LiveFit(s) && BegunFit(s) && Enabled(s, Commit(d), verify)
    ensures PushOne(Apply(s, Commit(d), verify), d)
  {
  }

  lemma StepKeepsPushOne(s: State, step: Step, verify: Verifier, d: R.DeliveryId)
    requires BegunFit(s) && LiveFit(s) && Enabled(s, step, verify) && Grew(s, Apply(s, step, verify))
    requires d in s.pushing && PushOne(s, d) && d in Apply(s, step, verify).pushing && step != Commit(d)
    requires T.Tracked(s.bank)
    ensures PushOne(Apply(s, step, verify), d)
  {
    WorkStays(s, step, verify, d);
  }

  lemma StepKeepsPushing(s: State, step: Step, verify: Verifier)
    requires T.LocksHold(s.bank) && LiveFit(s) && BegunFit(s) && PushingFit(s)
    requires Enabled(s, step, verify) && Grew(s, Apply(s, step, verify))
    ensures PushingFit(Apply(s, step, verify))
  {
    var after := Apply(s, step, verify);
    forall d | d in after.pushing ensures PushOne(after, d) {
      if step == Commit(d) {
        CommitPushes(s, d, verify);
      } else {
        StepKeepsPushOne(s, step, verify, d);
      }
    }
  }

  lemma ComputedAfter(net: R.State, w: R.Step, d: R.DeliveryId)
    requires R.Enabled(net, w) && d in R.Apply(net, w).computed
    ensures if w.Compute? && w.d == d then R.Apply(net, w).computed[d] == w.result
            else d in net.computed && R.Apply(net, w).computed[d] == net.computed[d]
  {
  }

  lemma OnlyDecideCommits(bank: T.State, move: T.Step, d: T.TxId)
    requires T.Tracked(bank) && T.IndexFits(bank) && T.Enabled(bank, move)
    requires IsCommitted(T.Apply(bank, move), d) && !IsCommitted(bank, d)
    ensures move == T.Decide(d) && d in bank.live && Ends(bank, move) && LastEntry(bank, move).Committed?
  {
  }

  lemma OnlyCommitCommits(s: State, step: Step, verify: Verifier, d: R.DeliveryId)
    requires T.Tracked(s.bank) && T.IndexFits(s.bank) && Enabled(s, step, verify)
    requires IsCommitted(AfterBank(s, step, verify), d) && !IsCommitted(s.bank, d)
    ensures step == Commit(d) && d in s.bank.live
  {
    OnlyDecideCommits(s.bank, BankMove(s, step).value, d);
  }

  /** A delivery whose handler is no longer at work commits nothing any more. */
  lemma IdleCommitsNoMore(s: State, step: Step, verify: Verifier, d: R.DeliveryId)
    requires T.Tracked(s.bank) && T.IndexFits(s.bank) && LiveFit(s) && Enabled(s, step, verify)
    requires d in s.net.deliveries && !s.net.deliveries[d].work.Handling? && IsCommitted(AfterBank(s, step, verify), d)
    ensures IsCommitted(s.bank, d)
  {
    assert d in s.bank.live ==> LiveOne(s, d);
    if !IsCommitted(s.bank, d) {
      OnlyCommitCommits(s, step, verify, d);
    }
  }

  lemma OldResultJustified(s: State, step: Step, verify: Verifier, d: R.DeliveryId)
    requires T.Tracked(s.bank) && T.IndexFits(s.bank) && R.WorkFits(s.net) && LiveFit(s)
    requires Enabled(s, step, verify) && Grew(s, Apply(s, step, verify))
    requires d in s.net.computed && Known(s.net, d) && Justified(s, d, s.net.computed[d])
    ensures Known(Apply(s, step, verify).net, d) && Justified(Apply(s, step, verify), d, s.net.computed[d])
  {
    if IsCommitted(AfterBank(s, step, verify), d) {
      assert R.WorkOne(s.net, d);
      IdleCommitsNoMore(s, step, verify, d);
    }
  }

  lemma FinishJustified(s: State, last: T.Step, detail: string, verify: Verifier)
    requires T.Tracked(s.bank) && T.IndexFits(s.bank) && LiveFit(s) && BegunFit(s)
    requires Enabled(s, Finish(last, detail), verify) && LastEntry(s.bank, last).outcome.Replied?
    ensures var after := Apply(s, Finish(last, detail), verify);
            var r := LastEntry(s.bank, last).outcome.response;
            Known(after.net, last.tx) && Justified(after, last.tx, r)
  {
  }

  lemma EarlyReplyJustified(s: State, step: Step, verify: Verifier)
    requires T.Tracked(s.bank) && Enabled(s, step, verify) && (step.Health? || step.Invalid?)
    ensures Known(Apply(s, step, verify).net, step.d)
    ensures Justified(Apply(s, step, verify), step.d, NetMove(s, step).value.result)
  {
  }

  lemma NewResultJustified(s: State, step: Step, verify: Verifier, d: R.DeliveryId)
    requires T.Tracked(s.bank) && T.IndexFits(s.bank) && BegunFit(s) && LiveFit(s) && PushingFit(s)
    requires Enabled(s, step, verify) && NetMove(s, step).Some?
    requires NetMove(s, step).value.Compute? && NetMove(s, step).value.d == d
    ensures Known(Apply(s, step, verify).net, d)
    ensures Justified(Apply(s, step, verify), d, NetMove(s, step).value.result)
  {
    match step
    case Finish(last, detail) => FinishJustified(s, last, detail, verify);
    case SendPush(_) => assert PushOne(s, d);
    case Health(_) => EarlyReplyJustified(s, step, verify);
    case Invalid(_) => EarlyReplyJustified(s, step, verify);
    case _ =>
  }

  lemma ResultJustified(s: State, step: Step, verify: Verifier, d: R.DeliveryId)
    requires T.Tracked(s.bank) && T.IndexFits(s.bank) && R.WorkFits(s.net)
    requires BegunFit(s) && LiveFit(s) && PushingFit(s) && ComputedFit(s)
    requires Enabled(s, step, verify) && Grew(s, Apply(s, step, verify)) && d in AfterNet(s, step, verify).computed
    ensures Known(Apply(s, step, verify).net, d)
    ensures Justified(Apply(s, step, verify), d, AfterNet(s, step, verify).computed[d])
  {
    if NetMove(s, step).Some? {
      ComputedAfter(s.net, NetMove(s, step).value, d);
    }
    if NetMove(s, step).Some? && NetMove(s, step).value.Compute? && NetMove(s, step).value.d == d {
      NewResultJustified(s, step, verify, d);
    } else {
      OldResultJustified(s, step, verify, d);
    }
  }

  lemma StepKeepsComputed(s: State, step: Step, verify: Verifier)
    requires T.Tracked(s.bank) && T.IndexFits(s.bank) && R.WorkFits(s.net)
    requires BegunFit(s) && LiveFit(s) && PushingFit(s) && ComputedFit(s)
    requires Enabled(s, step, verify) && Grew(s, Apply(s, step, verify))
    ensures ComputedFit(Apply(s, step, verify))
  {
    var after := Apply(s, step, verify);
    PartsAfter(s, step, verify);
    forall d | d in after.net.computed ensures Known(after.net, d) && Justified(after, d, after.net.computed[d]) {
      ResultJustified(s, step, verify, d);
    }
  }

  lemma StepKeepsInv(s: State, step: Step, verify: Verifier)
    requires Inv(s, verify) && Enabled(s, step, verify)
    ensures Inv(Apply(s, step, verify), verify)
  {
    T.ReachableInv(s.bank);
    R.ReachableInv(s.net);
    StepGrows(s, step, verify);
    StepKeepsParts(s, step, verify);
    StepKeepsBegun(s, step, verify);
    StepKeepsLogins(s, step, verify);
    StepKeepsAuths(s, step, verify);
    StepKeepsLive(s, step, verify);
    StepKeepsEntries(s, step, verify);
    StepKeepsPushing(s, step, verify);
    StepKeepsPushed(s, step, verify);
    StepKeepsComputed(s, step, verify);
  }

  /** Every reachable state of the back end satisfies the invariants of both parts and the links between them. */
  lemma ReachableInv(s: State, verify: Verifier)
    requires Reachable(s, verify)
    ensures Inv(s, verify)
  {
    InitialInv(verify);
    StepsKeepInv(verify);
    LeadsToKept(Next(verify), InvWith(verify), INITIAL, s);
  }

  /** Every run of the whole is a run of each part, so what is proved of `Transfers` and `Rpc` holds of the whole. */
  lemma PartsAreReachable(s: State, verify: Verifier)
    requires Reachable(s, verify)
    ensures T.Reachable(s.bank) && R.Reachable(s.net)
  {
    forall x, step | PartsReachable(x) && Next(verify)(x, step).Some?
      ensures PartsReachable(Next(verify)(x, step).value)
    {
      StepKeepsParts(x, step, verify);
    }
    IsThere(T.Next, T.INITIAL);
    IsThere(R.Next, R.INITIAL);
    LeadsToKept(Next(verify), PartsReachable, INITIAL, s);
  }

  ghost function InvWith(verify: Verifier): State -> bool { (s: State) => Inv(s, verify) }

  lemma StepsKeepInv(verify: Verifier)
    ensures StepsKeep(Next(verify), InvWith(verify))
  {
    forall x, step | InvWith(verify)(x) && Next(verify)(x, step).Some?
      ensures InvWith(verify)(Next(verify)(x, step).value)
    {
      StepKeepsInv(x, step, verify);
    }
  }

  lemma InitialInv(verify: Verifier)
    ensures Inv(INITIAL, verify)
  {
    IsThere(T.Next, T.INITIAL);
    IsThere(R.Next, R.INITIAL);
  }

  lemma StepReaches(s: State, step: Step, verify: Verifier) returns (after: State)
    requires Reachable(s, verify) && Enabled(s, step, verify)
    ensures after == Apply(s, step, verify) && Reachable(after, verify)
  {
    after := Apply(s, step, verify);
    OneMoreStep(Next(verify), INITIAL, s, step);
  }
}
