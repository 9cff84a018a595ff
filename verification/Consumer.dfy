/** The transfer consumer as it is written: one handler run on tables that nobody else touches.
    What the concurrent machine does to the tables is proved against the same definition,
    `TransferAlone`. */
module Consumer {
  import opened Collections
  import opened Bank
  import Text

  /** The decoded message body. */
  datatype Envelope = Envelope(correlationId: string, action: string, session: string, req: Request)

  /** How the calls fare that a handler makes from its commit on, which takes effect: is its acknowledgement lost, does
      reading the expired rows again fail before the push, the push itself, and does reading fail after it? */
  datatype Aftermath = Aftermath(lost: bool, reload: bool, push: Fault, report: bool)

  /** What the handler raises although its transfer stands. */
  function RaisesLate(f: Aftermath): Option<Exception> {
    if f.lost || f.reload then Some(DatabaseDown)
    else if f.push.Fails? then Some(RedisDown)
    else if f.report then Some(DatabaseDown)
    else None
  }

  predicate Notifies(f: Aftermath) { !f.lost && !f.reload && Writes(f.push) }

  /** The handler returns only if nothing fails, with the notice sent; what fails before the push prevents it, a push
      that fails may have been sent, and what fails after it comes too late for the notice. */
  lemma AftermathMeans(f: Aftermath)
    ensures RaisesLate(f).None? <==> f == Aftermath(false, false, Works, false)
    ensures RaisesLate(f).None? ==> Notifies(f)
    ensures f.lost || f.reload ==> RaisesLate(f) == Some(DatabaseDown) && !Notifies(f)
    ensures !f.lost && !f.reload && f.push.Fails? ==>
      RaisesLate(f) == Some(RedisDown) && (Notifies(f) <==> f.push.written)
    ensures !f.lost && !f.reload && f.push.Works? && f.report ==> RaisesLate(f) == Some(DatabaseDown) && Notifies(f)
  {
  }

  /** The reply of the sequential rules, unless something raises once they have committed. */
  function EndsWith(alone: Outcome, f: Aftermath): Outcome {
    if IsDone(alone) && RaisesLate(f).Some? then Raised(RaisesLate(f).value) else alone
  }

  /** How the calls fare while a message is processed. */
  datatype Faults = Faults(after: Aftermath, store: Fault, storeError: Fault)

  datatype Selected = NoRow | OneRow(id: UserId) | ManyRows

  /** How `message.process()` is left: acknowledged, or rejected without requeue. */
  datatype Exit = Ack | Reject

  const NO_FAULTS := Faults(Aftermath(false, false, Works, false), Works, Works)

  class TransferService {
    var users: map<UserId, User>
    var transfers: seq<Transfer>
    var notifications: seq<Notification>
    var sessions: map<string, UserId>     // the session keys that are alive
    var pushed: seq<Notification>
    var replies: map<string, Response>

    constructor (users: map<UserId, User>, sessions: map<string, UserId>)
      ensures Tables() == Db(users, [], []) && this.sessions == sessions && pushed == [] && replies == map[]
    {
      this.users, this.sessions := users, sessions;
      transfers, notifications, pushed, replies := [], [], [], map[];
    }

    function Tables(): Db
      reads this
    {
      Db(users, transfers, notifications)
    }

    /** What SQLAlchemy makes of the rows a statement selects. */
    static method ScalarOneOrNone(rows: set<UserId>) returns (selected: Selected)
      ensures selected.NoRow? <==> rows == {}
      ensures selected.OneRow? <==> rows != {} && rows == {PickOne(rows)}
      ensures selected.OneRow? ==> selected.id == PickOne(rows)
    {
      if rows == {} {
        return NoRow;
      }
      var id :| id in rows;
      OnlyElement(rows, id);
      OnlyElement(rows, PickOne(rows));
      selected := if |rows| == 1 then OneRow(id) else ManyRows;
    }

    /** What comes after the commit: the rows are read again, the notice is pushed, the rows are read for the log. */
    method Announce(note: Notification, f: Aftermath) returns (raised: Option<Exception>)
      modifies this`pushed
      ensures raised == RaisesLate(f)
      ensures pushed == old(pushed) + if Notifies(f) then [note] else []
    {
      if f.lost || f.reload {
        return Some(DatabaseDown);
      }
      if Writes(f.push) {
        pushed := pushed + [note];
      }
      if f.push.Fails? {
        return Some(RedisDown);
      }
      return if f.report then Some(DatabaseDown) else None;
    }

    /** `handle_transfer`: the tables and the reply are those of the sequential rules.  Reading rows again, which the
        commit has expired, and the push come after the commit, so if they fail it raises although the
        transfer stands, with the notice sent or not. */
    method HandleTransfer(session: string, req: Request, f: Aftermath) returns (o: Outcome)
      modifies this
      ensures sessions == old(sessions) && replies == old(replies)
      ensures session == "" || session !in sessions ==>
        o == Raised(NoSession) && Tables() == old(Tables()) && pushed == old(pushed)
      ensures session != "" && session in sessions ==>
        var (tables, alone) := TransferAlone(old(Tables()), sessions[session], req);
        && Tables() == tables
        && o == EndsWith(alone, f)
        && pushed == old(pushed) + if IsDone(alone) && Notifies(f)
                                   then [tables.notifications[|tables.notifications| - 1]] else []
    {
      if session == "" || session !in sessions {
        return Raised(NoSession);
      }
      var userId := sessions[session];
      if req.amount <= 0 {
        return Replied(Refuse(400, "Amount must be > 0"));
      }
      if ToAccount(req) == "" && ToName(req) == "" {
        return Replied(Refuse(400, "Missing to_account_number/to_username"));
      }
      if ToAccount(req) != "" && !Text.IsDigits(ToAccount(req)) {
        return Replied(Refuse(400, "to_account_number must be digits only"));
      }
      if userId !in users {
        return Replied(SENDER_NOT_FOUND);
      }
      var sender := users[userId];
      var selected := ScalarOneOrNone(Candidates(users, req));
      if selected.NoRow? {
        return Replied(RECEIVER_NOT_FOUND);
      }
      if selected.ManyRows? {
        return Raised(MultipleRows);
      }
      var receiverId := selected.id;
      var receiver := users[receiverId];
      if receiverId == userId {
        return Replied(SELF_TRANSFER);
      }
      if sender.balance < req.amount {
        return Replied(INSUFFICIENT_BALANCE);
      }
      sender := sender.(balance := sender.balance - req.amount);
      receiver := receiver.(balance := receiver.balance + req.amount);
      if receiver.balance > MAX_INTEGER {
        return Raised(OutOfRange);  // the commit fails and everything is rolled back
      }
      users := users[userId := sender][receiverId := receiver];
      transfers := transfers + [Transfer(userId, receiverId, req.amount)];
      notifications := notifications + [Notification(userId, SentText(req.amount, receiver))];
      notifications := notifications + [Notification(receiverId, ReceivedText(req.amount, sender))];
      assert Tables() == Settle(old(Tables()), Transfer(userId, receiverId, req.amount));
      var raised := Announce(Notification(receiverId, ReceivedText(req.amount, sender)), f);
      if raised.Some? {
        return Raised(raised.value);
      }
      return Replied(DoneReply(sender, receiver, req.amount));
    }

    /** What the handler's branch does to the tables, and how it ends. */
    ghost function Branch(m: Envelope, f: Aftermath): (Db, Outcome)
      reads this
    {
      if m.action == "health" then (Tables(), Replied(HEALTHY))
      else if m.session == "" || m.session !in sessions then (Tables(), Raised(NoSession))
      else
        var (tables, alone) := TransferAlone(Tables(), sessions[m.session], m.req);
        (tables, EndsWith(alone, f))
    }

    predicate HasSession(m: Envelope)
      reads this
    {
      m.session != "" && m.session in sessions
    }

    /** A reply other than a 500 was stored and acknowledged. */
    static predicate IsAnswered(m: Envelope, exit: Exit, replies: map<string, Response>) {
      && m.correlationId != "" && exit == Ack
      && m.correlationId in replies && replies[m.correlationId].status != 500
    }

    /** The tables afterwards are those of the transfer that the message asks for, made alone by `user`, and the answer
        is its answer: a 200 means just one more row, of that user and amount. */
    static ghost predicate IsTransferBy(user: UserId, m: Envelope, before: Db, after: Db, exit: Exit,
                                        replies: map<string, Response>)
    {
      var (tables, alone) := TransferAlone(before, user, m.req);
      && after == tables
      && (IsAnswered(m, exit, replies) ==> alone == Replied(replies[m.correlationId]))
      && (IsAnswered(m, exit, replies) && replies[m.correlationId].status == 200 ==>
           exists to :: after.transfers == before.transfers + [Transfer(user, to, m.req.amount)])
    }

    /** At most the last note of those tables was pushed, and after a 200 it was. */
    static ghost predicate IsPushOf(user: UserId, m: Envelope, before: Db, pushedBefore: seq<Notification>,
                                    pushed: seq<Notification>, exit: Exit, replies: map<string, Response>)
    {
      var (tables, alone) := TransferAlone(before, user, m.req);
      && (pushed == pushedBefore ||
          (IsDone(alone) && tables.notifications != []
           && pushed == pushedBefore + [tables.notifications[|tables.notifications| - 1]]))
      && (IsAnswered(m, exit, replies) && replies[m.correlationId].status == 200 ==> pushed != pushedBefore)
    }

    /** SETEX response:{cid} */
    static function Put(replies: map<string, Response>, cid: string, r: Response, f: Fault): map<string, Response> {
      if Writes(f) then replies[cid := r] else replies
    }

    /** `process_message`: the tables do not depend on what becomes of the reply.  A message with a correlation id is
        acknowledged only if the handler's reply, or after a failure a 500, was stored for certain; a store
        that raises may have written, but its message is rejected, or answered again with a 500. */
    method ProcessMessage(body: Option<Envelope>, faults: Faults, describe: Exception -> string) returns (exit: Exit)
      modifies this
      ensures body.None? ==> exit == Ack && Tables() == old(Tables()) && replies == old(replies)
      ensures body.Some? ==>
        var m := body.value;
        var (tables, o) := old(Branch(m, faults.after));
        var stored := if o.Replied? then Put(old(replies), m.correlationId, o.response, faults.store) else old(replies);
        var failure := Refuse(500, describe(if o.Raised? then o.exception else RedisDown));
        && Tables() == tables
        && (o.Replied? && faults.store.Works? ==>
             exit == Ack && replies == old(replies)[m.correlationId := o.response])
        && ((o.Raised? || faults.store.Fails?) && m.correlationId == "" ==>
             exit == Ack && replies == stored)
        && ((o.Raised? || faults.store.Fails?) && m.correlationId != "" ==>
             exit == (if faults.storeError.Works? then Ack else Reject)
             && replies == Put(stored, m.correlationId, failure, faults.storeError))
      ensures body.Some? && body.value.correlationId != "" && exit == Ack ==>
        var m := body.value;
        m.correlationId in replies &&
        (replies[m.correlationId].status == 500 || old(Branch(m, faults.after)).1 == Replied(replies[m.correlationId]))
      ensures sessions == old(sessions)
      ensures body.Some? && body.value.action == "health" ==>
        Tables() == old(Tables()) && pushed == old(pushed) &&
        (faults.store.Works? ==>
          exit == Ack && replies == old(replies)[body.value.correlationId := Response(200, Healthy)])
      ensures body.Some? && body.value.action == "health" && body.value.correlationId != ""
              && faults.store.Fails? && faults.storeError == Fails(false) ==>
        exit == Reject &&
        replies == if faults.store.written then old(replies)[body.value.correlationId := Response(200, Healthy)]
                   else old(replies)
      ensures body.Some? && body.value.action != "health" && HasSession(body.value) ==>
        IsTransferBy(sessions[body.value.session], body.value, old(Tables()), Tables(), exit, replies)
        && IsPushOf(sessions[body.value.session], body.value, old(Tables()), old(pushed), pushed, exit, replies)
      ensures body.Some? && body.value.action != "health" && HasSession(body.value)
              && body.value.correlationId != "" && faults == NO_FAULTS ==>
        var alone := TransferAlone(old(Tables()), sessions[body.value.session], body.value.req).1;
        var reply := if alone.Replied? then alone.response else Response(500, Detail(describe(alone.exception)));
        exit == Ack && replies == old(replies)[body.value.correlationId := reply]
      ensures body.Some? && body.value.action != "health" && !HasSession(body.value) ==>
        Tables() == old(Tables()) && pushed == old(pushed) &&
        (body.value.correlationId != "" && faults.storeError.Works? ==>
          && exit == Ack
          && replies == old(replies)[body.value.correlationId := Response(500, Detail(describe(NoSession)))])
    {
      if body.None? {
        return Ack;  // the decoding error finds no correlation id to answer to
      }
      var m := body.value;
      var result;
      if m.action == "health" {
        result := Replied(HEALTHY);
      } else {
        result := HandleTransfer(m.session, m.req, faults.after);
      }
      var raised;
      if result.Replied? {
        replies := Put(replies, m.correlationId, result.response, faults.store);
        if faults.store.Works? {
          return Ack;
        }
        raised := RedisDown;
      } else {
        raised := result.exception;
      }
      if m.correlationId == "" {
        return Ack;
      }
      replies := Put(replies, m.correlationId, Refuse(500, describe(raised)), faults.storeError);
      return if faults.storeError.Works? then Ack else Reject;
    }
  }
}
