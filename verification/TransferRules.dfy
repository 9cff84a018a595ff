/** What the transfer rules say, column by column. */
module TransferRules {
  import opened Collections
  import opened Text
  import opened Bank

  /** The row bears the account number asked for, or if none is, the name. */
  predicate IsAskedFor(u: User, req: Request) {
    if Strip(req.toAccountNumber) != "" then u.accountNumber == Strip(req.toAccountNumber)
    else u.username == Strip(req.toUsername)
  }

  /** The request passes the checks made before the database is opened. */
  predicate IsWellFormed(req: Request) {
    var number, name := Strip(req.toAccountNumber), Strip(req.toUsername);
    req.amount > 0 && if number != "" then IsDigits(number) else name != ""
  }

  /** Nobody but `to` is asked for. */
  ghost predicate IsTheOne(users: map<UserId, User>, req: Request, to: UserId) {
    to in users && IsAskedFor(users[to], req) && forall id :: id in users && IsAskedFor(users[id], req) ==> id == to
  }

  /** The tables after `user` has paid `to`: two balances, one row, and a note for each. */
  function Paid(db: Db, user: UserId, to: UserId, amount: int): Db
    requires user in db.users && to in db.users
  {
    var sender, receiver := db.users[user], db.users[to];
    Db(db.users[user := sender.(balance := sender.balance - amount)]
               [to := receiver.(balance := receiver.balance + amount)],
       db.transfers + [Transfer(user, to, amount)],
       db.notifications + [
         Notification(user, "Bạn đã chuyển " + Decimal(amount) + " đến " + receiver.username),
         Notification(to, "Bạn nhận " + Decimal(amount) + " từ " + sender.username)])
  }

  function Ok(sender: User, receiver: User, amount: int): Response {
    Response(200, TransferOk(sender.username, receiver.username, receiver.accountNumber, amount))
  }

  lemma WellFormedIff(req: Request)
    ensures IsWellFormed(req) <==> Refusal(req).None?
  {
  }

  lemma OneCandidate(users: map<UserId, User>, req: Request, to: UserId)
    ensures IsTheOne(users, req, to) <==> Candidates(users, req) == {to}
  {
    if IsTheOne(users, req, to) {
      assert to in Candidates(users, req);
    }
    if Candidates(users, req) == {to} {
      forall id | id in users && IsAskedFor(users[id], req) ensures id == to {
        assert id in Candidates(users, req);
      }
      assert to in Candidates(users, req);
    }
  }

  /** 200 if and only if the request is well-formed, the sender exists, there is exactly one user with the account
      number or name asked for and it is another one, the funds suffice and so does the receiver's column; and then
      these two balances move by the amount and nothing else changes but one row and two notes. */
  lemma PaidIff(db: Db, user: UserId, req: Request, to: UserId)
    requires user in db.users && to in db.users
    ensures var (tables, answer) := TransferAlone(db, user, req);
            (&& answer == Replied(Ok(db.users[user], db.users[to], req.amount))
             && tables == Paid(db, user, to, req.amount))
            <==>
            && IsWellFormed(req) && IsTheOne(db.users, req, to) && to != user
            && req.amount <= db.users[user].balance && db.users[to].balance + req.amount <= 2147483647
  {
    OneCandidate(db.users, req, to);
    var c := Candidates(db.users, req);
    if IsTheOne(db.users, req, to) && Refusal(req).None? {
      TransferAloneWithOne(db, user, req, to);
    }
    if TransferAlone(db, user, req).0 == Paid(db, user, to, req.amount) {
      assert TransferAlone(db, user, req).0.transfers[|db.transfers|] == Transfer(user, to, req.amount);
    }
  }

  ghost predicate SomebodyIs(users: map<UserId, User>, req: Request) {
    exists id :: id in users && IsAskedFor(users[id], req)
  }

  ghost predicate SeveralAre(users: map<UserId, User>, req: Request) {
    exists a, b :: a in users && b in users && a != b && IsAskedFor(users[a], req) && IsAskedFor(users[b], req)
  }

  lemma NobodyIff(users: map<UserId, User>, req: Request)
    ensures SomebodyIs(users, req) <==> Candidates(users, req) != {}
  {
    if Candidates(users, req) != {} {
      var id := PickOne(Candidates(users, req));
      assert id in users && IsAskedFor(users[id], req);
    }
    if SomebodyIs(users, req) {
      var id :| id in users && IsAskedFor(users[id], req);
      assert id in Candidates(users, req);
    }
  }

  lemma SeveralIff(users: map<UserId, User>, req: Request)
    requires Candidates(users, req) != {}
    ensures SeveralAre(users, req) <==> Candidates(users, req) != {PickOne(Candidates(users, req))}
  {
    var one := PickOne(Candidates(users, req));
    if SeveralAre(users, req) {
      var a, b :| a in users && b in users && a != b && IsAskedFor(users[a], req) && IsAskedFor(users[b], req);
      assert a in Candidates(users, req) && b in Candidates(users, req);
    }
    if Candidates(users, req) != {one} {
      assert exists id :: id in Candidates(users, req) && id != one;
      var other :| other in Candidates(users, req) && other != one;
      assert one in users && other in users && IsAskedFor(users[one], req) && IsAskedFor(users[other], req);
    }
  }

  lemma RefusalIff(req: Request)
    ensures var number, name := Strip(req.toAccountNumber), Strip(req.toUsername);
            && (Refusal(req) == Some(Response(400, Detail("Amount must be > 0"))) <==> req.amount <= 0)
            && (Refusal(req) == Some(Response(400, Detail("Missing to_account_number/to_username"))) <==>
                req.amount > 0 && number == "" && name == "")
            && (Refusal(req) == Some(Response(400, Detail("to_account_number must be digits only"))) <==>
                req.amount > 0 && number != "" && !IsDigits(number))
  {
  }

  predicate IsEarlyText(detail: string) {
    detail in {"Amount must be > 0", "Missing to_account_number/to_username", "to_account_number must be digits only"}
  }

  lemma LaterAnswersDiffer(db: Db, user: UserId, req: Request)
    requires Refusal(req).None?
    ensures var answer := TransferAlone(db, user, req).1;
            answer.Replied? && answer.response.body.Detail? ==> !IsEarlyText(answer.response.body.detail)
  {
  }

  /** The answers given before the database is opened, each with its exact condition. */
  lemma MalformedAnswersIff(db: Db, user: UserId, req: Request)
    ensures var (tables, answer) := TransferAlone(db, user, req);
            var number, name := Strip(req.toAccountNumber), Strip(req.toUsername);
            && (answer == Replied(Response(400, Detail("Amount must be > 0"))) <==> req.amount <= 0)
            && (answer == Replied(Response(400, Detail("Missing to_account_number/to_username"))) <==>
                req.amount > 0 && number == "" && name == "")
            && (answer == Replied(Response(400, Detail("to_account_number must be digits only"))) <==>
                req.amount > 0 && number != "" && !IsDigits(number))
            && (!IsWellFormed(req) ==> tables == db)
  {
    RefusalIff(req);
    WellFormedIff(req);
    if Refusal(req).None? {
      LaterAnswersDiffer(db, user, req);
    } else {
      assert TransferAlone(db, user, req) == (db, Replied(Refusal(req).value));
    }
  }

  /** And before a receiver is known. */
  lemma EarlyAnswersIff(db: Db, user: UserId, req: Request)
    ensures var (tables, answer) := TransferAlone(db, user, req);
            var known := IsWellFormed(req) && user in db.users;
            && (answer == Replied(Response(404, Detail("Sender not found"))) <==>
                IsWellFormed(req) && user !in db.users)
            && (answer == Replied(Response(404, Detail("Receiver not found"))) <==> known && !SomebodyIs(db.users, req))
            && (answer == Raised(MultipleRows) <==> known && SeveralAre(db.users, req))
            && (!known || !SomebodyIs(db.users, req) || SeveralAre(db.users, req) ==> tables == db)
  {
    WellFormedIff(req);
    NobodyIff(db.users, req);
    if Candidates(db.users, req) != {} {
      SeveralIff(db.users, req);
    }
  }

  /** And those given once there is one receiver. */
  lemma LateAnswersIff(db: Db, user: UserId, req: Request, to: UserId)
    requires IsWellFormed(req) && user in db.users && IsTheOne(db.users, req, to)
    ensures var (tables, answer) := TransferAlone(db, user, req);
            && (answer == Replied(Response(400, Detail("Cannot transfer to yourself"))) <==> to == user)
            && (answer == Replied(Response(400, Detail("Insufficient balance"))) <==>
                to != user && db.users[user].balance < req.amount)
            && (answer == Raised(OutOfRange) <==>
                && to != user && req.amount <= db.users[user].balance
                && db.users[to].balance + req.amount > 2147483647)
            && (tables != db <==> answer == Replied(Ok(db.users[user], db.users[to], req.amount)))
  {
    OneCandidate(db.users, req, to);
    TransferAloneWithOne(db, user, req, to);
    assert Settle(db, Transfer(user, to, req.amount)).transfers != db.transfers;
  }
}
