/** Registrations running side by side: check the phone, draw an account number that is free,
    insert under the unique constraints, answer.  Between these statements other registrations commit;
    a handler can fail or die at any point, and its message is then delivered again. */
module Registration {
  import opened Collections
  import opened Text
  import opened Bank
  import opened Runs

  type MessageId = nat

  /** One delivery of a message, and the handler it runs. */
  type RegId = nat

  const MAX_DRAWS: nat := 20

  datatype Reply =
    | BadPhone                    // 400
    | PhoneExists                 // 409
    | NoNumber                    // 503
    | Conflict                    // 409, from the unique constraints
    | Registered(id: UserId)      // 200

  datatype Payload = Payload(phone: string, username: string)

  datatype Phase =
    | Checking
    | Drawing
    | Inserting
    | Inserted            // committed, not answered yet
    | Done(reply: Reply)
    | Failed              // raised or died: no answer of the handler's own

  /** `refused`: the account numbers drawn so far that were taken when they were looked up; `row`: what was inserted. */
  datatype Reg = Reg(message: MessageId, phone: string, username: string, passwordHash: string,
                     refused: seq<string>, number: string, row: Option<UserId>, phase: Phase)

  datatype State = State(users: map<UserId, User>, messages: map<MessageId, Payload>, regs: map<RegId, Reg>)

  const INITIAL: State := State(map[], map[], map[])

  datatype Step =
    | Publish(m: MessageId, payload: Payload)
    | Deliver(r: RegId, m: MessageId, passwordHash: string)    // the first time or again
    | CheckPhone(r: RegId)
    | Draw(r: RegId, candidate: string)
    | GiveUp(r: RegId)
    | Insert(r: RegId, id: UserId)
    | Answer(r: RegId)
    | Fail(r: RegId)

  predicate PhoneTaken(users: map<UserId, User>, phone: string) {
    exists id :: id in users && users[id].phone == phone
  }

  predicate NumberTaken(users: map<UserId, User>, number: string) {
    exists id :: id in users && users[id].accountNumber == number
  }

  function NewUser(reg: Reg, number: string): User {
    User(reg.phone, number, reg.username, reg.passwordHash, INITIAL_BALANCE)
  }

  predicate At(s: State, r: RegId, phase: Phase) {
    r in s.regs && s.regs[r].phase == phase
  }

  predicate Enabled(s: State, step: Step) {
    match step
    case Publish(m, _) => m !in s.messages
    case Deliver(r, m, _) => m in s.messages && r !in s.regs
    case CheckPhone(r) => At(s, r, Checking)
    case Draw(r, candidate) => At(s, r, Drawing) && |s.regs[r].refused| < MAX_DRAWS && IsAccountNumber(candidate)
    case GiveUp(r) => At(s, r, Drawing) && |s.regs[r].refused| == MAX_DRAWS
    case Insert(r, id) => At(s, r, Inserting) && id !in s.users
    case Answer(r) => At(s, r, Inserted) && s.regs[r].row.Some?
    case Fail(r) => r in s.regs && !s.regs[r].phase.Done? && !s.regs[r].phase.Failed?
  }

  function With(s: State, r: RegId, reg: Reg): State {
    s.(regs := s.regs[r := reg])
  }

  function Turn(s: State, r: RegId, phase: Phase): State
    requires r in s.regs
  {
    With(s, r, s.regs[r].(phase := phase))
  }

  function Apply(s: State, step: Step): State
    requires Enabled(s, step)
  {
    match step
    case Publish(m, payload) => s.(messages := s.messages[m := payload])
    case Deliver(r, m, passwordHash) =>
      var phone := Strip(s.messages[m].phone);
      var phase := if IsDigits(phone) then Checking else Done(BadPhone);
      With(s, r, Reg(m, phone, Strip(s.messages[m].username), passwordHash, [], "", None, phase))
    case CheckPhone(r) => Turn(s, r, if PhoneTaken(s.users, s.regs[r].phone) then Done(PhoneExists) else Drawing)
    case Draw(r, candidate) =>
      if NumberTaken(s.users, candidate) then With(s, r, s.regs[r].(refused := s.regs[r].refused + [candidate]))
      else With(s, r, s.regs[r].(number := candidate, phase := Inserting))
    case GiveUp(r) => Turn(s, r, Done(NoNumber))
    case Insert(r, id) =>
      var reg := s.regs[r];
      if PhoneTaken(s.users, reg.phone) || NumberTaken(s.users, reg.number) then Turn(s, r, Done(Conflict))
      else With(s, r, reg.(row := Some(id), phase := Inserted)).(users := s.users[id := NewUser(reg, reg.number)])
    case Answer(r) => Turn(s, r, Done(Registered(s.regs[r].row.value)))
    case Fail(r) => Turn(s, r, Failed)
  }

  function Next(s: State, step: Step): Option<State> {
    if Enabled(s, step) then Some(Apply(s, step)) else None
  }

  ghost predicate Reachable(s: State) { LeadsTo(Next, INITIAL, s) }

  /** Answered 200. */
  predicate Won(s: State, r: RegId) {
    r in s.regs && s.regs[r].phase.Done? && s.regs[r].phase.reply.Registered?
  }

  function Winners(s: State): set<RegId> {
    set r | r in s.regs && Won(s, r)
  }

  /** Has inserted a user, answered or not. */
  predicate HasRow(s: State, r: RegId) {
    r in s.regs && s.regs[r].row.Some?
  }

  function Owners(s: State): set<RegId> {
    set r | r in s.regs && HasRow(s, r)
  }

  predicate Owns(s: State, r: RegId, id: UserId) {
    r in s.regs && s.regs[r].row == Some(id)
  }

  // ----- the invariant

  ghost predicate RowFits(users: map<UserId, User>, reg: Reg) {
    match reg.row
    case Some(id) =>
      && id in users && users[id] == NewUser(reg, reg.number) && IsAccountNumber(reg.number)
      && (reg.phase in {Inserted, Failed, Done(Registered(id))})
    case None => !reg.phase.Inserted? && (reg.phase.Done? ==> !reg.phase.reply.Registered?)
  }

  ghost predicate RegFits(users: map<UserId, User>, reg: Reg) {
    && |reg.refused| <= MAX_DRAWS
    && (forall i :: 0 <= i < |reg.refused| ==> NumberTaken(users, reg.refused[i]))
    && RowFits(users, reg)
    && match reg.phase
       case Inserting => IsAccountNumber(reg.number)
       case Done(PhoneExists) => PhoneTaken(users, reg.phone)
       case Done(Conflict) => PhoneTaken(users, reg.phone) || NumberTaken(users, reg.number)
       case Done(NoNumber) => |reg.refused| == MAX_DRAWS
       case _ => true
  }

  ghost predicate RegsFit(s: State) {
    forall r :: r in s.regs ==> RegFits(s.users, s.regs[r])
  }

  ghost predicate Owned(s: State, id: UserId) {
    exists r :: Owns(s, r, id)
  }

  /** Every user was inserted by exactly one delivery. */
  ghost predicate OwnersFit(s: State) {
    && (forall a, b, id :: Owns(s, a, id) && Owns(s, b, id) ==> a == b)
    && (forall id :: id in s.users ==> Owned(s, id))
    && |Owners(s)| == |s.users|
  }

  ghost predicate Inv(s: State) {
    && UniqueColumns(s.users) && TotalBalance(s.users) == INITIAL_BALANCE * |s.users|
    && RegsFit(s) && OwnersFit(s)
  }

  lemma StepKeepsTable(s: State, step: Step)
    requires UniqueColumns(s.users) && TotalBalance(s.users) == INITIAL_BALANCE * |s.users| && Enabled(s, step)
    ensures var after := Apply(s, step).users;
            UniqueColumns(after) && TotalBalance(after) == INITIAL_BALANCE * |after|
  {
    if step.Insert? && Apply(s, step).users != s.users {
      var u := NewUser(s.regs[step.r], s.regs[step.r].number);
      var db := Db(s.users, [], []);
      InsertKeepsUnique(db, step.id, u);
      InsertKeepsTotal(db, step.id, u);
    }
  }

  lemma RegStillFits(before: map<UserId, User>, after: map<UserId, User>, reg: Reg)
    requires RegFits(before, reg) && forall id :: id in before ==> id in after && after[id] == before[id]
    ensures RegFits(after, reg)
  {
  }

  lemma InsertFits(s: State, r: RegId, id: UserId)
    requires RegsFit(s) && Enabled(s, Insert(r, id))
    ensures RegFits(Apply(s, Insert(r, id)).users, Apply(s, Insert(r, id)).regs[r])
  {
    RegStillFits(s.users, Apply(s, Insert(r, id)).users, s.regs[r]);
  }

  lemma DrawFits(s: State, r: RegId, candidate: string)
    requires RegsFit(s) && Enabled(s, Draw(r, candidate))
    ensures RegFits(s.users, Apply(s, Draw(r, candidate)).regs[r])
  {
  }

  lemma TurnFits(s: State, step: Step, r: RegId)
    requires RegsFit(s) && Enabled(s, step)
    requires r in Apply(s, step).regs && (r in s.regs ==> Apply(s, step).regs[r] != s.regs[r])
    ensures RegFits(Apply(s, step).users, Apply(s, step).regs[r])
  {
    match step
    case Insert(_, id) => InsertFits(s, r, id);
    case Draw(_, candidate) => DrawFits(s, r, candidate);
    case _ =>
  }

  lemma StepKeepsRegs(s: State, step: Step)
    requires RegsFit(s) && Enabled(s, step)
    ensures RegsFit(Apply(s, step))
  {
    var after := Apply(s, step);
    forall r | r in after.regs ensures RegFits(after.users, after.regs[r]) {
      if r in s.regs && after.regs[r] == s.regs[r] {
        RegStillFits(s.users, after.users, s.regs[r]);
      } else {
        TurnFits(s, step, r);
      }
    }
  }

  predicate Inserts(s: State, step: Step)
    requires Enabled(s, step)
  {
    step.Insert? && !PhoneTaken(s.users, s.regs[step.r].phone) && !NumberTaken(s.users, s.regs[step.r].number)
  }

  /** Rows stay with their deliveries; an insert gives one delivery one new row. */
  lemma OwnersAfter(s: State, step: Step)
    requires RegsFit(s) && Enabled(s, step)
    ensures var after := Apply(s, step);
            if Inserts(s, step)
            then
              && step.r !in Owners(s) && Owners(after) == Owners(s) + {step.r}
              && after.users.Keys == s.users.Keys + {step.id}
            else Owners(after) == Owners(s) && after.users == s.users
    ensures forall r, id :: Owns(Apply(s, step), r, id) <==>
                            Owns(s, r, id) || (Inserts(s, step) && r == step.r && id == step.id)
  {
  }

  lemma StepKeepsOwners(s: State, step: Step)
    requires RegsFit(s) && OwnersFit(s) && Enabled(s, step)
    ensures OwnersFit(Apply(s, step))
  {
    OwnersAfter(s, step);
    CountsMatch(s, Apply(s, step));
    OwnersDiffer(s, step);
    EveryoneOwned(s, step);
  }

  lemma CountsMatch(s: State, after: State)
    requires |Owners(s)| == |s.users|
    requires (Owners(after) == Owners(s) && after.users == s.users) ||
             exists r, id ::
               && r !in Owners(s) && Owners(after) == Owners(s) + {r}
               && id !in s.users && after.users.Keys == s.users.Keys + {id}
    ensures |Owners(after)| == |after.users|
  {
    assert |after.users.Keys| == |after.users| && |s.users.Keys| == |s.users|;
  }

  lemma OwnersDiffer(s: State, step: Step)
    requires RegsFit(s) && OwnersFit(s) && Enabled(s, step)
    requires forall r, id :: Owns(Apply(s, step), r, id) <==>
                             Owns(s, r, id) || (Inserts(s, step) && r == step.r && id == step.id)
    ensures forall a, b, id :: Owns(Apply(s, step), a, id) && Owns(Apply(s, step), b, id) ==> a == b
  {
    forall r, id | Owns(s, r, id) ensures id in s.users {
      assert RegFits(s.users, s.regs[r]);
    }
  }

  lemma EveryoneOwned(s: State, step: Step)
    requires OwnersFit(s) && Enabled(s, step)
    requires forall r, id :: Owns(Apply(s, step), r, id) <==>
                             Owns(s, r, id) || (Inserts(s, step) && r == step.r && id == step.id)
    ensures forall id :: id in Apply(s, step).users ==> Owned(Apply(s, step), id)
  {
    var after := Apply(s, step);
    forall id | id in after.users ensures Owned(after, id) {
      if id in s.users {
        var r :| Owns(s, r, id);
        assert Owns(after, r, id);
      } else {
        assert Owns(after, step.r, id);
      }
    }
  }

  lemma StepKeepsInv(s: State, step: Step)
    requires Inv(s) && Enabled(s, step)
    ensures Inv(Apply(s, step))
  {
    StepKeepsTable(s, step);
    StepKeepsRegs(s, step);
    StepKeepsOwners(s, step);
  }

  lemma ReachableInv(s: State)
    requires Reachable(s)
    ensures Inv(s)
  {
    forall x, step | Inv(x) && Next(x, step).Some? ensures Inv(Next(x, step).value) {
      StepKeepsInv(x, step);
    }
    LeadsToKept(Next, Inv, INITIAL, s);
  }

  lemma RegFact(s: State, r: RegId)
    requires Reachable(s) && r in s.regs
    ensures RegFits(s.users, s.regs[r])
  {
    ReachableInv(s);
  }

  lemma OwnerOf(s: State, id: UserId) returns (r: RegId)
    requires Reachable(s) && id in s.users
    ensures Owns(s, r, id) && RegFits(s.users, s.regs[r])
  {
    ReachableInv(s);
    assert Owned(s, id);
    r :| Owns(s, r, id);
  }

  lemma TableFacts(s: State)
    requires Reachable(s)
    ensures UniqueColumns(s.users) && TotalBalance(s.users) == INITIAL_BALANCE * |s.users| && |s.users| == |Owners(s)|
  {
    ReachableInv(s);
  }

  lemma OneOwner(s: State, a: RegId, b: RegId)
    requires Reachable(s) && HasRow(s, a) && HasRow(s, b) && s.regs[a].row == s.regs[b].row
    ensures a == b
  {
    ReachableInv(s);
    assert Owns(s, a, s.regs[a].row.value) && Owns(s, b, s.regs[b].row.value);
  }

  // ----- the guarantees

  /** Under any interleaving, with failures and redeliveries: unique columns, 100000 per user, and as many users
      as deliveries that inserted one; as many as answers 200 if and only if every one of those was answered. */
  lemma RegistrationsAddUp(s: State)
    requires Reachable(s)
    ensures UniqueColumns(s.users) && TotalBalance(s.users) == INITIAL_BALANCE * |s.users|
    ensures |s.users| == |Owners(s)| && Winners(s) <= Owners(s) && |Winners(s)| <= |s.users|
    ensures |s.users| == |Winners(s)| <==> forall r :: HasRow(s, r) ==> Won(s, r)
  {
    TableFacts(s);
    forall r | r in Winners(s) ensures r in Owners(s) {
      RegFact(s, r);
    }
    SizesTell(Winners(s), Owners(s));
    if forall r :: HasRow(s, r) ==> Won(s, r) {
      assert Winners(s) == Owners(s);
    } else {
      var r :| HasRow(s, r) && !Won(s, r);
      assert r in Owners(s) && r !in Winners(s);
    }
  }

  /** Of all deliveries of registrations for one phone at most one ever inserts a user, so at most one
      registration is answered 200. */
  lemma OneRowPerPhone(s: State, a: RegId, b: RegId)
    requires Reachable(s) && HasRow(s, a) && HasRow(s, b) && s.regs[a].phone == s.regs[b].phone
    ensures a == b
  {
    RegFact(s, a);
    RegFact(s, b);
    TableFacts(s);
    OneOwner(s, a, b);
  }

  /** A 200 reports the row its delivery inserted, with the caller's phone, name and hash and a 12-digit number. */
  lemma WinnerHasRow(s: State, r: RegId)
    requires Reachable(s) && Won(s, r)
    ensures var id, reg := s.regs[r].phase.reply.id, s.regs[r];
            && reg.row == Some(id) && id in s.users && IsAccountNumber(reg.number)
            && s.users[id].phone == reg.phone && s.users[id].accountNumber == reg.number
            && s.users[id].username == reg.username && s.users[id].passwordHash == reg.passwordHash
            && s.users[id].balance == 100000
  {
    RegFact(s, r);
  }

  /** Once a delivery has inserted its user and failed before its answer, no delivery of that registration, nor any
      other for that phone, is ever answered 200: each that is still to check or to insert gets 409. */
  lemma LostAnswerIsFinal(s: State, lost: RegId, other: RegId)
    requires Reachable(s) && HasRow(s, lost) && At(s, lost, Failed)
    requires other in s.regs && s.regs[other].phone == s.regs[lost].phone
    ensures !Won(s, other)
    ensures At(s, other, Checking) ==> At(Apply(s, CheckPhone(other)), other, Done(PhoneExists))
    ensures forall id :: Enabled(s, Insert(other, id)) ==> At(Apply(s, Insert(other, id)), other, Done(Conflict))
  {
    RegFact(s, lost);
    RegFact(s, other);
    if Won(s, other) {
      OneRowPerPhone(s, lost, other);
    }
    assert PhoneTaken(s.users, s.regs[lost].phone);
  }

  /** 503 is answered only when all 20 numbers drawn were taken; they still are. */
  lemma GivingUpMeansAllTaken(s: State, r: RegId)
    requires Reachable(s) && At(s, r, Done(NoNumber))
    ensures |s.regs[r].refused| == 20
    ensures forall i :: 0 <= i < 20 ==> NumberTaken(s.users, s.regs[r].refused[i])
  {
    RegFact(s, r);
  }

  /** Another delivery has inserted a user with this one's phone or account number. */
  ghost predicate HasRival(s: State, r: RegId) {
    exists other :: IsRival(s, r, other)
  }

  ghost predicate IsRival(s: State, r: RegId, other: RegId) {
    && r in s.regs && other != r && HasRow(s, other)
    && (s.regs[other].phone == s.regs[r].phone || s.regs[other].number == s.regs[r].number)
  }

  lemma RivalTakes(s: State, r: RegId, other: RegId)
    requires Reachable(s) && IsRival(s, r, other)
    ensures PhoneTaken(s.users, s.regs[r].phone) || NumberTaken(s.users, s.regs[r].number)
  {
    RegFact(s, other);
  }

  lemma TakerIsRival(s: State, r: RegId, id: UserId)
    requires Reachable(s) && r in s.regs && !HasRow(s, r) && id in s.users
    requires s.users[id].phone == s.regs[r].phone || s.users[id].accountNumber == s.regs[r].number
    ensures HasRival(s, r)
  {
    var other := OwnerOf(s, id);
    assert IsRival(s, r, other);
  }

  lemma RivalIff(s: State, r: RegId)
    requires Reachable(s) && r in s.regs && !HasRow(s, r)
    ensures HasRival(s, r) <==> PhoneTaken(s.users, s.regs[r].phone) || NumberTaken(s.users, s.regs[r].number)
  {
    if HasRival(s, r) {
      var other :| IsRival(s, r, other);
      RivalTakes(s, r, other);
    }
    if PhoneTaken(s.users, s.regs[r].phone) {
      var id :| id in s.users && s.users[id].phone == s.regs[r].phone;
      TakerIsRival(s, r, id);
    }
    if NumberTaken(s.users, s.regs[r].number) {
      var id :| id in s.users && s.users[id].accountNumber == s.regs[r].number;
      TakerIsRival(s, r, id);
    }
  }

  /** Who wins a race: an insert goes through if and only if no other delivery has inserted the same phone or the
      same number before it; otherwise the answer is 409. */
  lemma FirstInsertWins(s: State, r: RegId, id: UserId)
    requires Reachable(s) && Enabled(s, Insert(r, id))
    ensures var after := Apply(s, Insert(r, id));
            if HasRival(s, r) then At(after, r, Done(Conflict)) && after.users == s.users
            else
              && HasRow(after, r) && after.users.Keys == s.users.Keys + {id}
              && (forall other :: other in s.users ==> after.users[other] == s.users[other])
              && after.users[id].phone == s.regs[r].phone && after.users[id].accountNumber == s.regs[r].number
  {
    RegFact(s, r);
    RivalIff(s, r);
  }

  /** Every later insert for the same phone then gets 409. */
  lemma LaterInsertsLose(s: State, r: RegId, other: RegId, id: UserId)
    requires Reachable(s) && HasRow(s, r) && Enabled(s, Insert(other, id)) && s.regs[other].phone == s.regs[r].phone
    ensures At(Apply(s, Insert(other, id)), other, Done(Conflict))
  {
    RegFact(s, r);
  }

  /** Whoever was told 409 by the constraints lost to another delivery that did insert. */
  lemma ConflictMeansRival(s: State, r: RegId)
    requires Reachable(s) && At(s, r, Done(Conflict))
    ensures HasRival(s, r)
  {
    RegFact(s, r);
    RivalIff(s, r);
  }

  lemma StepReaches(s: State, step: Step) returns (after: State)
    requires Reachable(s) && Enabled(s, step)
    ensures after == Apply(s, step) && Reachable(after)
  {
    after := Apply(s, step);
    OneMoreStep(Next, INITIAL, s, step);
  }

  const DIGITS12 := "123456789012"

  lemma FirstDeliveryIsLost() returns (s: State)
    ensures Reachable(s) && s.users.Keys == {1} && s.users[1].phone == "1" && s.messages == map[0 := Payload("1", "an")]
    ensures s.regs.Keys == {10} && HasRow(s, 10) && At(s, 10, Failed) && s.regs[10].message == 0
  {
    IsThere(Next, INITIAL);
    s := StepReaches(INITIAL, Publish(0, Payload("1", "an")));
    assert Strip("1") == "1";
    s := StepReaches(s, Deliver(10, 0, ""));
    s := StepReaches(s, CheckPhone(10));
    s := InsertThenFail(s);
  }

  lemma InsertThenFail(s: State) returns (after: State)
    requires Reachable(s) && s.users == map[] && s.regs.Keys == {10} && At(s, 10, Drawing) && s.regs[10].refused == []
    ensures Reachable(after) && after.users == map[1 := NewUser(s.regs[10], DIGITS12)] && after.messages == s.messages
    ensures after.regs == map[10 := s.regs[10].(number := DIGITS12, row := Some(1), phase := Failed)]
  {
    after := StepReaches(s, Draw(10, DIGITS12));
    after := StepReaches(after, Insert(10, 1));
    after := StepReaches(after, Fail(10));
  }

  /** A handler dies between its commit and its answer: its user exists, and the redelivered message is told 409. */
  lemma UserWithoutAnswer() returns (s: State)
    ensures Reachable(s) && |s.users| == 1 && Winners(s) == {}
    ensures exists r :: At(s, r, Done(PhoneExists)) && s.regs[r].message == 0
    ensures forall r :: r in s.regs ==> s.regs[r].message == 0 && (s.regs[r].phase.Done? || s.regs[r].phase.Failed?)
  {
    s := FirstDeliveryIsLost();
    assert |s.users| == |s.users.Keys|;
    assert Strip("1") == "1";
    s := StepReaches(s, Deliver(11, 0, ""));
    s := StepReaches(s, CheckPhone(11));
    assert At(s, 11, Done(PhoneExists));
  }

  // ----- the handler as it is written, with nothing else running

  /** Everything before this number among the candidates is taken. */
  ghost predicate FirstAt(users: map<UserId, User>, candidates: seq<string>, number: string) {
    exists k :: 0 <= k < |candidates| && candidates[k] == number
                && forall i :: 0 <= i < k ==> NumberTaken(users, candidates[i])
  }

  /** The first of the candidates that nobody has. */
  function FirstFree(users: map<UserId, User>, candidates: seq<string>): (number: Option<string>)
    ensures number.None? <==> forall i :: 0 <= i < |candidates| ==> NumberTaken(users, candidates[i])
    ensures number.Some? ==> !NumberTaken(users, number.value) && FirstAt(users, candidates, number.value)
  {
    if candidates == [] then None
    else if !NumberTaken(users, candidates[0]) then Some(candidates[0])
    else FirstFree(users, candidates[1..])
  }

  lemma {:induction false} FirstFreeIsFirst(users: map<UserId, User>, candidates: seq<string>, k: nat)
    requires k <= |candidates| && forall i :: 0 <= i < k ==> NumberTaken(users, candidates[i])
    ensures FirstFree(users, candidates) == FirstFree(users, candidates[k..])
  {
    if k == 0 {
      assert candidates[0..] == candidates;
    } else {
      FirstFreeIsFirst(users, candidates[1..], k - 1);
      assert candidates[1..][k - 1..] == candidates[k..];
    }
  }

  /** The reply, and the users afterwards. */
  function RegisterAlone(users: map<UserId, User>, phoneField: string, nameField: string, passwordHash: string,
                         candidates: seq<string>, id: UserId)
    : (Reply, map<UserId, User>)
  {
    var phone, number := Strip(phoneField), FirstFree(users, candidates);
    if !IsDigits(phone) then (BadPhone, users)
    else if PhoneTaken(users, phone) then (PhoneExists, users)
    else if number.None? then (NoNumber, users)
    else (Registered(id), users[id := User(phone, number.value, Strip(nameField), passwordHash, INITIAL_BALANCE)])
  }

  class Registrar {
    var users: map<UserId, User>

    /** `candidates` are the numbers that the random source would give, `id` the next value of the sequence. */
    method HandleRegister(phoneField: string, nameField: string, passwordHash: string, candidates: seq<string>,
                          id: UserId)
      returns (reply: Reply)
      requires |candidates| == MAX_DRAWS && id !in users
      modifies this
      ensures (reply, users) == RegisterAlone(old(users), phoneField, nameField, passwordHash, candidates, id)
      ensures var phone := Strip(phoneField);
              var number := FirstFree(old(users), candidates);
              if !IsDigits(phone) then reply == BadPhone && users == old(users)
              else if exists other :: other in old(users) && old(users)[other].phone == phone then
                reply == PhoneExists && users == old(users)
              else if number.None? then reply == NoNumber && users == old(users)
              else
                && reply == Registered(id)
                && users == old(users)[id := User(phone := phone, accountNumber := number.value,
                                                  username := Strip(nameField), passwordHash := passwordHash,
                                                  balance := 100000)]
    {
      var phone, username := Strip(phoneField), Strip(nameField);
      if !IsDigits(phone) {
        return BadPhone;
      }
      if PhoneTaken(users, phone) {
        return PhoneExists;
      }
      var number := None;
      var k := 0;
      while k < MAX_DRAWS && number.None?
        invariant k <= MAX_DRAWS && users == old(users)
        invariant number.None? ==> forall i :: 0 <= i < k ==> NumberTaken(users, candidates[i])
        invariant number.Some? ==> FirstFree(users, candidates) == number && !NumberTaken(users, number.value)
      {
        if !NumberTaken(users, candidates[k]) {
          FirstFreeIsFirst(users, candidates, k);
          number := Some(candidates[k]);
        }
        k := k + 1;
      }
      if number.None? {
        FirstFreeIsFirst(users, candidates, MAX_DRAWS);
        return NoNumber;
      }
      users := users[id := User(phone, number.value, username, passwordHash, INITIAL_BALANCE)];
      return Registered(id);
    }
  }
}
