/** Whose data a registration stores, and that the handler as it is written is a run of the concurrent machine. */
module RegistrationRules {
  import opened Collections
  import opened Text
  import opened Bank
  import opened Runs
  import opened Registration

  // ----- from the message to the row

  /** A delivery works on what its message says, and turns it down at once if and only if the phone is not digits. */
  ghost predicate FromMessage(s: State, reg: Reg) {
    && reg.message in s.messages
    && reg.phone == Strip(s.messages[reg.message].phone) && reg.username == Strip(s.messages[reg.message].username)
    && (reg.phase == Done(BadPhone) <==> !IsDigits(reg.phone))
    && (!IsDigits(reg.phone) ==> reg.row.None?)
  }

  ghost predicate AllFromMessages(s: State) {
    forall r :: r in s.regs ==> FromMessage(s, s.regs[r])
  }

  lemma StepKeepsFromMessages(s: State, step: Step)
    requires AllFromMessages(s) && Enabled(s, step)
    ensures AllFromMessages(Apply(s, step))
  {
  }

  lemma ReachableFromMessages(s: State)
    requires Reachable(s)
    ensures AllFromMessages(s)
  {
    forall x, step | AllFromMessages(x) && Next(x, step).Some? ensures AllFromMessages(Next(x, step).value) {
      StepKeepsFromMessages(x, step);
    }
    LeadsToKept(Next, AllFromMessages, INITIAL, s);
  }

  /** The delivery began with this hash. */
  ghost predicate WasDelivered(steps: seq<Step>, r: RegId, m: MessageId, passwordHash: string) {
    exists i :: 0 <= i < |steps| && steps[i] == Deliver(r, m, passwordHash)
  }

  predicate DrawsFor(step: Step, r: RegId) { step.Draw? && step.r == r }

  /** The last number that the delivery drew. */
  ghost predicate LastDrawn(steps: seq<Step>, r: RegId, number: string) {
    exists i :: 0 <= i < |steps| && steps[i] == Draw(r, number)
                && forall j :: i < j < |steps| ==> !DrawsFor(steps[j], r)
  }

  lemma DataStays(s: State, step: Step, r: RegId)
    requires Enabled(s, step) && r in s.regs
    ensures r in Apply(s, step).regs && Apply(s, step).regs[r].message == s.regs[r].message
    ensures Apply(s, step).regs[r].passwordHash == s.regs[r].passwordHash
  {
  }

  lemma {:induction false} RunDelivers(s: State, steps: seq<Step>, r: RegId)
    requires Run(Next, s, steps).Some? && r in Run(Next, s, steps).value.regs
    ensures var reg := Run(Next, s, steps).value.regs[r];
            if r in s.regs then reg.message == s.regs[r].message && reg.passwordHash == s.regs[r].passwordHash
            else WasDelivered(steps, r, reg.message, reg.passwordHash)
    decreases |steps|
  {
    if steps != [] {
      var after := Apply(s, steps[0]);
      RunDelivers(after, steps[1..], r);
      var reg := Run(Next, s, steps).value.regs[r];
      if r in s.regs {
        DataStays(s, steps[0], r);
      } else if r in after.regs {
        assert steps[0] == Deliver(r, reg.message, reg.passwordHash);
      } else {
        var i :| 0 <= i < |steps[1..]| && steps[1..][i] == Deliver(r, reg.message, reg.passwordHash);
        assert steps[i + 1] == Deliver(r, reg.message, reg.passwordHash);
      }
    }
  }

  /** The delivery has its number and draws no more. */
  predicate HasNumber(s: State, r: RegId) {
    r in s.regs && s.regs[r].number != "" && !s.regs[r].phase.Drawing? && !s.regs[r].phase.Checking?
  }

  predicate NumbersFit(s: State) {
    forall r :: r in s.regs && s.regs[r].number != "" ==> HasNumber(s, r)
  }

  lemma NumberStays(s: State, step: Step, r: RegId)
    requires Enabled(s, step) && HasNumber(s, r)
    ensures HasNumber(Apply(s, step), r) && Apply(s, step).regs[r].number == s.regs[r].number && !DrawsFor(step, r)
  {
  }

  lemma StepKeepsNumbers(s: State, step: Step)
    requires NumbersFit(s) && Enabled(s, step)
    ensures NumbersFit(Apply(s, step))
  {
  }

  lemma NumberIsDrawn(s: State, step: Step, r: RegId)
    requires Enabled(s, step) && HasNumber(Apply(s, step), r) && !HasNumber(s, r) && NumbersFit(s)
    ensures step == Draw(r, Apply(s, step).regs[r].number)
  {
  }

  lemma {:induction false} RunDraws(s: State, steps: seq<Step>, r: RegId)
    requires NumbersFit(s) && Run(Next, s, steps).Some? && HasNumber(Run(Next, s, steps).value, r)
    ensures var number := Run(Next, s, steps).value.regs[r].number;
            if HasNumber(s, r)
            then number == s.regs[r].number && forall j :: 0 <= j < |steps| ==> !DrawsFor(steps[j], r)
            else LastDrawn(steps, r, number)
    decreases |steps|
  {
    if steps != [] {
      var after, number := Apply(s, steps[0]), Run(Next, s, steps).value.regs[r].number;
      StepKeepsNumbers(s, steps[0]);
      RunDraws(after, steps[1..], r);
      if HasNumber(s, r) {
        NumberStays(s, steps[0], r);
        assert forall j :: 0 < j < |steps| ==> steps[j] == steps[1..][j - 1];
      } else if HasNumber(after, r) {
        NumberIsDrawn(s, steps[0], r);
        assert forall j :: 0 < j < |steps| ==> steps[j] == steps[1..][j - 1];
        assert steps[0] == Draw(r, number);
      } else {
        DrawnLater(steps, r, number);
      }
    }
  }

  lemma DrawnLater(steps: seq<Step>, r: RegId, number: string)
    requires steps != [] && LastDrawn(steps[1..], r, number)
    ensures LastDrawn(steps, r, number)
  {
    var i :| 0 <= i < |steps[1..]| && steps[1..][i] == Draw(r, number)
             && forall j :: i < j < |steps[1..]| ==> !DrawsFor(steps[1..][j], r);
    forall j | i + 1 < j < |steps| ensures !DrawsFor(steps[j], r) {
      assert steps[j] == steps[1..][j - 1];
    }
    assert steps[i + 1] == Draw(r, number);
  }

  /** Every row is what its caller sent: the phone, all digits, and the name of the message without the spaces around
      them, the hash made for that delivery, the last number it drew, and the opening balance. */
  lemma RowIsTheCallers(steps: seq<Step>, s: State, r: RegId)
    requires Run(Next, INITIAL, steps) == Some(s) && HasRow(s, r)
    ensures var reg := s.regs[r];
            var id := reg.row.value;
            && reg.message in s.messages && id in s.users
            && s.users[id].phone == Strip(s.messages[reg.message].phone)
            && |s.users[id].phone| > 0
            && (forall i :: 0 <= i < |s.users[id].phone| ==> '0' <= s.users[id].phone[i] <= '9')
            && s.users[id].username == Strip(s.messages[reg.message].username)
            && WasDelivered(steps, r, reg.message, s.users[id].passwordHash)
            && LastDrawn(steps, r, s.users[id].accountNumber)
            && s.users[id].balance == 100000
  {
    RegFact(s, r);
    ReachableFromMessages(s);
    assert FromMessage(s, s.regs[r]);
    RunDelivers(INITIAL, steps, r);
    RowHasNumber(s, r);
    RunDraws(INITIAL, steps, r);
  }

  lemma RowHasNumber(s: State, r: RegId)
    requires Reachable(s) && HasRow(s, r)
    ensures HasNumber(s, r)
  {
    RegFact(s, r);
    forall x, step | NumbersFit(x) && Next(x, step).Some? ensures NumbersFit(Next(x, step).value) {
      StepKeepsNumbers(x, step);
    }
    LeadsToKept(Next, NumbersFit, INITIAL, s);
  }

  /** 400 if and only if the phone is not digits; 409 before the insert only if somebody has the phone. */
  lemma TurnedDownMeans(s: State, r: RegId)
    requires Reachable(s) && r in s.regs
    ensures s.regs[r].message in s.messages
    ensures s.regs[r].phase == Done(BadPhone) <==> !IsDigits(Strip(s.messages[s.regs[r].message].phone))
    ensures s.regs[r].phase == Done(PhoneExists) ==>
      exists id :: id in s.users && s.users[id].phone == Strip(s.messages[s.regs[r].message].phone)
  {
    RegFact(s, r);
    ReachableFromMessages(s);
    assert FromMessage(s, s.regs[r]);
  }

  // ----- the handler as it is written is a run

  lemma ThenLeadsTo(s: State, step: Step, after: State)
    requires Enabled(s, step) && LeadsTo(Next, Apply(s, step), after)
    ensures LeadsTo(Next, s, after)
  {
    StepLeadsTo(Next, s, step);
    LeadsFurther(Next, s, Apply(s, step), after);
  }

  /** The delivery `r` has become `reg`, and the users are these. */
  function Ended(s: State, r: RegId, reg: Reg, users: map<UserId, User>): State {
    With(s, r, reg).(users := users)
  }

  /** The reply and the users once a number has been looked for among these. */
  function AfterDraws(s: State, r: RegId, candidates: seq<string>, id: UserId): (Reply, map<UserId, User>)
    requires r in s.regs
  {
    var number := FirstFree(s.users, candidates);
    if number.None? then (NoNumber, s.users) else (Registered(id), s.users[id := NewUser(s.regs[r], number.value)])
  }

  ghost predicate ReadyToDraw(s: State, r: RegId, candidates: seq<string>, id: UserId) {
    && At(s, r, Drawing) && !PhoneTaken(s.users, s.regs[r].phone) && id !in s.users && s.regs[r].row.None?
    && |s.regs[r].refused| + |candidates| == MAX_DRAWS
    && forall i :: 0 <= i < |candidates| ==> IsAccountNumber(candidates[i])
  }

  lemma InsertRuns(s: State, r: RegId, candidate: string, id: UserId) returns (reg: Reg)
    requires At(s, r, Drawing) && !PhoneTaken(s.users, s.regs[r].phone) && id !in s.users
    requires |s.regs[r].refused| < MAX_DRAWS && IsAccountNumber(candidate) && !NumberTaken(s.users, candidate)
    ensures reg.phase == Done(Registered(id))
    ensures LeadsTo(Next, s, Ended(s, r, reg, s.users[id := NewUser(s.regs[r], candidate)]))
  {
    var drawn := Apply(s, Draw(r, candidate));
    var inserted := Apply(drawn, Insert(r, id));
    var answered := Apply(inserted, Answer(r));
    reg := answered.regs[r];
    assert answered == Ended(s, r, reg, s.users[id := NewUser(s.regs[r], candidate)]);
    IsThere(Next, answered);
    ThenLeadsTo(inserted, Answer(r), answered);
    ThenLeadsTo(drawn, Insert(r, id), answered);
    ThenLeadsTo(s, Draw(r, candidate), answered);
  }

  lemma {:induction false} DrawsRun(s: State, r: RegId, candidates: seq<string>, id: UserId) returns (reg: Reg)
    requires ReadyToDraw(s, r, candidates, id)
    ensures var (reply, users) := AfterDraws(s, r, candidates, id);
            reg.phase == Done(reply) && LeadsTo(Next, s, Ended(s, r, reg, users))
    decreases |candidates|
  {
    if candidates == [] {
      var after := Apply(s, GiveUp(r));
      reg := after.regs[r];
      IsThere(Next, after);
      ThenLeadsTo(s, GiveUp(r), after);
      assert after == Ended(s, r, reg, s.users);
    } else if NumberTaken(s.users, candidates[0]) {
      var after := Apply(s, Draw(r, candidates[0]));
      reg := DrawsRun(after, r, candidates[1..], id);
      var (reply, users) := AfterDraws(s, r, candidates, id);
      assert Ended(after, r, reg, users) == Ended(s, r, reg, users);
      ThenLeadsTo(s, Draw(r, candidates[0]), Ended(s, r, reg, users));
    } else {
      reg := InsertRuns(s, r, candidates[0], id);
    }
  }

  lemma SameEnd(s: State, before: State, r: RegId, reg: Reg, users: map<UserId, User>)
    requires r in s.regs && s == With(before, r, s.regs[r])
    ensures Ended(s, r, reg, users) == Ended(before, r, reg, users)
  {
    assert s.regs[r := reg] == before.regs[r := reg];
  }

  lemma CheckRuns(s: State, r: RegId, candidates: seq<string>, id: UserId) returns (reg: Reg)
    requires At(s, r, Checking) && s.regs[r].refused == [] && s.regs[r].row.None? && id !in s.users
    requires |candidates| == MAX_DRAWS && forall i :: 0 <= i < |candidates| ==> IsAccountNumber(candidates[i])
    ensures var (reply, users) :=
              if PhoneTaken(s.users, s.regs[r].phone) then (PhoneExists, s.users) else AfterDraws(s, r, candidates, id);
            reg.phase == Done(reply) && LeadsTo(Next, s, Ended(s, r, reg, users))
  {
    var checked := Apply(s, CheckPhone(r));
    reg := checked.regs[r];
    if PhoneTaken(s.users, s.regs[r].phone) {
      IsThere(Next, checked);
      assert checked == Ended(s, r, reg, s.users);
      ThenLeadsTo(s, CheckPhone(r), Ended(s, r, reg, s.users));
    } else {
      reg := DrawsRun(checked, r, candidates, id);
      var users := AfterDraws(s, r, candidates, id).1;
      SameEnd(checked, s, r, reg, users);
      ThenLeadsTo(s, CheckPhone(r), Ended(s, r, reg, users));
    }
  }

  /** A registration as it is written, with nothing between its steps, is a run of the machine. */
  lemma RegisterIsARun(s: State, r: RegId, m: MessageId, passwordHash: string, candidates: seq<string>, id: UserId)
    returns (reg: Reg)
    requires m in s.messages && r !in s.regs && id !in s.users && |candidates| == MAX_DRAWS
    requires forall i :: 0 <= i < |candidates| ==> IsAccountNumber(candidates[i])
    ensures var payload := s.messages[m];
            var (reply, users) := RegisterAlone(s.users, payload.phone, payload.username, passwordHash, candidates, id);
            reg.phase == Done(reply) && LeadsTo(Next, s, Ended(s, r, reg, users))
  {
    var delivered := Apply(s, Deliver(r, m, passwordHash));
    reg := delivered.regs[r];
    var users :=
      RegisterAlone(s.users, s.messages[m].phone, s.messages[m].username, passwordHash, candidates, id).1;
    if reg.phase.Checking? {
      reg := CheckRuns(delivered, r, candidates, id);
      SameEnd(delivered, s, r, reg, users);
    } else {
      IsThere(Next, delivered);
    }
    ThenLeadsTo(s, Deliver(r, m, passwordHash), Ended(s, r, reg, users));
  }
}
