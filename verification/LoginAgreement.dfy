/** What logins that run among others decide, next to the users table.

    Each login remembers which content of the table was the current one when it began and when it looked its user
    up.  Its answer is compared with what that content, or any since, would have answered: it agrees, save for the
    balance shown, unless the cache answered for a name that several users bore. */
module LoginAgreement {
  import opened Collections
  import opened Bank
  import opened Runs
  import opened LoginCache

  /** What the i-th content of the users table answers. */
  ghost function TableSays(s: State, i: nat, a: Attempt, verify: Verifier): Result
    requires i < |s.versions|
  {
    var first := Precheck(a.phone, a.name);
    if first.Some? then first.value else Judge(InTable(s.versions[i].users, a.phone, a.name), a.password, verify)
  }

  /** By phone, or not from the cache, or by a name that had one bearer when the login looked. */
  predicate IsSafe(s: State, a: Attempt)
    requires a.looked < |s.versions|
  {
    a.phone != "" || !a.hit || |Bearers(s.versions[a.looked].users, a.phone, a.name)| == 1
  }

  /** The row a login goes by, next to the table it was looked up in or could have been. */
  ghost predicate RowLooked(s: State, a: Attempt)
    requires HasRow(a.phase) && a.looked < |s.versions|
  {
    var table := s.versions[a.looked].users;
    && Precheck(a.phone, a.name).None?
    && Bears(a.phone, a.name, a.phase.row)
    && if a.hit then SameUser(table, a.phase.id, a.phase.row)
       else InTable(table, a.phone, a.name) == OneRow(a.phase.id, a.phase.row)
  }

  /** An answer that nothing forced. */
  ghost predicate AnswerFits(s: State, a: Attempt, verify: Verifier)
    requires a.phase.Ended? && a.looked < |s.versions|
  {
    if IsSafe(s, a) then SameDecision(a.phase.result, TableSays(s, a.looked, a, verify))
    else !a.phase.result.Raises? && |Bearers(s.versions[a.looked].users, a.phone, a.name)| > 1
         && Precheck(a.phone, a.name).None?
  }

  ghost predicate LoginFits(s: State, a: Attempt, verify: Verifier) {
    && a.began <= a.looked < |s.versions|
    && (a.hit ==> a.looked == a.began)
    && (a.failed ==> a.phase == Ended(Raises))
    && (a.phase.Missed? ==> !a.hit && Precheck(a.phone, a.name).None?)
    && (HasRow(a.phase) ==> RowLooked(s, a))
    && (a.phase.Ended? && !a.failed ==> AnswerFits(s, a, verify))
  }

  ghost predicate VersionsUnique(s: State) {
    forall i :: 0 <= i < |s.versions| ==> UniqueColumns(s.versions[i].users)
  }

  ghost predicate VersionsGrow(s: State) {
    forall i, j, id :: 0 <= i <= j < |s.versions| && id in s.versions[i].users ==>
      SameUser(s.versions[j].users, id, s.versions[i].users[id])
  }

  ghost predicate LoginsFit(s: State, verify: Verifier) {
    forall l :: l in s.attempts ==> LoginFits(s, s.attempts[l], verify)
  }

  ghost predicate Trail(s: State, verify: Verifier) {
    VersionsUnique(s) && VersionsGrow(s) && LoginsFit(s, verify)
  }

  lemma TableStepKeepsTrail(s: State, after: State, verify: Verifier)
    requires Trail(s, verify) && Later(s, after) && VersionsFit(s) && UniqueColumns(after.users)
    requires after.attempts == s.attempts
    ensures Trail(after, verify)
  {
  }

  lemma BearersOfRow(users: map<UserId, User>, phone: string, name: string, id: UserId, row: User)
    requires UniqueColumns(users) && SameUser(users, id, row) && Bears(phone, name, row)
    ensures InTable(users, phone, name) ==
            if |Bearers(users, phone, name)| == 1 then OneRow(id, users[id]) else ManyRows
    ensures |Bearers(users, phone, name)| > 0 && (phone != "" ==> |Bearers(users, phone, name)| == 1)
  {
    var rows := Bearers(users, phone, name);
    OneBearer(users, phone, name, id);
    assert id in rows;
    OnlyElement(rows, id);
    if phone != "" {
      assert rows == {id};
    }
  }

  lemma JudgedFits(s: State, a: Attempt, verify: Verifier)
    requires HasRow(a.phase) && a.looked < |s.versions| && RowLooked(s, a) && VersionsUnique(s)
    ensures var row := a.phase.row;
            var result := Judge(OneRow(a.phase.id, row), a.password, verify);
            AnswerFits(s, a.(phase := Ended(result)), verify)
  {
    var table := s.versions[a.looked].users;
    if a.hit {
      BearersOfRow(table, a.phone, a.name, a.phase.id, a.phase.row);
    }
  }

  /** The password check, on the row looked up. */
  lemma CheckFits(s: State, a: Attempt, f: Fault, verify: Verifier)
    requires LoginFits(s, a, verify) && a.phase.Found? && VersionsUnique(s)
    ensures LoginFits(s, AfterCheck(a, f, verify), verify)
  {
    JudgedFits(s, a, verify);
  }

  lemma EntryLooked(s: State, phone: string, name: string, verify: Verifier)
    requires Inv(s, verify) && InCache(s, phone, name).Some?
    ensures var c := InCache(s, phone, name).value;
            SameUser(s.users, c.id, c.row) && Bears(phone, name, c.row)
  {
    assert EntryFits(s, InCache(s, phone, name).value);
  }

  lemma LookFits(s: State, phone: string, name: string, password: string, fails: bool, verify: Verifier)
    requires Inv(s, verify)
    ensures LoginFits(s, Begun(s, phone, name, password, fails), verify)
  {
    if InCache(s, phone, name).Some? {
      EntryLooked(s, phone, name, verify);
    }
  }

  lemma ReadFits(s: State, a: Attempt, verify: Verifier)
    requires VersionsFit(s) && a.phase.Missed? && LoginFits(s, a, verify)
    ensures LoginFits(s, AfterTable(s, a), verify)
  {
    var rows := Bearers(s.users, a.phone, a.name);
    if rows != {} {
      OneBearer(s.users, a.phone, a.name, PickOne(rows));
    }
  }

  lemma WriteFits(s: State, a: Attempt, f: Fault, verify: Verifier)
    requires LoginFits(s, a, verify)
    ensures a.phase.Read? ==> LoginFits(s, AfterPhone(a, f), verify)
    ensures a.phase.HalfCached? ==> LoginFits(s, AfterName(a, f), verify)
  {
  }

  lemma LoginKeepsTrail(s: State, after: State, l: LoginId, verify: Verifier)
    requires Trail(s, verify) && OnlyAttempt(s, after, l) && LoginFits(s, after.attempts[l], verify)
    ensures Trail(after, verify)
  {
  }

  lemma CacheStepKeepsTrail(s: State, step: Step, verify: Verifier)
    requires Inv(s, verify) && Trail(s, verify) && Enabled(s, step) && (step.CachePhone? || step.CacheName?)
    ensures Trail(Apply(s, step, verify), verify)
  {
    CacheStepFits(s, step, verify);
    WriteFits(s, s.attempts[step.l], step.fault, verify);
    LoginKeepsTrail(s, Apply(s, step, verify), step.l, verify);
  }

  lemma LoginStepKeepsTrail(s: State, step: Step, verify: Verifier)
    requires Inv(s, verify) && Trail(s, verify) && Enabled(s, step) && LeavesCache(step)
    ensures Trail(Apply(s, step, verify), verify)
  {
    LeftAlone(s, step, verify);
    match step {
      case Look(_, phone, name, password, fails) => LookFits(s, phone, name, password, fails, verify);
      case ReadTable(l) => ReadFits(s, s.attempts[l], verify);
      case Check(l, _, f) => CheckFits(s, s.attempts[l], f, verify);
      case _ =>
    }
    LoginKeepsTrail(s, Apply(s, step, verify), step.l, verify);
  }

  lemma StepKeepsTrail(s: State, step: Step, verify: Verifier)
    requires Inv(s, verify) && Trail(s, verify) && Enabled(s, step)
    ensures Trail(Apply(s, step, verify), verify)
  {
    if LeavesCache(step) {
      LoginStepKeepsTrail(s, step, verify);
    } else if step.CachePhone? || step.CacheName? {
      CacheStepKeepsTrail(s, step, verify);
    } else {
      StepKeepsInv(s, step, verify);
      TableStepKeepsTrail(s, Apply(s, step, verify), verify);
    }
  }

  lemma ReachableTrail(s: State, verify: Verifier)
    requires Reachable(s, verify)
    ensures Trail(s, verify)
  {
    var inv := (x: State) => Inv(x, verify) && Trail(x, verify);
    forall x, step | inv(x) && Next(verify)(x, step).Some? ensures inv(Next(verify)(x, step).value) {
      StepKeepsInv(x, step, verify);
      StepKeepsTrail(x, step, verify);
    }
    LeadsToKept(Next(verify), inv, INITIAL, s);
  }

  lemma ManyStayMany(s: State, a: Attempt, i: nat)
    requires VersionsGrow(s) && a.looked <= i < |s.versions|
    requires |Bearers(s.versions[a.looked].users, a.phone, a.name)| > 1
    ensures InTable(s.versions[i].users, a.phone, a.name) == ManyRows
  {
    var before := Bearers(s.versions[a.looked].users, a.phone, a.name);
    var now := Bearers(s.versions[i].users, a.phone, a.name);
    forall id | id in before ensures id in now {
      assert SameUser(s.versions[i].users, id, s.versions[a.looked].users[id]);
    }
    SubsetIsSmaller(before, now);
    OneBearer(s.versions[i].users, a.phone, a.name, PickOne(now));
  }

  /** Whatever runs between the steps of a login, and unless a failing call ended it with a 500: its answer is that of
      the table as it was when the login looked, save for the balance, except when the cache answered for a name that
      already had several bearers; and then it is that of the table at no time since the login began. */
  lemma LoginAgreesIff(s: State, l: LoginId, verify: Verifier)
    requires Reachable(s, verify) && l in s.attempts && s.attempts[l].phase.Ended?
    ensures var a := s.attempts[l];
            var result := a.phase.result;
            && a.began <= a.looked < |s.versions|
            && if a.failed then result == Raises
               else if IsSafe(s, a) then SameDecision(result, TableSays(s, a.looked, a, verify))
               else forall i :: a.began <= i < |s.versions| ==> !SameDecision(result, TableSays(s, i, a, verify))
  {
    ReachableTrail(s, verify);
    var a := s.attempts[l];
    if !a.failed && !IsSafe(s, a) {
      forall i | a.began <= i < |s.versions| ensures !SameDecision(a.phase.result, TableSays(s, i, a, verify)) {
        ManyStayMany(s, a, i);
      }
    }
  }

  /** Such a login: the cache lets in one of two users with the same name. */
  lemma SharedNameLetIn(verify: Verifier) returns (s: State)
    requires verify("", "")
    ensures Reachable(s, verify) && 1 in s.attempts
    ensures var a := s.attempts[1];
            a.looked < |s.versions| && a.phase.Ended? && a.phase.result.Opened? && !IsSafe(s, a)
  {
    var before := CachedNameShared(verify);
    ReachableInv(before, verify);
    var a := ServeIsARun(before, 1, "", "an", "", "sid", NO_FAULTS, verify);
    s := With(Serve(before, "", "an", "", "sid", NO_FAULTS, verify).0, 1, a);
    LeadsFurther(Next(verify), INITIAL, before, s);
  }
}
