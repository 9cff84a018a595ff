/** Login through the Redis user cache, next to the same login on the users table.

    A login is modelled twice: as it is written, with nothing else running (`Serve`, and the class that is proved
    against it), and as a machine whose steps - look in the cache, read the table, write two keys, check and open a
    session - go on between those of other logins, registrations and transfers.  The first is a run of the second. */
module LoginCache {
  import opened Collections
  import opened Text
  import opened Bank
  import opened Runs

  const USER_CACHE_TTL: nat := 300

  /** The cached JSON: the user's id and row, and the instant the key expires. `readAt` is history: when the
      row was read from the table. */
  datatype Cached = Cached(id: UserId, row: User, until: nat, readAt: nat)

  datatype Session = Session(user: UserId, until: nat)

  /** How a login ends; `Raises` becomes a 500. */
  datatype Result = MissingInput | BadPhone | Invalid | Raises | Opened(id: UserId, row: User)

  datatype Phase =
    | Missed                                        // not in the cache, the table is to be read
    | Read(id: UserId, row: User, at: nat)          // read from the table, to be cached
    | HalfCached(id: UserId, row: User, at: nat)    // the phone key is written, the name key is not
    | Found(id: UserId, row: User, at: nat)         // the password is to be checked
    | Ended(result: Result)

  type LoginId = nat

  /** A login under way or ended.  The last four fields are history: the version of the table that was current when
      it began, the one current when it looked the user up (in the cache on a hit, in the table on a miss), whether it
      was a hit, and whether a failing call or a dying process ended it. */
  datatype Attempt = Attempt(
    phone: string, name: string, password: string, phase: Phase,
    began: nat, looked: nat, hit: bool, failed: bool)

  /** `versions` is history: every content the users table has had, and since when. */
  datatype Version = Version(users: map<UserId, User>, since: nat)

  datatype State = State(
    users: map<UserId, User>,
    byPhone: map<string, Cached>,
    byName: map<string, Cached>,
    sessions: map<string, Session>,
    now: nat,
    attempts: map<LoginId, Attempt>,
    versions: seq<Version>)

  const INITIAL: State := State(map[], map[], map[], map[], 0, map[], [Version(map[], 0)])

  datatype Lookup = NoRow | OneRow(id: UserId, row: User) | ManyRows

  function Bearers(users: map<UserId, User>, phone: string, name: string): set<UserId> {
    set id | id in users && if phone != "" then users[id].phone == phone else users[id].username == name
  }

  /** SELECT ... scalar_one_or_none() */
  ghost function InTable(users: map<UserId, User>, phone: string, name: string): Lookup {
    var rows := Bearers(users, phone, name);
    if rows == {} then NoRow
    else if rows != {PickOne(rows)} then ManyRows
    else OneRow(PickOne(rows), users[PickOne(rows)])
  }

  /** GET user_cache:... */
  function InCache(s: State, phone: string, name: string): Option<Cached> {
    var keys, key := if phone != "" then s.byPhone else s.byName, if phone != "" then phone else name;
    if key in keys && s.now < keys[key].until then Some(keys[key]) else None
  }

  ghost function Consult(s: State, phone: string, name: string): Lookup {
    match InCache(s, phone, name)
    case Some(c) => OneRow(c.id, c.row)
    case None => InTable(s.users, phone, name)
  }

  function Judge(found: Lookup, password: string, verify: Verifier): Result {
    match found
    case NoRow => Invalid
    case ManyRows => Raises
    case OneRow(id, row) => if verify(password, row.passwordHash) then Opened(id, row) else Invalid
  }

  function Precheck(phone: string, name: string): Option<Result> {
    if phone == "" && name == "" then Some(MissingInput)
    else if phone != "" && !IsDigits(phone) then Some(BadPhone)
    else None
  }

  /** The decision with the cache, and what it would be on the table alone. */
  ghost function Decide(s: State, phone: string, name: string, password: string, verify: Verifier): Result {
    if Precheck(phone, name).Some? then Precheck(phone, name).value
    else Judge(Consult(s, phone, name), password, verify)
  }

  ghost function DecideOnTable(s: State, phone: string, name: string, password: string, verify: Verifier): Result {
    if Precheck(phone, name).Some? then Precheck(phone, name).value
    else Judge(InTable(s.users, phone, name), password, verify)
  }

  /** SETEX user_cache:phone:... */
  function PutPhone(s: State, id: UserId, row: User, at: nat, f: Fault): State {
    if Writes(f) then s.(byPhone := s.byPhone[row.phone := Cached(id, row, s.now + USER_CACHE_TTL, at)]) else s
  }

  /** SETEX user_cache:username:..., for a user with a name */
  function PutName(s: State, id: UserId, row: User, at: nat, f: Fault): State {
    if row.username != "" && Writes(f) then
      s.(byName := s.byName[row.username := Cached(id, row, s.now + USER_CACHE_TTL, at)])
    else s
  }

  predicate NameFails(row: User, f: Fault) { row.username != "" && f.Fails? }

  /** SETEX session:... */
  function PutSession(s: State, sid: string, id: UserId, f: Fault): State {
    if Writes(f) then s.(sessions := s.sessions[sid := Session(id, s.now + SESSION_TTL)]) else s
  }

  // ----- one login with nothing else running

  /** Which Redis calls of a login fail. */
  datatype Faults = Faults(get: bool, phone: Fault, name: Fault, session: Fault)

  const NO_FAULTS := Faults(false, Works, Works, Works)

  function Conclude(s: State, id: UserId, row: User, password: string, sid: string, f: Fault, verify: Verifier)
    : (State, Result)
  {
    if !verify(password, row.passwordHash) then (s, Invalid)
    else (PutSession(s, sid, id, f), if f.Fails? then Raises else Opened(id, row))
  }

  ghost function Serve(s: State, phone: string, name: string, password: string, sid: string,
                       faults: Faults, verify: Verifier)
    : (State, Result)
  {
    var cached, found := InCache(s, phone, name), InTable(s.users, phone, name);
    if Precheck(phone, name).Some? then (s, Precheck(phone, name).value)
    else if faults.get then (s, Raises)
    else if cached.Some? then Conclude(s, cached.value.id, cached.value.row, password, sid, faults.session, verify)
    else if !found.OneRow? then (s, Judge(found, password, verify))
    else
      var half := PutPhone(s, found.id, found.row, s.now, faults.phone);
      var full := PutName(half, found.id, found.row, s.now, faults.name);
      if faults.phone.Fails? then (half, Raises)
      else if NameFails(found.row, faults.name) then (full, Raises)
      else Conclude(full, found.id, found.row, password, sid, faults.session, verify)
  }

  /** The auth service's login, as it is written. */
  class AuthService {
    var users: map<UserId, User>
    var byPhone: map<string, Cached>
    var byName: map<string, Cached>
    var sessions: map<string, Session>
    var now: nat
    ghost var attempts: map<LoginId, Attempt>
    ghost var versions: seq<Version>

    ghost function Abstract(): State
      reads this
    {
      State(users, byPhone, byName, sessions, now, attempts, versions)
    }

    /** `set_user_for_login_cache`: one key, and for a user with a name another. */
    method CacheUser(id: UserId, row: User, faults: Faults) returns (ok: bool)
      modifies this`byPhone, this`byName
      ensures ok <==> faults.phone.Works? && !NameFails(row, faults.name)
      ensures byPhone == if Writes(faults.phone)
                         then old(byPhone)[row.phone := Cached(id, row, now + USER_CACHE_TTL, now)] else old(byPhone)
      ensures byName == if faults.phone.Works? && row.username != "" && Writes(faults.name)
                        then old(byName)[row.username := Cached(id, row, now + USER_CACHE_TTL, now)] else old(byName)
    {
      if Writes(faults.phone) {
        byPhone := byPhone[row.phone := Cached(id, row, now + USER_CACHE_TTL, now)];
      }
      if faults.phone.Fails? {
        return false;
      }
      if row.username != "" {
        if Writes(faults.name) {
          byName := byName[row.username := Cached(id, row, now + USER_CACHE_TTL, now)];
        }
        return faults.name.Works?;
      }
      return true;
    }

    /** `create_session` */
    method CreateSession(sid: string, id: UserId, f: Fault) returns (ok: bool)
      modifies this`sessions
      ensures ok <==> f.Works?
      ensures sessions == if Writes(f) then old(sessions)[sid := Session(id, now + SESSION_TTL)] else old(sessions)
    {
      if Writes(f) {
        sessions := sessions[sid := Session(id, now + SESSION_TTL)];
      }
      return f.Works?;
    }

    method HandleLogin(phoneField: string, nameField: string, password: string, sid: string,
                       faults: Faults, verify: Verifier)
      returns (result: Result)
      modifies this
      ensures var phone, name := Strip(phoneField), Strip(nameField);
              (Abstract(), result) == Serve(old(Abstract()), phone, name, password, sid, faults, verify)
      ensures result.Opened? ==>
        && sessions == old(sessions)[sid := Session(result.id, old(now) + 86400)]
        && verify(password, result.row.passwordHash)
      ensures result.MissingInput? || result.BadPhone? || result.Invalid? ==> sessions == old(sessions)
      ensures sessions - {sid} == old(sessions) - {sid}
    {
      var phone, name := Strip(phoneField), Strip(nameField);
      if phone == "" && name == "" {
        return MissingInput;
      }
      if phone != "" && !IsDigits(phone) {
        return BadPhone;
      }
      if faults.get {
        return Raises;
      }
      var id, row;
      var entry := None;
      if phone != "" {
        if phone in byPhone && now < byPhone[phone].until {
          entry := Some(byPhone[phone]);
        }
      } else if name in byName && now < byName[name].until {
        entry := Some(byName[name]);
      }
      if entry.Some? {
        id, row := entry.value.id, entry.value.row;
      } else {
        var rows := Bearers(users, phone, name);
        if rows == {} {
          return Invalid;
        }
        id :| id in rows;
        OnlyElement(rows, id);
        OnlyElement(rows, PickOne(rows));
        if |rows| > 1 {
          return Raises;
        }
        assert rows == {id};
        row := users[id];
        var cached := CacheUser(id, row, faults);
        if !cached {
          return Raises;
        }
      }
      if !verify(password, row.passwordHash) {
        return Invalid;
      }
      var created := CreateSession(sid, id, faults.session);
      return if created then Opened(id, row) else Raises;
    }
  }

  /** Failing Redis calls can only turn a decision into a 500. */
  lemma ServeDecides(s: State, phone: string, name: string, password: string, sid: string,
                     faults: Faults, verify: Verifier)
    ensures Serve(s, phone, name, password, sid, NO_FAULTS, verify).1 == Decide(s, phone, name, password, verify)
    ensures Serve(s, phone, name, password, sid, faults, verify).1 in {Decide(s, phone, name, password, verify), Raises}
  {
  }

  // ----- runs
  //
  // A login looks in the cache, on a miss reads the table and writes the row back under two keys, checks the
  // password and opens a session.  Other logins, registrations and transfers go on between these
  // steps, each Redis call can fail, and a failing write may have taken effect.

  datatype Step =
    | Tick
    | Register(id: UserId, row: User)
    | Move(balances: map<UserId, int>)          // committed transfers: balances change, nothing else does
    | Forget(phone: string, name: string)       // Redis drops keys early
    | Look(l: LoginId, phone: string, name: string, password: string, fails: bool)
    | ReadTable(l: LoginId)
    | CachePhone(l: LoginId, fault: Fault)
    | CacheName(l: LoginId, fault: Fault)
    | Check(l: LoginId, sid: string, fault: Fault)
    | Stop(l: LoginId)                          // the process dies, or something else raises

  function Moved(users: map<UserId, User>, balances: map<UserId, int>): map<UserId, User> {
    map id | id in users :: if id in balances then users[id].(balance := balances[id]) else users[id]
  }

  function Commit(s: State, users: map<UserId, User>): State {
    s.(users := users, versions := s.versions + [Version(users, s.now)])
  }

  ghost predicate Enabled(s: State, step: Step) {
    match step
    case Register(id, row) => Insertable(Db(s.users, [], []), id, row)
    case Look(l, _, _, _, _) => l !in s.attempts && s.versions != []
    case ReadTable(l) => l in s.attempts && s.attempts[l].phase.Missed? && s.versions != []
    case CachePhone(l, _) => l in s.attempts && s.attempts[l].phase.Read?
    case CacheName(l, _) => l in s.attempts && s.attempts[l].phase.HalfCached?
    case Check(l, _, _) => l in s.attempts && s.attempts[l].phase.Found?
    case Stop(l) => l in s.attempts && !s.attempts[l].phase.Ended?
    case _ => true
  }

  function With(s: State, l: LoginId, a: Attempt): State { s.(attempts := s.attempts[l := a]) }

  function AfterLook(s: State, phone: string, name: string, fails: bool): Phase {
    if Precheck(phone, name).Some? then Ended(Precheck(phone, name).value)
    else if fails then Ended(Raises)
    else
      match InCache(s, phone, name)
      case Some(c) => Found(c.id, c.row, c.readAt)
      case None => Missed
  }

  /** The login has looked in the cache. */
  function Begun(s: State, phone: string, name: string, password: string, fails: bool): Attempt
    requires s.versions != []
  {
    var first := Precheck(phone, name).None?;
    Attempt(phone, name, password, AfterLook(s, phone, name, fails), Latest(s), Latest(s),
            first && InCache(s, phone, name).Some?, first && fails)
  }

  /** The version in force. */
  function Latest(s: State): nat
    requires s.versions != []
  {
    |s.versions| - 1
  }

  /** A call failed, perhaps after taking effect. */
  function GivenUp(a: Attempt): Attempt { a.(phase := Ended(Raises), failed := true) }

  ghost function AfterRead(s: State, a: Attempt): Phase {
    match InTable(s.users, a.phone, a.name)
    case NoRow => Ended(Invalid)
    case ManyRows => Ended(Raises)
    case OneRow(id, row) => Read(id, row, s.now)
  }

  ghost function AfterTable(s: State, a: Attempt): Attempt
    requires s.versions != []
  {
    a.(phase := AfterRead(s, a), looked := Latest(s))
  }

  function AfterPhone(a: Attempt, f: Fault): Attempt
    requires a.phase.Read?
  {
    if f.Fails? then GivenUp(a) else a.(phase := HalfCached(a.phase.id, a.phase.row, a.phase.at))
  }

  function AfterName(a: Attempt, f: Fault): Attempt
    requires a.phase.HalfCached?
  {
    if NameFails(a.phase.row, f) then GivenUp(a) else a.(phase := Found(a.phase.id, a.phase.row, a.phase.at))
  }

  function AfterCheck(a: Attempt, f: Fault, verify: Verifier): Attempt
    requires a.phase.Found?
  {
    if !verify(a.password, a.phase.row.passwordHash) then a.(phase := Ended(Invalid))
    else if f.Fails? then GivenUp(a)
    else a.(phase := Ended(Opened(a.phase.id, a.phase.row)))
  }

  ghost function Apply(s: State, step: Step, verify: Verifier): State
    requires Enabled(s, step)
  {
    match step
    case Tick => s.(now := s.now + 1)
    case Register(id, row) => Commit(s, s.users[id := row])
    case Move(balances) => Commit(s, Moved(s.users, balances))
    case Forget(phone, name) => s.(byPhone := s.byPhone - {phone}, byName := s.byName - {name})
    case Look(l, phone, name, password, fails) =>
      With(s, l, Begun(s, phone, name, password, fails))
    case ReadTable(l) => With(s, l, AfterTable(s, s.attempts[l]))
    case CachePhone(l, f) =>
      var p := s.attempts[l].phase;
      With(PutPhone(s, p.id, p.row, p.at, f), l, AfterPhone(s.attempts[l], f))
    case CacheName(l, f) =>
      var p := s.attempts[l].phase;
      With(PutName(s, p.id, p.row, p.at, f), l, AfterName(s.attempts[l], f))
    case Check(l, sid, f) =>
      var p := s.attempts[l].phase;
      With(Conclude(s, p.id, p.row, s.attempts[l].password, sid, f, verify).0, l, AfterCheck(s.attempts[l], f, verify))
    case Stop(l) => With(s, l, GivenUp(s.attempts[l]))
  }

  ghost function Next(verify: Verifier): (State, Step) -> Option<State> {
    (s: State, step: Step) => if Enabled(s, step) then Some(Apply(s, step, verify)) else None
  }

  ghost predicate Reachable(s: State, verify: Verifier) { LeadsTo(Next(verify), INITIAL, s) }

  /** A user's row as it is now, except perhaps for the balance. */
  ghost predicate SameUser(users: map<UserId, User>, id: UserId, row: User) {
    id in users && row == users[id].(balance := row.balance)
  }

  /** The i-th content of the table was the current one at instant `at`. */
  ghost predicate CurrentAt(versions: seq<Version>, i: int, at: int) {
    0 <= i < |versions| && versions[i].since <= at && (i + 1 < |versions| ==> at <= versions[i + 1].since)
  }

  /** The row was the committed one at instant `at`. */
  ghost predicate WasCommitted(versions: seq<Version>, id: UserId, row: User, at: nat) {
    exists i :: CurrentAt(versions, i, at) && id in versions[i].users && versions[i].users[id] == row
  }

  /** A row that is known apart from the table: that of an existing user, and once committed. */
  ghost predicate RowFits(s: State, id: UserId, row: User, at: nat) {
    SameUser(s.users, id, row) && at <= s.now && WasCommitted(s.versions, id, row, at)
  }

  ghost predicate EntryFits(s: State, c: Cached) {
    RowFits(s, c.id, c.row, c.readAt) && c.readAt + USER_CACHE_TTL <= c.until <= s.now + USER_CACHE_TTL
  }

  predicate HasRow(p: Phase) { p.Read? || p.HalfCached? || p.Found? }

  predicate Bears(phone: string, name: string, row: User) {
    if phone != "" then row.phone == phone else row.username == name
  }

  ghost predicate AttemptFits(s: State, a: Attempt, verify: Verifier) {
    && (HasRow(a.phase) ==> RowFits(s, a.phase.id, a.phase.row, a.phase.at) && Bears(a.phone, a.name, a.phase.row))
    && (a.phase.Ended? && a.phase.result.Opened? ==>
         var r := a.phase.result;
         SameUser(s.users, r.id, r.row) && Bears(a.phone, a.name, r.row) && verify(a.password, r.row.passwordHash))
  }

  ghost predicate PhonesFit(s: State) {
    forall phone :: phone in s.byPhone ==> EntryFits(s, s.byPhone[phone]) && s.byPhone[phone].row.phone == phone
  }

  ghost predicate NamesFit(s: State) {
    forall name :: name in s.byName ==> EntryFits(s, s.byName[name]) && s.byName[name].row.username == name
  }

  ghost predicate CacheFits(s: State) {
    PhonesFit(s) && NamesFit(s)
  }

  ghost predicate AttemptsFit(s: State, verify: Verifier) {
    forall l :: l in s.attempts ==> AttemptFits(s, s.attempts[l], verify)
  }

  ghost predicate VersionsFit(s: State) {
    s.versions != [] && s.versions[|s.versions| - 1].users == s.users && s.versions[|s.versions| - 1].since <= s.now
  }

  ghost predicate Inv(s: State, verify: Verifier) {
    UniqueColumns(s.users) && CacheFits(s) && AttemptsFit(s, verify) && VersionsFit(s)
  }

  /** What a step may do to the table and the clock. */
  ghost predicate Later(s: State, after: State) {
    && s.now <= after.now
    && (forall id :: id in s.users ==> SameUser(after.users, id, s.users[id]))
    && (after.versions == s.versions ||
        (s.versions != [] && after.versions == s.versions + [Version(after.users, s.now)]))
  }

  lemma RowStillFits(s: State, after: State, id: UserId, row: User, at: nat)
    requires RowFits(s, id, row, at) && Later(s, after)
    ensures RowFits(after, id, row, at)
  {
    var i :| CurrentAt(s.versions, i, at) && id in s.versions[i].users && s.versions[i].users[id] == row;
    assert CurrentAt(after.versions, i, at);
  }

  lemma AttemptStillFits(s: State, after: State, a: Attempt, verify: Verifier)
    requires AttemptFits(s, a, verify) && Later(s, after)
    ensures AttemptFits(after, a, verify)
  {
    if HasRow(a.phase) {
      RowStillFits(s, after, a.phase.id, a.phase.row, a.phase.at);
    }
  }

  /** Time passes or the table changes; cache and attempts stay. */
  lemma TableStepKeeps(s: State, after: State, verify: Verifier)
    requires Inv(s, verify) && Later(s, after) && UniqueColumns(after.users) && VersionsFit(after)
    requires after.byPhone == s.byPhone && after.byName == s.byName && after.attempts == s.attempts
    ensures Inv(after, verify)
  {
    forall c | EntryFits(s, c) ensures EntryFits(after, c) {
      RowStillFits(s, after, c.id, c.row, c.readAt);
    }
    forall l | l in after.attempts ensures AttemptFits(after, after.attempts[l], verify) {
      AttemptStillFits(s, after, s.attempts[l], verify);
    }
  }

  lemma PutPhoneKeeps(s: State, id: UserId, row: User, at: nat, f: Fault)
    requires CacheFits(s) && RowFits(s, id, row, at)
    ensures CacheFits(PutPhone(s, id, row, at, f))
  {
  }

  /** The parts of the state that a login's steps leave alone. */
  ghost predicate OnlyAttempt(s: State, after: State, l: LoginId) {
    && after.users == s.users && after.now == s.now && after.versions == s.versions
    && l in after.attempts && after.attempts == s.attempts[l := after.attempts[l]]
  }

  lemma LoginKeeps(s: State, after: State, l: LoginId, verify: Verifier)
    requires Inv(s, verify) && OnlyAttempt(s, after, l) && CacheFits(after) && AttemptFits(s, after.attempts[l], verify)
    ensures Inv(after, verify)
  {
  }

  lemma SameCache(s: State, after: State)
    requires CacheFits(s) && after.users == s.users && after.now == s.now && after.versions == s.versions
    requires after.byPhone == s.byPhone && after.byName == s.byName
    ensures CacheFits(after)
  {
  }

  lemma CacheStepFits(s: State, step: Step, verify: Verifier)
    requires Enabled(s, step) && (step.CachePhone? || step.CacheName?) && AttemptFits(s, s.attempts[step.l], verify)
    ensures var after := Apply(s, step, verify);
            OnlyAttempt(s, after, step.l) && AttemptFits(s, after.attempts[step.l], verify)
  {
  }

  lemma CachePhoneKeeps(s: State, l: LoginId, f: Fault, verify: Verifier)
    requires Inv(s, verify) && Enabled(s, CachePhone(l, f))
    ensures Inv(Apply(s, CachePhone(l, f), verify), verify)
  {
    var p, after := s.attempts[l].phase, Apply(s, CachePhone(l, f), verify);
    CacheStepFits(s, CachePhone(l, f), verify);
    PutPhoneKeeps(s, p.id, p.row, p.at, f);
    SameCache(PutPhone(s, p.id, p.row, p.at, f), after);
    LoginKeeps(s, after, l, verify);
  }

  lemma CacheNameKeeps(s: State, l: LoginId, f: Fault, verify: Verifier)
    requires Inv(s, verify) && Enabled(s, CacheName(l, f))
    ensures Inv(Apply(s, CacheName(l, f), verify), verify)
  {
    var p, after := s.attempts[l].phase, Apply(s, CacheName(l, f), verify);
    CacheStepFits(s, CacheName(l, f), verify);
    SameCache(PutName(s, p.id, p.row, p.at, f), after);
    LoginKeeps(s, after, l, verify);
  }

  predicate LeavesCache(step: Step) { step.Look? || step.ReadTable? || step.Check? || step.Stop? }

  lemma LeftAlone(s: State, step: Step, verify: Verifier)
    requires Enabled(s, step) && LeavesCache(step)
    ensures var after := Apply(s, step, verify);
            OnlyAttempt(s, after, step.l) && after.byPhone == s.byPhone && after.byName == s.byName
  {
  }

  lemma OtherLoginStepKeeps(s: State, step: Step, verify: Verifier)
    requires Inv(s, verify) && Enabled(s, step) && LeavesCache(step)
    ensures Inv(Apply(s, step, verify), verify)
  {
    LeftAlone(s, step, verify);
    SameCache(s, Apply(s, step, verify));
    LoginKeeps(s, Apply(s, step, verify), step.l, verify);
  }

  lemma StepKeepsInv(s: State, step: Step, verify: Verifier)
    requires Inv(s, verify) && Enabled(s, step)
    ensures Inv(Apply(s, step, verify), verify)
  {
    var after := Apply(s, step, verify);
    match step
    case Tick => TableStepKeeps(s, after, verify);
    case Register(id, row) => TableStepKeeps(s, after, verify);
    case Move(balances) => TableStepKeeps(s, after, verify);
    case Forget(phone, name) => ForgetKeeps(s, phone, name, verify);
    case CachePhone(l, f) => CachePhoneKeeps(s, l, f, verify);
    case CacheName(l, f) => CacheNameKeeps(s, l, f, verify);
    case _ => OtherLoginStepKeeps(s, step, verify);
  }

  lemma ForgetKeeps(s: State, phone: string, name: string, verify: Verifier)
    requires Inv(s, verify)
    ensures Inv(Apply(s, Forget(phone, name), verify), verify)
  {
    var after := Apply(s, Forget(phone, name), verify);
    forall l | l in after.attempts ensures AttemptFits(after, after.attempts[l], verify) {
      AttemptStillFits(s, after, s.attempts[l], verify);
    }
  }

  lemma ReachableInv(s: State, verify: Verifier)
    requires Reachable(s, verify)
    ensures Inv(s, verify)
  {
    var inv := (x: State) => Inv(x, verify);
    forall x, step | inv(x) && Next(verify)(x, step).Some? ensures inv(Next(verify)(x, step).value) {
      StepKeepsInv(x, step, verify);
    }
    LeadsToKept(Next(verify), inv, INITIAL, s);
  }

  // ----- the cache and the table agree

  /** The same decision, for the same user; only the balance shown may differ. */
  predicate SameDecision(a: Result, b: Result) {
    if a.Opened? && b.Opened? then a.id == b.id && a.row == b.row.(balance := a.row.balance) else a == b
  }

  lemma OneBearer(users: map<UserId, User>, phone: string, name: string, id: UserId)
    requires id in Bearers(users, phone, name)
    ensures InTable(users, phone, name) ==
            if |Bearers(users, phone, name)| == 1 then OneRow(id, users[id]) else ManyRows
  {
    OnlyElement(Bearers(users, phone, name), id);
    OnlyElement(Bearers(users, phone, name), PickOne(Bearers(users, phone, name)));
  }

  lemma HitFits(s: State, phone: string, name: string, verify: Verifier)
    requires Reachable(s, verify) && InCache(s, phone, name).Some?
    ensures var c := InCache(s, phone, name).value;
            EntryFits(s, c) && Bears(phone, name, c.row) && UniqueColumns(s.users)
  {
    ReachableInv(s, verify);
  }

  /** A login by phone decides as the table would, in every run. */
  lemma PhoneLoginAgrees(s: State, phone: string, name: string, password: string, verify: Verifier)
    requires Reachable(s, verify) && phone != ""
    ensures SameDecision(Decide(s, phone, name, password, verify), DecideOnTable(s, phone, name, password, verify))
  {
    var entry := InCache(s, phone, name);
    if entry.Some? {
      HitFits(s, phone, name, verify);
      var id := entry.value.id;
      assert Bearers(s.users, phone, name) == {id};
      OneBearer(s.users, phone, name, id);
    }
  }

  /** A login by name does so exactly when the name has no live entry or a single bearer: with two
      bearers the table raises, while a cached entry lets one of them in. */
  lemma NameLoginAgreesIff(s: State, name: string, password: string, verify: Verifier)
    requires Reachable(s, verify) && name != ""
    ensures SameDecision(Decide(s, "", name, password, verify), DecideOnTable(s, "", name, password, verify))
            <==> (InCache(s, "", name).None? || |Bearers(s.users, "", name)| == 1)
  {
    var entry := InCache(s, "", name);
    if entry.Some? {
      HitFits(s, "", name, verify);
      OneBearer(s.users, "", name, entry.value.id);
    }
  }

  /** However a login runs among others, whoever gets a session bears the phone or name given, and the password
      verifies against the hash in the table. */
  lemma OpenedIsVerified(s: State, l: LoginId, verify: Verifier)
    requires Reachable(s, verify) && l in s.attempts && s.attempts[l].phase.Ended? && s.attempts[l].phase.result.Opened?
    ensures var a, id := s.attempts[l], s.attempts[l].phase.result.id;
            && id in s.users && verify(a.password, s.users[id].passwordHash)
            && if a.phone != "" then s.users[id].phone == a.phone else s.users[id].username == a.name
  {
    ReachableInv(s, verify);
    assert AttemptFits(s, s.attempts[l], verify);
  }

  /** The balance shown with a hit was that user's committed balance at the instant its row was read, and the
      entry was written at most `USER_CACHE_TTL` ago. */
  lemma HitIsRecent(s: State, phone: string, name: string, verify: Verifier) returns (i: int)
    requires Reachable(s, verify) && InCache(s, phone, name).Some?
    ensures var c := InCache(s, phone, name).value;
            && c.readAt <= c.until - 300 <= s.now < c.until && CurrentAt(s.versions, i, c.readAt)
            && c.id in UsersOf(s, i) && UsersOf(s, i)[c.id].balance == c.row.balance
            && SameUser(s.users, c.id, c.row)
  {
    HitFits(s, phone, name, verify);
    var c := InCache(s, phone, name).value;
    assert WasCommitted(s.versions, c.id, c.row, c.readAt);
    i :| CurrentAt(s.versions, i, c.readAt) && c.id in s.versions[i].users && s.versions[i].users[c.id] == c.row;
  }

  function UsersOf(s: State, i: int): map<UserId, User>
    requires 0 <= i < |s.versions|
  {
    s.versions[i].users
  }

  lemma CachedIsBorne(s: State, phone: string, name: string)
    requires CacheFits(s) && if phone != "" then phone in s.byPhone else name in s.byName
    ensures Bearers(s.users, phone, name) != {}
  {
    var c := if phone != "" then s.byPhone[phone] else s.byName[name];
    assert c.id in Bearers(s.users, phone, name);
  }

  lemma CacheFact(s: State, verify: Verifier)
    requires Reachable(s, verify)
    ensures CacheFits(s)
  {
    ReachableInv(s, verify);
  }

  /** A miss in the table leaves no trace in the cache, and there is none from before. */
  lemma MissIsNotCached(s: State, l: LoginId, verify: Verifier)
    requires Reachable(s, verify) && Enabled(s, ReadTable(l))
    requires Bearers(s.users, s.attempts[l].phone, s.attempts[l].name) == {}
    ensures var a, after := s.attempts[l], Apply(s, ReadTable(l), verify);
            && after == With(s, l, a.(phase := Ended(Invalid), looked := Latest(s)))
            && (if a.phone != "" then a.phone !in s.byPhone else a.name !in s.byName)
  {
    CacheFact(s, verify);
    var a := s.attempts[l];
    var cached := if a.phone != "" then a.phone in s.byPhone else a.name in s.byName;
    if cached {
      CachedIsBorne(s, a.phone, a.name);
    }
  }

  // ----- the login as written is a run of these steps

  lemma ThenLeadsTo(s: State, step: Step, after: State, verify: Verifier)
    requires Enabled(s, step) && LeadsTo(Next(verify), Apply(s, step, verify), after)
    ensures LeadsTo(Next(verify), s, after)
  {
    StepLeadsTo(Next(verify), s, step);
    LeadsFurther(Next(verify), s, Apply(s, step, verify), after);
  }

  lemma CheckMoves(s: State, l: LoginId, a: Attempt, sid: string, f: Fault, verify: Verifier)
    requires a.phase.Found?
    ensures Apply(With(s, l, a), Check(l, sid, f), verify) ==
            With(Conclude(s, a.phase.id, a.phase.row, a.password, sid, f, verify).0, l, AfterCheck(a, f, verify))
  {
    assert With(s, l, a).attempts[l := AfterCheck(a, f, verify)] == s.attempts[l := AfterCheck(a, f, verify)];
  }

  lemma CheckRuns(s: State, l: LoginId, a: Attempt, sid: string, f: Fault, verify: Verifier)
    requires a.phase.Found?
    ensures LeadsTo(Next(verify), With(s, l, a),
                    With(Conclude(s, a.phase.id, a.phase.row, a.password, sid, f, verify).0,
                         l, AfterCheck(a, f, verify)))
  {
    CheckMoves(s, l, a, sid, f, verify);
    var end := Apply(With(s, l, a), Check(l, sid, f), verify);
    IsThere(Next(verify), end);
    ThenLeadsTo(With(s, l, a), Check(l, sid, f), end, verify);
  }

  lemma CacheNameMoves(s: State, l: LoginId, a: Attempt, f: Fault, verify: Verifier)
    requires a.phase.HalfCached?
    ensures Apply(With(s, l, a), CacheName(l, f), verify) ==
            With(PutName(s, a.phase.id, a.phase.row, a.phase.at, f), l, AfterName(a, f))
  {
    assert With(s, l, a).attempts[l := AfterName(a, f)] == s.attempts[l := AfterName(a, f)];
  }

  lemma CachePhoneMoves(s: State, l: LoginId, a: Attempt, f: Fault, verify: Verifier)
    requires a.phase.Read?
    ensures Apply(With(s, l, a), CachePhone(l, f), verify) ==
            With(PutPhone(s, a.phase.id, a.phase.row, a.phase.at, f), l, AfterPhone(a, f))
  {
    assert With(s, l, a).attempts[l := AfterPhone(a, f)] == s.attempts[l := AfterPhone(a, f)];
  }

  lemma CacheNameRuns(s: State, l: LoginId, a: Attempt, end: State, f: Fault, verify: Verifier)
    requires a.phase.HalfCached?
    requires LeadsTo(Next(verify), With(PutName(s, a.phase.id, a.phase.row, a.phase.at, f), l, AfterName(a, f)), end)
    ensures LeadsTo(Next(verify), With(s, l, a), end)
  {
    CacheNameMoves(s, l, a, f, verify);
    ThenLeadsTo(With(s, l, a), CacheName(l, f), end, verify);
  }

  lemma CachePhoneRuns(s: State, l: LoginId, a: Attempt, end: State, f: Fault, verify: Verifier)
    requires a.phase.Read?
    requires LeadsTo(Next(verify), With(PutPhone(s, a.phase.id, a.phase.row, a.phase.at, f), l, AfterPhone(a, f)), end)
    ensures LeadsTo(Next(verify), With(s, l, a), end)
  {
    CachePhoneMoves(s, l, a, f, verify);
    ThenLeadsTo(With(s, l, a), CachePhone(l, f), end, verify);
  }

  lemma ReadTableRuns(s: State, l: LoginId, a: Attempt, end: State, verify: Verifier)
    requires a.phase.Missed? && s.versions != [] && LeadsTo(Next(verify), With(s, l, AfterTable(s, a)), end)
    ensures LeadsTo(Next(verify), With(s, l, a), end)
  {
    var start := With(s, l, a);
    assert start.attempts[l := AfterTable(s, a)] == s.attempts[l := AfterTable(s, a)];
    assert Apply(start, ReadTable(l), verify) == With(s, l, AfterTable(s, a));
    ThenLeadsTo(start, ReadTable(l), end, verify);
  }

  /** How the attempt stands after both keys and the check. */
  function AfterFill(a: Attempt, faults: Faults, verify: Verifier): Attempt
    requires a.phase.Read?
  {
    var half := AfterPhone(a, faults.phone);
    if half.phase.Ended? then half
    else
      var full := AfterName(half, faults.name);
      if full.phase.Ended? then full else AfterCheck(full, faults.session, verify)
  }

  /** After a miss and one row: both keys, then the check. */
  lemma FillRuns(s: State, l: LoginId, a: Attempt, sid: string, faults: Faults, verify: Verifier)
    requires a.phase.Read? && a.phase.at == s.now
    ensures var p := a.phase;
            var half := PutPhone(s, p.id, p.row, p.at, faults.phone);
            var full := PutName(half, p.id, p.row, p.at, faults.name);
            var after :=
              if faults.phone.Fails? then half
              else if NameFails(p.row, faults.name) then full
              else Conclude(full, p.id, p.row, a.password, sid, faults.session, verify).0;
            LeadsTo(Next(verify), With(s, l, a), With(after, l, AfterFill(a, faults, verify)))
  {
    var p := a.phase;
    var half := PutPhone(s, p.id, p.row, p.at, faults.phone);
    var full := PutName(half, p.id, p.row, p.at, faults.name);
    var second := AfterPhone(a, faults.phone);
    var end;
    if faults.phone.Fails? {
      end := With(half, l, second);
      IsThere(Next(verify), end);
    } else {
      var third := AfterName(second, faults.name);
      if NameFails(p.row, faults.name) {
        end := With(full, l, third);
        IsThere(Next(verify), end);
      } else {
        end := With(Conclude(full, p.id, p.row, a.password, sid, faults.session, verify).0, l,
                    AfterCheck(third, faults.session, verify));
        CheckRuns(full, l, third, sid, faults.session, verify);
      }
      CacheNameRuns(half, l, second, end, faults.name, verify);
    }
    CachePhoneRuns(s, l, a, end, faults.phone, verify);
  }

  /** A login as it is written, with any of its Redis calls failing, is one of the runs above. */
  lemma ServeIsARun(s: State, l: LoginId, phone: string, name: string, password: string, sid: string,
                    faults: Faults, verify: Verifier)
    returns (a: Attempt)
    requires l !in s.attempts && s.versions != []
    ensures var (after, result) := Serve(s, phone, name, password, sid, faults, verify);
            && (a.phone, a.name, a.password, a.phase) == (phone, name, password, Ended(result))
            && a.looked == a.began == Latest(s)
            && a.hit == (Precheck(phone, name).None? && InCache(s, phone, name).Some?)
            && LeadsTo(Next(verify), s, With(after, l, a))
  {
    var after := Serve(s, phone, name, password, sid, faults, verify).0;
    var looked := Begun(s, phone, name, password, faults.get);
    a := looked;
    if looked.phase.Ended? {
      IsThere(Next(verify), With(after, l, a));
    } else if looked.phase.Found? {
      a := AfterCheck(looked, faults.session, verify);
      CheckRuns(s, l, looked, sid, faults.session, verify);
    } else {
      a := AfterTable(s, looked);
      if a.phase.Read? {
        a := AfterFill(a, faults, verify);
        FillRuns(s, l, AfterTable(s, looked), sid, faults, verify);
      } else {
        IsThere(Next(verify), With(after, l, a));
      }
      ReadTableRuns(s, l, looked, With(after, l, a), verify);
    }
    ThenLeadsTo(s, Look(l, phone, name, password, faults.get), With(after, l, a), verify);
  }

  // ----- a name can have two bearers and a live entry

  const AN := User("1", "1", "an", "", INITIAL_BALANCE)
  const OTHER_AN := User("2", "2", "an", "", INITIAL_BALANCE)

  lemma StepReaches(s: State, step: Step, verify: Verifier) returns (after: State)
    requires Reachable(s, verify) && Enabled(s, step)
    ensures after == Apply(s, step, verify) && Reachable(after, verify)
  {
    after := Apply(s, step, verify);
    OneMoreStep(Next(verify), INITIAL, s, step);
  }

  lemma OneNamed(users: map<UserId, User>)
    requires users == map[1 := AN]
    ensures InTable(users, "", "an") == OneRow(1, AN)
  {
    assert 1 in Bearers(users, "", "an");
    OneBearer(users, "", "an", 1);
    assert Bearers(users, "", "an") == {1};
  }

  /** Somebody logs in by name, and then a second user registers with that name: until the entry expires the cache
      lets the first one in, while the table would answer 500. */
  lemma CachedNameShared(verify: Verifier) returns (s: State)
    requires verify("", "")
    ensures Reachable(s, verify) && 1 !in s.attempts
    ensures InCache(s, "", "an").Some? && |Bearers(s.users, "", "an")| == 2
    ensures Decide(s, "", "an", "", verify).Opened? && DecideOnTable(s, "", "an", "", verify) == Raises
  {
    IsThere(Next(verify), INITIAL);
    s := StepReaches(INITIAL, Register(1, AN), verify);
    OneNamed(s.users);
    var a := ServeIsARun(s, 0, "", "an", "", "sid", NO_FAULTS, verify);
    var after := With(Serve(s, "", "an", "", "sid", NO_FAULTS, verify).0, 0, a);
    LeadsFurther(Next(verify), INITIAL, s, after);
    s := StepReaches(after, Register(2, OTHER_AN), verify);
    assert Bearers(s.users, "", "an") == {1, 2};
    OneBearer(s.users, "", "an", 1);
  }
}
