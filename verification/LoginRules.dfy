/** What a login answers, caches and opens, column by column, and whom the sessions belong to. */
module LoginRules {
  import opened Collections
  import opened Text
  import opened Bank
  import opened Runs
  import opened LoginCache
  import B = Backend

  /** The cache has an unexpired entry `c` under the phone, or if none is given the name. */
  predicate IsCachedAs(s: State, phone: string, name: string, c: Cached) {
    if phone != "" then phone in s.byPhone && s.byPhone[phone] == c && s.now < c.until
    else name in s.byName && s.byName[name] == c && s.now < c.until
  }

  /** User `id` has the phone, or if none is given the name. */
  predicate IsSought(users: map<UserId, User>, phone: string, name: string, id: UserId) {
    id in users && if phone != "" then users[id].phone == phone else users[id].username == name
  }

  ghost predicate IsOnlySought(users: map<UserId, User>, phone: string, name: string, id: UserId) {
    IsSought(users, phone, name, id) && forall other :: IsSought(users, phone, name, other) ==> other == id
  }

  lemma OneRowFound(users: map<UserId, User>, phone: string, name: string, id: UserId)
    requires IsOnlySought(users, phone, name, id)
    ensures InTable(users, phone, name) == OneRow(id, users[id])
  {
    forall other | other in Bearers(users, phone, name) ensures other == id {
      assert IsSought(users, phone, name, other);
    }
    assert id in Bearers(users, phone, name);
  }

  /** A hit answers from the entry, and leaves cache and table alone. */
  lemma ServesHit(s: State, phone: string, name: string, password: string, sid: string, verify: Verifier, c: Cached)
    requires (phone != "" && IsDigits(phone)) || (phone == "" && name != "")
    requires IsCachedAs(s, phone, name, c)
    ensures Serve(s, phone, name, password, sid, NO_FAULTS, verify) ==
            if verify(password, c.row.passwordHash)
            then (s.(sessions := s.sessions[sid := Session(c.id, s.now + 86400)]), Opened(c.id, c.row))
            else (s, Invalid)
  {
  }

  /** A miss answers from the one row sought, and writes it under its phone and, if it has one, its name, for 300 s. */
  lemma ServesMiss(s: State, phone: string, name: string, password: string, sid: string, verify: Verifier, id: UserId)
    requires (phone != "" && IsDigits(phone)) || (phone == "" && name != "")
    requires (forall c :: !IsCachedAs(s, phone, name, c)) && IsOnlySought(s.users, phone, name, id)
    ensures var (after, result) := Serve(s, phone, name, password, sid, NO_FAULTS, verify);
            var row := s.users[id];
            var entry := Cached(id, row, s.now + 300, s.now);
            && after.users == s.users && after.now == s.now
            && after.byPhone == s.byPhone[row.phone := entry]
            && after.byName == (if row.username != "" then s.byName[row.username := entry] else s.byName)
            && (verify(password, row.passwordHash) ==>
                 result == Opened(id, row) && after.sessions == s.sessions[sid := Session(id, s.now + 86400)])
            && (!verify(password, row.passwordHash) ==> result == Invalid && after.sessions == s.sessions)
  {
    OneRowFound(s.users, phone, name, id);
    assert forall c :: InCache(s, phone, name) == Some(c) ==> IsCachedAs(s, phone, name, c);
  }

  /** Without a hit, nobody sought is told 401, several raise, and neither leaves a trace. */
  lemma ServesNobody(s: State, phone: string, name: string, password: string, sid: string, verify: Verifier)
    requires (phone != "" && IsDigits(phone)) || (phone == "" && name != "")
    requires forall c :: !IsCachedAs(s, phone, name, c)
    ensures (forall id :: !IsSought(s.users, phone, name, id)) ==>
      Serve(s, phone, name, password, sid, NO_FAULTS, verify) == (s, Invalid)
    ensures (exists a, b :: a != b && IsSought(s.users, phone, name, a) && IsSought(s.users, phone, name, b)) ==>
      Serve(s, phone, name, password, sid, NO_FAULTS, verify) == (s, Raises)
  {
    var rows := Bearers(s.users, phone, name);
    assert forall c :: InCache(s, phone, name) == Some(c) ==> IsCachedAs(s, phone, name, c);
    assert forall id :: id in rows <==> IsSought(s.users, phone, name, id);
  }

  /** A Redis call that fails makes it a 500; what was written before stays, and so does what the failing call wrote. */
  lemma ServesFailure(s: State, phone: string, name: string, password: string, sid: string, faults: Faults,
                      verify: Verifier, id: UserId)
    requires (phone != "" && IsDigits(phone)) || (phone == "" && name != "")
    requires (forall c :: !IsCachedAs(s, phone, name, c)) && IsOnlySought(s.users, phone, name, id)
    ensures var (after, result) := Serve(s, phone, name, password, sid, faults, verify);
            var row := s.users[id];
            var entry := Cached(id, row, s.now + 300, s.now);
            if faults.get then result == Raises && after == s
            else if faults.phone.Fails? then
              && result == Raises && after.byName == s.byName && after.sessions == s.sessions
              && after.byPhone == if faults.phone.written then s.byPhone[row.phone := entry] else s.byPhone
            else if row.username != "" && faults.name.Fails? then
              && result == Raises && after.byPhone == s.byPhone[row.phone := entry] && after.sessions == s.sessions
              && after.byName == if faults.name.written then s.byName[row.username := entry] else s.byName
            else if verify(password, row.passwordHash) && faults.session.Fails? then
              && result == Raises && after.byPhone == s.byPhone[row.phone := entry]
              && after.sessions == if faults.session.written then s.sessions[sid := Session(id, s.now + 86400)]
                                   else s.sessions
            else result == if verify(password, row.passwordHash) then Opened(id, row) else Invalid
  {
    OneRowFound(s.users, phone, name, id);
    assert forall c :: InCache(s, phone, name) == Some(c) ==> IsCachedAs(s, phone, name, c);
  }

  /** What is wrong with the input is told first. */
  lemma ServesBadInput(s: State, phone: string, name: string, password: string, sid: string, faults: Faults,
                       verify: Verifier)
    ensures var (after, result) := Serve(s, phone, name, password, sid, faults, verify);
            && (result == MissingInput <==> phone == "" && name == "")
            && (result == BadPhone <==> phone != "" && !IsDigits(phone))
            && (result == MissingInput || result == BadPhone ==> after == s)
  {
  }

  // ----- sessions

  /** A login has ended for which the password verified against this user's hash: it was let in, or failed later. */
  ghost predicate HasVerified(s: State, l: LoginId, user: UserId, verify: Verifier) {
    && l in s.attempts && s.attempts[l].phase.Ended?
    && IsSought(s.users, s.attempts[l].phone, s.attempts[l].name, user)
    && verify(s.attempts[l].password, s.users[user].passwordHash)
    && (s.attempts[l].failed || (s.attempts[l].phase.result.Opened? && s.attempts[l].phase.result.id == user))
  }

  ghost predicate IsVerified(s: State, user: UserId, verify: Verifier) {
    exists l :: HasVerified(s, l, user, verify)
  }

  ghost predicate SessionsFit(s: State, verify: Verifier) {
    forall sid :: sid in s.sessions ==>
      s.sessions[sid].until <= s.now + 86400 && IsVerified(s, s.sessions[sid].user, verify)
  }

  lemma EndedStays(s: State, step: Step, l: LoginId, verify: Verifier)
    requires Enabled(s, step) && l in s.attempts && s.attempts[l].phase.Ended?
    ensures l in Apply(s, step, verify).attempts && Apply(s, step, verify).attempts[l] == s.attempts[l]
  {
  }

  lemma UsersStay(s: State, step: Step, verify: Verifier)
    requires Enabled(s, step)
    ensures s.now <= Apply(s, step, verify).now
    ensures forall id :: id in s.users ==> SameUser(Apply(s, step, verify).users, id, s.users[id])
  {
  }

  lemma VerifiedStays(s: State, step: Step, user: UserId, verify: Verifier)
    requires Enabled(s, step) && IsVerified(s, user, verify)
    ensures IsVerified(Apply(s, step, verify), user, verify)
  {
    var l :| HasVerified(s, l, user, verify);
    EndedStays(s, step, l, verify);
    UsersStay(s, step, verify);
    assert HasVerified(Apply(s, step, verify), l, user, verify);
  }

  /** Only the last step of a login touches the sessions: it opens one for the user whose row it checked. */
  lemma SessionsAfter(s: State, step: Step, verify: Verifier)
    requires Enabled(s, step)
    ensures var after := Apply(s, step, verify);
            after.sessions == s.sessions ||
            (&& step.Check? && Writes(step.fault) && step.l in after.attempts
             && verify(s.attempts[step.l].password, s.attempts[step.l].phase.row.passwordHash)
             && after.sessions == s.sessions[step.sid := Session(s.attempts[step.l].phase.id, s.now + 86400)])
  {
  }

  lemma OpenedIsVerifiedUser(s: State, l: LoginId, sid: string, f: Fault, verify: Verifier)
    requires Inv(s, verify) && Enabled(s, Check(l, sid, f))
    requires verify(s.attempts[l].password, s.attempts[l].phase.row.passwordHash)
    ensures IsVerified(Apply(s, Check(l, sid, f), verify), s.attempts[l].phase.id, verify)
  {
    assert AttemptFits(s, s.attempts[l], verify);
    assert HasVerified(Apply(s, Check(l, sid, f), verify), l, s.attempts[l].phase.id, verify);
  }

  lemma SessionStays(s: State, step: Step, sid: string, verify: Verifier)
    requires Inv(s, verify) && SessionsFit(s, verify) && Enabled(s, step) && sid in Apply(s, step, verify).sessions
    ensures var after := Apply(s, step, verify);
            after.sessions[sid].until <= s.now + 86400 && IsVerified(after, after.sessions[sid].user, verify)
  {
    SessionsAfter(s, step, verify);
    if sid in s.sessions && Apply(s, step, verify).sessions[sid] == s.sessions[sid] {
      VerifiedStays(s, step, s.sessions[sid].user, verify);
    } else {
      OpenedIsVerifiedUser(s, step.l, step.sid, step.fault, verify);
    }
  }

  lemma StepKeepsSessions(s: State, step: Step, verify: Verifier)
    requires Inv(s, verify) && SessionsFit(s, verify) && Enabled(s, step)
    ensures SessionsFit(Apply(s, step, verify), verify)
  {
    var after := Apply(s, step, verify);
    UsersStay(s, step, verify);
    forall sid | sid in after.sessions
      ensures after.sessions[sid].until <= after.now + 86400 && IsVerified(after, after.sessions[sid].user, verify)
    {
      SessionStays(s, step, sid, verify);
    }
  }

  /** Every session there ever was belongs to a user whose password verified in some login by that user's phone or
      name, and expires a day after it was opened at the latest. */
  lemma SessionsAreVerified(s: State, verify: Verifier, sid: string) returns (l: LoginId)
    requires Reachable(s, verify) && sid in s.sessions
    ensures s.sessions[sid].until <= s.now + 86400 && HasVerified(s, l, s.sessions[sid].user, verify)
  {
    var inv := (x: State) => Inv(x, verify) && SessionsFit(x, verify);
    forall x, step | inv(x) && Next(verify)(x, step).Some? ensures inv(Next(verify)(x, step).value) {
      StepKeepsInv(x, step, verify);
      StepKeepsSessions(x, step, verify);
    }
    LeadsToKept(Next(verify), inv, INITIAL, s);
    assert IsVerified(s, s.sessions[sid].user, verify);
    l :| HasVerified(s, l, s.sessions[sid].user, verify);
  }

  /** Whoever is let in has a session of their own for a day. */
  lemma LetInMeansSession(s: State, l: LoginId, sid: string, f: Fault, verify: Verifier)
    requires Enabled(s, Check(l, sid, f))
    ensures var after := Apply(s, Check(l, sid, f), verify);
            after.attempts[l].phase.Ended? && after.attempts[l].phase.result.Opened? ==>
              after.sessions == s.sessions[sid := Session(after.attempts[l].phase.result.id, s.now + 86400)]
  {
  }

  /** The session that the transfer back end goes by is the one that the login wrote: the same user, and alive just as
      long. */
  lemma SameSession(login: State, l: LoginId, sid: string, s: B.State, later: nat, verify: Verifier)
    requires Enabled(login, Check(l, sid, Works)) && login.now == s.now && sid != ""
    requires verify(login.attempts[l].password, login.attempts[l].phase.row.passwordHash)
    requires B.Enabled(s, B.OpenSession(sid, login.attempts[l].phase.id, login.attempts[l].password), verify)
    ensures var written := Apply(login, Check(l, sid, Works), verify).sessions;
            var back := B.Apply(s, B.OpenSession(sid, login.attempts[l].phase.id, login.attempts[l].password), verify);
            && sid in written && sid in back.sessions && written[sid].user == back.sessions[sid].user
            && (B.LiveSession(back.(now := later), sid) <==> later < written[sid].until)
  {
  }
}
