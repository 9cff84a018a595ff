/** Runs of `Transfers` in which each request has a window: from its receiver statement to its end.

    By its receiver statement a request has locked its sender's row, so within the window nothing else touches the
    sender, and the receiver is the one user that bore the number or name when the window began.  What follows
    from that for sequential orders is in `Orders` and `WindowOrder`. */
module Windows {
  import opened Collections
  import opened Bank
  import opened Runs
  import opened TransferRules
  import opened Transfers
  import opened Serialisability

  /** A run, with the length that the log had when the receiver statement of each log entry began; for an
      entry without such a statement, when it was logged.  `since` is the same for transfers under way. */
  datatype History = History(s: State, looked: seq<nat>, since: map<TxId, nat>)

  const BEGINNING: History := History(INITIAL, [], map[])

  ghost function Note(h: History, step: Step): History
    requires Enabled(h.s, step)
  {
    var after, n := Apply(h.s, step), |h.s.log|;
    if |after.log| > n then
      var closes := (step.EndScan? || step.Decide?) && step.tx in h.since;
      History(after, h.looked + [if closes then h.since[step.tx] else n], h.since)
    else if step.StartScan? then
      h.(s := after, since := h.since[step.tx := n])
    else
      h.(s := after)
  }

  ghost function NextNoted(h: History, step: Step): Option<History> {
    if Enabled(h.s, step) then Some(Note(h, step)) else None
  }

  ghost predicate Recorded(h: History) { LeadsTo(NextNoted, BEGINNING, h) }

  // ----- the invariant

  /** The users when the log had n entries. */
  function UsersAt(log: seq<Entry>, n: nat): map<UserId, User>
    requires n <= |log|
  {
    Replay(log[..n]).users
  }

  /** The entry is a request of `id`, or moves its balance. */
  predicate Involves(e: Entry, id: UserId) {
    !e.Registered? && (e.user == id || (e.Committed? && (e.row.toUser == id || e.row.fromUser == id)))
  }

  ghost predicate Untouched(log: seq<Entry>, l: nat, n: nat, id: UserId)
    requires n <= |log|
  {
    forall k :: l <= k < n ==> !Involves(log[k], id)
  }

  predicate HasLooked(t: Txn) { t.phase.Scanning? || t.phase.Chosen? }

  /** The rows that the receiver statement is about. */
  ghost function Picked(t: Txn): set<UserId>
    requires HasLooked(t)
  {
    if t.phase.Chosen? then {t.phase.receiver} else Elements(t.phase.found + t.phase.todo)
  }

  /** What a transfer with an open window, which began at `l`, relies on. */
  ghost predicate IsOpen(log: seq<Entry>, l: nat, t: Txn)
    requires HasLooked(t)
  {
    && l <= |log|
    && t.user in UsersAt(log, l) && Candidates(UsersAt(log, l), t.req) == Picked(t)
    && Untouched(log, l, |log|, t.user)
  }

  /** The entry is what a request decides that found user `to` at `l` and ends at `n`. */
  ghost predicate Found(log: seq<Entry>, l: nat, n: nat, to: UserId)
    requires l <= n < |log| && !log[n].Registered?
  {
    var e, db := log[n], Replay(log[..n]);
    && Candidates(UsersAt(log, l), e.req) == {to} && e.user in db.users && to in db.users
    && e == DecisionEntry(db, e.tx, e.user, e.req, to)
  }

  /** A decided request found one receiver when its window began, and decided on the balances of when it ended. */
  ghost predicate DecisionFits(log: seq<Entry>, l: nat, n: nat)
    requires l <= n < |log| && !log[n].Registered?
  {
    && log[n].user in UsersAt(log, l) && Untouched(log, l, n, log[n].user)
    && exists to :: Found(log, l, n, to)
  }

  ghost predicate RequestFits(log: seq<Entry>, l: nat, n: nat)
    requires l <= n < |log| && !log[n].Registered?
  {
    var e, users := log[n], UsersAt(log, l);
    && Refusal(e.req).None?
    && if Decided(e) then DecisionFits(log, l, n)
       else if e.outcome == Raised(MultipleRows) then e.user in users && |Candidates(users, e.req)| > 1
       else if e.outcome == Replied(RECEIVER_NOT_FOUND) then l == n && e.user in users && Candidates(users, e.req) == {}
       else e.outcome == Replied(SENDER_NOT_FOUND) && l == n && e.user !in users
  }

  ghost predicate WindowFits(log: seq<Entry>, l: nat, n: nat)
    requires n < |log|
  {
    l <= n && if log[n].Registered? then l == n else RequestFits(log, l, n)
  }

  ghost predicate WindowsFit(log: seq<Entry>, looked: seq<nat>) {
    |looked| == |log| && forall n :: 0 <= n < |log| ==> WindowFits(log, looked[n], n)
  }

  ghost predicate OpenOnesFit(h: History) {
    forall tx :: tx in h.s.live && HasLooked(h.s.live[tx]) ==>
      tx in h.since && IsOpen(h.s.log, h.since[tx], h.s.live[tx])
  }

  ghost predicate HistoryFits(h: History) {
    WindowsFit(h.s.log, h.looked) && OpenOnesFit(h)
  }

  // ----- windows stay

  lemma PrefixStays(log: seq<Entry>, e: Entry, n: nat)
    requires n <= |log|
    ensures (log + [e])[..n] == log[..n]
  {
  }

  lemma UntouchedStays(log: seq<Entry>, e: Entry, l: nat, n: nat, id: UserId)
    requires n <= |log| && Untouched(log, l, n, id)
    ensures Untouched(log + [e], l, n, id)
  {
  }

  lemma WindowStays(log: seq<Entry>, e: Entry, l: nat, n: nat)
    requires n < |log| && WindowFits(log, l, n)
    ensures WindowFits(log + [e], l, n)
  {
    PrefixStays(log, e, l);
    PrefixStays(log, e, n);
    if !log[n].Registered? && Decided(log[n]) {
      UntouchedStays(log, e, l, n, log[n].user);
      var to :| Found(log, l, n, to);
      assert Found(log + [e], l, n, to);
    }
  }

  lemma OpenStays(log: seq<Entry>, e: Entry, l: nat, t: Txn)
    requires HasLooked(t) && IsOpen(log, l, t) && !Involves(e, t.user)
    ensures IsOpen(log + [e], l, t)
  {
    PrefixStays(log, e, l);
  }

  /** Everybody else with an open window goes on as before, and the entry does not involve them. */
  ghost predicate OthersGoOn(h: History, after: State, e: Entry) {
    forall tx :: tx in after.live && HasLooked(after.live[tx]) ==>
      tx in h.s.live && after.live[tx] == h.s.live[tx] && !Involves(e, after.live[tx].user)
  }

  /** A step logs an entry, which fits its window. */
  lemma LoggingKeeps(h: History, after: History, e: Entry, l: nat)
    requires HistoryFits(h) && after.s.log == h.s.log + [e] && after.looked == h.looked + [l] && after.since == h.since
    requires WindowFits(after.s.log, l, |h.s.log|) && OthersGoOn(h, after.s, e)
    ensures HistoryFits(after)
  {
    forall n | 0 <= n < |after.s.log| ensures WindowFits(after.s.log, after.looked[n], n) {
      if n < |h.s.log| {
        WindowStays(h.s.log, e, h.looked[n], n);
      }
    }
    forall tx | tx in after.s.live && HasLooked(after.s.live[tx])
      ensures tx in after.since && IsOpen(after.s.log, after.since[tx], after.s.live[tx])
    {
      OpenStays(h.s.log, e, h.since[tx], h.s.live[tx]);
    }
  }

  /** The transfer had looked up its receiver before, with the same result. */
  ghost predicate SamePick(s: State, after: State, tx: TxId)
    requires tx in after.live && HasLooked(after.live[tx])
  {
    && tx in s.live && HasLooked(s.live[tx])
    && after.live[tx].user == s.live[tx].user && after.live[tx].req == s.live[tx].req
    && Picked(after.live[tx]) == Picked(s.live[tx])
  }

  lemma QuietStepKeepsPicked(s: State, step: Step, tx: TxId)
    requires Enabled(s, step) && Apply(s, step).log == s.log && !step.StartScan?
    requires tx in Apply(s, step).live && HasLooked(Apply(s, step).live[tx])
    ensures SamePick(s, Apply(s, step), tx)
  {
  }

  /** A step that neither logs anything nor looks up a receiver. */
  lemma QuietStepKeeps(h: History, step: Step)
    requires HistoryFits(h) && Enabled(h.s, step) && Apply(h.s, step).log == h.s.log && !step.StartScan?
    ensures HistoryFits(Note(h, step))
  {
    var after := Note(h, step);
    forall tx | tx in after.s.live && HasLooked(after.s.live[tx])
      ensures tx in after.since && IsOpen(after.s.log, after.since[tx], after.s.live[tx])
    {
      QuietStepKeepsPicked(h.s, step, tx);
    }
  }

  // ----- each kind of step

  lemma WholeLog(log: seq<Entry>, e: Entry)
    ensures (log + [e])[..|log|] == log && log[..|log|] == log
  {
  }

  lemma LooksUp(h: History, tx: TxId, order: seq<UserId>)
    requires HistoryFits(h) && LocksHold(h.s) && Replay(h.s.log) == h.s.db
    requires Enabled(h.s, StartScan(tx, order)) && order != []
    ensures HistoryFits(Note(h, StartScan(tx, order)))
  {
    var after := Note(h, StartScan(tx, order));
    assert h.s.live[tx].user in h.s.live[tx].held;
    assert [] + order == order && h.s.log[..|h.s.log|] == h.s.log;
    assert IsOpen(h.s.log, |h.s.log|, after.s.live[tx]);
  }

  /** Nobody else has a window open for user `id`. */
  ghost predicate OnlyOneFor(s: State, tx: TxId, id: UserId) {
    forall other :: other in s.live && other != tx && HasLooked(s.live[other]) ==> s.live[other].user != id
  }

  lemma HolderIsOnlyOne(s: State, tx: TxId, id: UserId)
    requires LocksHold(s) && tx in s.live && id in s.live[tx].held
    ensures OnlyOneFor(s, tx, id)
  {
  }

  /** A request ends with entry `e`, which fits its window. */
  lemma EndKeeps(h: History, after: History, tx: TxId, db: Db, e: Entry, l: nat)
    requires HistoryFits(h) && tx in h.s.live && !e.Registered? && OnlyOneFor(h.s, tx, e.user)
    requires e.Committed? ==> e.row.fromUser == e.user && OnlyOneFor(h.s, tx, e.row.toUser)
    requires WindowFits(h.s.log + [e], l, |h.s.log|)
    requires after == History(Finish(h.s, tx, db, e), h.looked + [l], h.since)
    ensures HistoryFits(after)
  {
    LoggingKeeps(h, after, e, l);
  }

  lemma RegisterKeeps(h: History, id: UserId, row: User)
    requires HistoryFits(h) && Enabled(h.s, Register(id, row))
    ensures HistoryFits(Note(h, Register(id, row)))
  {
    LoggingKeeps(h, Note(h, Register(id, row)), Registered(id, row), |h.s.log|);
  }

  lemma MissSenderKeeps(h: History, tx: TxId)
    requires HistoryFits(h) && LocksHold(h.s) && Replay(h.s.log) == h.s.db && Enabled(h.s, MissSender(tx))
    ensures HistoryFits(Note(h, MissSender(tx)))
  {
    var t := h.s.live[tx];
    var e := Refused(tx, t.user, t.req, Replied(SENDER_NOT_FOUND));
    WholeLog(h.s.log, e);
    LookersAreUsers(h.s);
    EndKeeps(h, Note(h, MissSender(tx)), tx, h.s.db, e, |h.s.log|);
  }

  lemma LookersAreUsers(s: State)
    requires LocksHold(s)
    ensures forall tx :: tx in s.live && HasLooked(s.live[tx]) ==> s.live[tx].user in s.db.users
  {
    forall tx | tx in s.live && HasLooked(s.live[tx]) ensures s.live[tx].user in s.db.users {
      assert s.live[tx].user in s.live[tx].held;
    }
  }

  lemma NobodyClosesWindow(s: State, tx: TxId, e: Entry)
    requires LocksHold(s) && Replay(s.log) == s.db && Enabled(s, StartScan(tx, []))
    requires e == Refused(tx, s.live[tx].user, s.live[tx].req, Replied(RECEIVER_NOT_FOUND))
    ensures WindowFits(s.log + [e], |s.log|, |s.log|)
  {
    assert s.live[tx].user in s.live[tx].held && Elements([]) == {};
    WholeLog(s.log, e);
  }

  lemma NobodyFoundKeeps(h: History, tx: TxId)
    requires HistoryFits(h) && LocksHold(h.s) && Replay(h.s.log) == h.s.db && Enabled(h.s, StartScan(tx, []))
    ensures HistoryFits(Note(h, StartScan(tx, [])))
  {
    var t := h.s.live[tx];
    var e := Refused(tx, t.user, t.req, Replied(RECEIVER_NOT_FOUND));
    assert t.user in t.held;
    NobodyClosesWindow(h.s, tx, e);
    HolderIsOnlyOne(h.s, tx, t.user);
    EndKeeps(h, Note(h, StartScan(tx, [])), tx, h.s.db, e, |h.s.log|);
  }

  lemma SeveralClosesWindow(h: History, tx: TxId, e: Entry)
    requires HistoryFits(h) && LocksHold(h.s) && Enabled(h.s, EndScan(tx)) && |h.s.live[tx].phase.found| != 1
    requires e == Refused(tx, h.s.live[tx].user, h.s.live[tx].req, Raised(MultipleRows))
    ensures tx in h.since && WindowFits(h.s.log + [e], h.since[tx], |h.s.log|)
  {
    var t := h.s.live[tx];
    TwoFound(h.s, tx);
    assert t.phase.found + t.phase.todo == t.phase.found;
    assert IsOpen(h.s.log, h.since[tx], t);
    PrefixStays(h.s.log, e, h.since[tx]);
    SubsetIsSmaller({t.phase.found[0], t.phase.found[1]}, Elements(t.phase.found));
  }

  lemma SeveralFoundKeeps(h: History, tx: TxId)
    requires HistoryFits(h) && LocksHold(h.s) && Enabled(h.s, EndScan(tx)) && |h.s.live[tx].phase.found| != 1
    ensures HistoryFits(Note(h, EndScan(tx)))
  {
    var t := h.s.live[tx];
    var e := Refused(tx, t.user, t.req, Raised(MultipleRows));
    assert t.user in t.held;
    SeveralClosesWindow(h, tx, e);
    HolderIsOnlyOne(h.s, tx, t.user);
    EndKeeps(h, Note(h, EndScan(tx)), tx, h.s.db, e, h.since[tx]);
  }

  ghost function EntryFor(s: State, tx: TxId): Entry
    requires tx in s.live && s.live[tx].phase.Chosen?
    requires s.live[tx].user in s.db.users && s.live[tx].phase.receiver in s.db.users
  {
    DecisionEntry(s.db, tx, s.live[tx].user, s.live[tx].req, s.live[tx].phase.receiver)
  }

  lemma DecisionClosesWindow(h: History, tx: TxId)
    requires HistoryFits(h) && Replay(h.s.log) == h.s.db && tx in h.s.live && h.s.live[tx].phase.Chosen?
    requires h.s.live[tx].user in h.s.db.users && h.s.live[tx].phase.receiver in h.s.db.users
    requires Refusal(h.s.live[tx].req).None?
    ensures tx in h.since && WindowFits(h.s.log + [EntryFor(h.s, tx)], h.since[tx], |h.s.log|)
  {
    var t, e := h.s.live[tx], EntryFor(h.s, tx);
    assert IsOpen(h.s.log, h.since[tx], t);
    PrefixStays(h.s.log, e, h.since[tx]);
    WholeLog(h.s.log, e);
    UntouchedStays(h.s.log, e, h.since[tx], |h.s.log|, t.user);
    assert Found(h.s.log + [e], h.since[tx], |h.s.log|, t.phase.receiver);
  }

  lemma DecideKeeps(h: History, tx: TxId)
    requires HistoryFits(h) && LocksHold(h.s) && Replay(h.s.log) == h.s.db && Enabled(h.s, Decide(tx))
    ensures HistoryFits(Note(h, Decide(tx)))
  {
    var t := h.s.live[tx];
    BothHeld(h.s, tx);
    DecideIsEntry(h.s, tx);
    DecisionClosesWindow(h, tx);
    HolderIsOnlyOne(h.s, tx, t.user);
    HolderIsOnlyOne(h.s, tx, t.phase.receiver);
    EndKeeps(h, Note(h, Decide(tx)), tx, Effect(h.s.db, EntryFor(h.s, tx)), EntryFor(h.s, tx), h.since[tx]);
  }

  lemma StepKeepsHistory(h: History, step: Step)
    requires LocksHold(h.s) && Replay(h.s.log) == h.s.db && HistoryFits(h) && Enabled(h.s, step)
    ensures HistoryFits(Note(h, step))
  {
    match step
    case Register(id, row) => RegisterKeeps(h, id, row);
    case MissSender(tx) => MissSenderKeeps(h, tx);
    case StartScan(tx, order) =>
      if order == [] {
        NobodyFoundKeeps(h, tx);
      } else {
        LooksUp(h, tx, order);
      }
    case EndScan(tx) =>
      if |h.s.live[tx].phase.found| == 1 {
        QuietStepKeeps(h, step);
      } else {
        SeveralFoundKeeps(h, tx);
      }
    case Decide(tx) => DecideKeeps(h, tx);
    case _ => QuietStepKeeps(h, step);
  }

  ghost predicate NotedInv(h: History) { Inv(h.s) && HistoryFits(h) }

  /** What every history satisfies. */
  lemma RecordedFits(h: History)
    requires Recorded(h)
    ensures HistoryFits(h)
  {
    forall x, step | NotedInv(x) && NextNoted(x, step).Some? ensures NotedInv(NextNoted(x, step).value) {
      StepKeepsInv(x.s, step);
      StepKeepsHistory(x, step);
    }
    InitialInv();
    LeadsToKept(NextNoted, NotedInv, BEGINNING, h);
  }

  ghost predicate IsRun(h: History) { Reachable(h.s) }

  /** Every history is that of a run. */
  lemma RecordedIsReachable(h: History)
    requires Recorded(h)
    ensures Reachable(h.s)
  {
    forall x, step | IsRun(x) && NextNoted(x, step).Some? ensures IsRun(NextNoted(x, step).value) {
      OneMoreStep(Next, INITIAL, x.s, step);
    }
    IsThere(Next, INITIAL);
    LeadsToKept(NextNoted, IsRun, BEGINNING, h);
  }

  /** And every run has its history. */
  lemma {:induction false} RunIsRecorded(h: History, steps: seq<Step>) returns (after: History)
    requires Run(Next, h.s, steps).Some?
    ensures Run(NextNoted, h, steps) == Some(after) && Run(Next, h.s, steps) == Some(after.s)
    decreases |steps|
  {
    after := if steps == [] then h else Note(h, steps[0]);
    if steps != [] {
      after := RunIsRecorded(after, steps[1..]);
    }
  }

  lemma ReachableIsRecorded(s: State) returns (h: History)
    requires Reachable(s)
    ensures Recorded(h) && h.s == s
  {
    var steps :| Run(Next, INITIAL, steps) == Some(s);
    h := RunIsRecorded(BEGINNING, steps);
  }

  // ----- what a refusal means

  /** The window of a request that ended, in any run. */
  lemma RequestWindow(s: State, i: nat) returns (l: nat)
    requires Reachable(s) && i < |s.log| && !s.log[i].Registered?
    ensures l <= i && RequestFits(s.log, l, i)
  {
    var h := ReachableIsRecorded(s);
    RecordedFits(h);
    l := h.looked[i];
    assert WindowFits(s.log, l, i);
  }

  /** Why a request was refused: what was the case at its receiver statement, when the log had `l` entries, and at its
      end, when it had `i`. */
  lemma RefusalMeans(s: State, i: nat) returns (l: nat)
    requires Reachable(s) && i < |s.log| && s.log[i].Refused?
    ensures l <= i && IsWellFormed(s.log[i].req)
    ensures var e, looked, ended := s.log[i], UsersAt(s.log, l), UsersAt(s.log, i);
            match e.outcome
            case Replied(r) =>
              if r == Response(404, Detail("Sender not found")) then l == i && e.user !in looked
              else if r == Response(404, Detail("Receiver not found")) then
                l == i && e.user in looked && !SomebodyIs(looked, e.req)
              else if r == Response(400, Detail("Cannot transfer to yourself")) then IsTheOne(looked, e.req, e.user)
              else
                && r == Response(400, Detail("Insufficient balance"))
                && !IsTheOne(looked, e.req, e.user) && (exists to :: IsTheOne(looked, e.req, to))
                && e.user in ended && ended[e.user].balance < e.req.amount
            case Raised(x) =>
              if x == MultipleRows then SeveralAre(looked, e.req)
              else
                && x == OutOfRange && e.user in ended && e.req.amount <= ended[e.user].balance
                && exists to :: IsTheOne(looked, e.req, to) && to in ended
                                && ended[to].balance + e.req.amount > 2147483647
  {
    l := RequestWindow(s, i);
    var e, looked := s.log[i], UsersAt(s.log, l);
    WellFormedIff(e.req);
    NobodyIff(looked, e.req);
    if Decided(e) {
      var to :| Found(s.log, l, i, to);
      OneCandidate(looked, e.req, to);
    } else if Candidates(looked, e.req) != {} {
      OnlyElement(Candidates(looked, e.req), PickOne(Candidates(looked, e.req)));
      SeveralIff(looked, e.req);
    }
  }
}
