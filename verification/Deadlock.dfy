/** Waiting and progress among the handlers of `Transfers`. */
module Deadlock {
  import opened Collections
  import opened Bank
  import opened Runs
  import opened Transfers

  /** The row a handler has to lock next, if it is at a locking statement. */
  function Wants(s: State, tx: TxId): Option<UserId>
    requires tx in s.live
  {
    var t := s.live[tx];
    match t.phase
    case Fresh => if t.user in s.db.users then Some(t.user) else None
    case Scanning(todo, _) => if todo != [] then Some(todo[0]) else None
    case _ => None
  }

  /** `tx` has to wait for `other` to end. */
  ghost predicate WaitsFor(s: State, tx: TxId, other: TxId) {
    && tx in s.live && other in s.live && tx != other
    && Wants(s, tx).Some? && Wants(s, tx).value in s.live[other].held
  }

  ghost predicate Waits(s: State, tx: TxId) {
    exists other :: WaitsFor(s, tx, other)
  }

  predicate IsMoveOf(step: Step, tx: TxId) {
    !step.Register? && !step.Begin? && !step.Abort? && step.tx == tx
  }

  /** `tx` can take its next step of its own accord. */
  ghost predicate CanMove(s: State, tx: TxId) {
    exists step :: IsMoveOf(step, tx) && Enabled(s, step)
  }

  /** The next step of a live handler, with `order` for the rows its receiver statement will visit. */
  function NextMove(s: State, tx: TxId, order: seq<UserId>): Step
    requires tx in s.live
  {
    var t := s.live[tx];
    match t.phase
    case Fresh => if t.user in s.db.users then LockSender(tx) else MissSender(tx)
    case SenderHeld => StartScan(tx, order)
    case Scanning(todo, _) => if todo == [] then EndScan(tx) else LockNext(tx)
    case Chosen(_) => Decide(tx)
  }

  lemma {:induction false} SomeOrder(c: set<UserId>) returns (order: seq<UserId>)
    ensures Distinct(order) && Elements(order) == c
    decreases |c|
  {
    if c == {} {
      order := [];
    } else {
      var x := PickOne(c);
      var rest := SomeOrder(c - {x});
      order := [x] + rest;
      assert forall i :: 0 <= i < |rest| ==> rest[i] in Elements(rest);
      forall y ensures y in Elements(order) <==> y in c {
        assert y in Elements(order) <==> y == x || y in Elements(rest);
      }
    }
  }

  /** A live handler can move if and only if it waits for nobody. */
  lemma MovesUnlessWaiting(s: State, tx: TxId)
    requires LocksHold(s) && tx in s.live
    ensures CanMove(s, tx) <==> !Waits(s, tx)
  {
    var order := SomeOrder(Candidates(s.db.users, s.live[tx].req));
    var move := NextMove(s, tx, order);
    assert IsMoveOf(move, tx);
    assert PhaseFits(s.db.users, s.live[tx]);
    if s.live[tx].phase.Chosen? {
      BothHeld(s, tx);
    }
    if !Waits(s, tx) {
      if Wants(s, tx).Some? {
        WantedRowExists(s, tx);
        forall other | other in s.live && other != tx ensures Wants(s, tx).value !in s.live[other].held {
          assert !WaitsFor(s, tx, other);
        }
      }
      assert Enabled(s, move);
    } else {
      var other :| WaitsFor(s, tx, other);
      forall step | IsMoveOf(step, tx) ensures !Enabled(s, step) {
      }
    }
  }

  lemma WantedRowExists(s: State, tx: TxId)
    requires LocksHold(s) && tx in s.live && Wants(s, tx).Some?
    ensures Wants(s, tx).value in s.db.users
  {
    var t := s.live[tx];
    assert PhaseFits(s.db.users, t);
    if t.phase.Scanning? {
      assert (t.phase.found + t.phase.todo)[|t.phase.found|] == t.phase.todo[0];
    }
  }

  /** A handler that holds both rows never waits. */
  lemma HoldingBothNeverWaits(s: State, tx: TxId)
    requires Reachable(s) && tx in s.live && s.live[tx].phase.Chosen?
    ensures Enabled(s, Decide(tx))
  {
    ReachableInv(s);
    BothHeld(s, tx);
  }

  /** Handlers that wait for each other in a ring. */
  ghost predicate IsRing(s: State, ring: seq<TxId>) {
    && |ring| >= 2 && Distinct(ring)
    && forall i {:trigger NextIn(ring, i)} :: 0 <= i < |ring| ==> WaitsFor(s, ring[i], NextIn(ring, i))
  }

  ghost predicate Stuck(s: State) {
    s.live != map[] && forall tx :: tx in s.live ==> !CanMove(s, tx)
  }

  ghost function HolderFor(s: State, tx: TxId): (other: TxId)
    requires Waits(s, tx)
    ensures WaitsFor(s, tx, other)
  {
    var other :| WaitsFor(s, tx, other); other
  }

  lemma StuckMeansWaiting(s: State)
    requires LocksHold(s) && Stuck(s)
    ensures forall tx {:trigger Waits(s, tx)} :: tx in s.live ==> Waits(s, tx)
  {
    forall tx | tx in s.live ensures Waits(s, tx) {
      MovesUnlessWaiting(s, tx);
    }
  }

  ghost predicate Follows(s: State, next: map<TxId, TxId>) {
    forall tx {:trigger next[tx]} :: tx in next ==> WaitsFor(s, tx, next[tx])
  }

  lemma Holders(s: State) returns (next: map<TxId, TxId>)
    requires forall tx {:trigger Waits(s, tx)} :: tx in s.live ==> Waits(s, tx)
    ensures next.Keys == s.live.Keys && IsClosed(next) && Follows(s, next)
    ensures s.live != map[] ==> next != map[]
  {
    next := map tx | tx in s.live :: HolderFor(s, tx);
    if s.live != map[] {
      assert PickOne(s.live.Keys) in next;
    }
  }

  lemma CycleIsRing(s: State, next: map<TxId, TxId>, ring: seq<TxId>)
    requires Follows(s, next)
    requires IsCycle(next, ring)
    ensures IsRing(s, ring)
  {
    forall i {:trigger NextIn(ring, i)} | 0 <= i < |ring| ensures WaitsFor(s, ring[i], NextIn(ring, i)) {
      LinkOf(s, next, ring, i);
    }
    LinkOf(s, next, ring, 0);
  }

  lemma LinkOf(s: State, next: map<TxId, TxId>, ring: seq<TxId>, i: nat)
    requires Follows(s, next)
    requires IsCycle(next, ring) && i < |ring|
    ensures WaitsFor(s, ring[i], NextIn(ring, i))
  {
  }

  /** If handlers are live and none can move, some of them wait for each other in a ring. */
  lemma StuckHasRing(s: State) returns (ring: seq<TxId>)
    requires LocksHold(s) && Stuck(s)
    ensures IsRing(s, ring)
  {
    StuckMeansWaiting(s);
    var next := Holders(s);
    ring := HasCycle(next);
    CycleIsRing(s, next, ring);
  }

  /** And nobody in a ring can move. */
  lemma RingBlocks(s: State, ring: seq<TxId>, i: nat)
    requires LocksHold(s) && IsRing(s, ring) && i < |ring|
    ensures !CanMove(s, ring[i])
  {
    assert WaitsFor(s, ring[i], NextIn(ring, i));
    MovesUnlessWaiting(s, ring[i]);
  }

  /** Every receiver statement under way is about one row. */
  ghost predicate SingleReceivers(s: State) {
    forall tx :: tx in s.live && s.live[tx].phase.Scanning? ==>
      |s.live[tx].phase.found + s.live[tx].phase.todo| == 1
  }

  /** Requests by account number are always so. */
  lemma AccountScansAreSingle(s: State)
    requires Reachable(s)
    requires forall tx :: tx in s.live ==> ToAccount(s.live[tx].req) != ""
    ensures SingleReceivers(s)
  {
    ReachableInv(s);
    forall tx | tx in s.live && s.live[tx].phase.Scanning?
      ensures |s.live[tx].phase.found + s.live[tx].phase.todo| == 1
    {
      OneRowPerAccount(s.db.users, s.live[tx]);
    }
  }

  lemma OneRowPerAccount(users: map<UserId, User>, t: Txn)
    requires UniqueColumns(users) && PhaseFits(users, t) && t.phase.Scanning? && ToAccount(t.req) != ""
    ensures |t.phase.found + t.phase.todo| == 1
  {
    var all := t.phase.found + t.phase.todo;
    assert |all| > 1 ==> users[all[0]].accountNumber == users[all[1]].accountNumber;
  }

  /** The i-th handler has its sender row and waits for its one receiver row, the next one's sender. */
  ghost predicate WantsNextSender(s: State, ring: seq<TxId>, i: nat)
    requires i < |ring|
  {
    && ring[i] in s.live && NextIn(ring, i) in s.live
    && s.live[ring[i]].phase == Scanning([s.live[NextIn(ring, i)].user], [])
  }

  /** The shape of a transfer deadlock: a ring in which each one's receiver is the next one's sender. */
  ghost predicate IsTransferRing(s: State, ring: seq<TxId>) {
    IsRing(s, ring) && forall i :: 0 <= i < |ring| ==> WantsNextSender(s, ring, i)
  }

  lemma DeadlockShape(s: State) returns (ring: seq<TxId>)
    requires Reachable(s) && Stuck(s) && SingleReceivers(s)
    ensures IsTransferRing(s, ring)
  {
    ReachableInv(s);
    ring := StuckHasRing(s);
    RingShape(s, ring);
  }

  lemma RingShape(s: State, ring: seq<TxId>)
    requires LocksHold(s) && SingleReceivers(s) && IsRing(s, ring)
    ensures IsTransferRing(s, ring)
  {
    forall i | 0 <= i < |ring| ensures WantsNextSender(s, ring, i) {
      RingLink(s, ring, i);
    }
  }

  lemma RingLink(s: State, ring: seq<TxId>, i: nat)
    requires LocksHold(s) && SingleReceivers(s) && IsRing(s, ring) && i < |ring|
    ensures WantsNextSender(s, ring, i)
  {
    var before := if i == 0 then |ring| - 1 else i - 1;
    var after := if i + 1 < |ring| then i + 1 else 0;
    assert NextIn(ring, before) == ring[i] && NextIn(ring, i) == ring[after];
    var following := NextIn(ring, after);
    WaiterHolds(s, ring[before], ring[i]);
    WaiterHolds(s, ring[i], ring[after]);
  }

  /** One that waits and is waited for holds its sender row only, and is at its one receiver row. */
  lemma WaiterHolds(s: State, tx: TxId, other: TxId)
    requires LocksHold(s) && SingleReceivers(s) && WaitsFor(s, tx, other) && Wants(s, other).Some?
    ensures s.live[other].phase == Scanning([Wants(s, other).value], [])
    ensures Wants(s, tx).value == s.live[other].user
  {
  }

  // ----- every finite set of handlers ends

  /** An upper bound on the steps a handler has left while there are at most `users` users. */
  function StepsLeft(users: nat, t: Txn): nat {
    match t.phase
    case Fresh => users + 4
    case SenderHeld => users + 3
    case Scanning(todo, _) => |todo| + 2
    case Chosen(_) => 1
  }

  ghost function Remaining(live: map<TxId, Txn>, users: nat): map<TxId, int> {
    map tx | tx in live :: StepsLeft(users, live[tx])
  }

  ghost function Work(s: State, users: nat): int { Sum(Remaining(s.live, users)) }

  predicate IsOwnStep(step: Step) { !step.Register? && !step.Begin? }

  /** Each step of a handler either ends it or brings it nearer its end. */
  lemma OwnStepAdvances(s: State, step: Step, users: nat)
    requires Enabled(s, step) && IsOwnStep(step) && |s.db.users| <= users
    ensures step.tx in s.live
    ensures var after := Apply(s, step).live;
            || after == s.live - {step.tx}
            || (step.tx in after && after == s.live[step.tx := after[step.tx]]
                && StepsLeft(users, after[step.tx]) < StepsLeft(users, s.live[step.tx]))
  {
    if step.StartScan? {
      DistinctFits(step.order, s.db.users.Keys);
      assert |s.db.users.Keys| == |s.db.users|;
    }
  }

  lemma OneLeft(live: map<TxId, Txn>, tx: TxId, users: nat)
    requires tx in live
    ensures Sum(Remaining(live - {tx}, users)) == Sum(Remaining(live, users)) - StepsLeft(users, live[tx])
  {
    SumWithout(Remaining(live, users), tx);
    assert Remaining(live - {tx}, users) == Remaining(live, users) - {tx};
  }

  lemma OneMoved(live: map<TxId, Txn>, tx: TxId, t: Txn, users: nat)
    ensures Sum(Remaining(live[tx := t], users)) ==
            Sum(Remaining(live, users)) + StepsLeft(users, t) - if tx in live then StepsLeft(users, live[tx]) else 0
  {
    SumAfterUpdate(Remaining(live, users), tx, StepsLeft(users, t));
    assert Remaining(live[tx := t], users) == Remaining(live, users)[tx := StepsLeft(users, t)];
  }

  lemma OwnStepDoesWork(s: State, step: Step, users: nat)
    requires Enabled(s, step) && IsOwnStep(step) && |s.db.users| <= users
    ensures Work(Apply(s, step), users) < Work(s, users)
  {
    OwnStepAdvances(s, step, users);
    LessWork(s.live, Apply(s, step).live, step.tx, users);
  }

  lemma LessWork(live: map<TxId, Txn>, after: map<TxId, Txn>, tx: TxId, users: nat)
    requires tx in live
    requires || after == live - {tx}
             || (&& tx in after && after == live[tx := after[tx]]
                 && StepsLeft(users, after[tx]) < StepsLeft(users, live[tx]))
    ensures Sum(Remaining(after, users)) < Sum(Remaining(live, users))
  {
    if after == live - {tx} {
      OneLeft(live, tx, users);
    } else {
      OneMoved(live, tx, after[tx], users);
    }
  }

  /** A handler that begins brings at most `users` + 4 steps. */
  lemma BeginBringsWork(s: State, step: Step, users: nat)
    requires Enabled(s, step) && step.Begin?
    ensures Work(Apply(s, step), users) <= Work(s, users) + users + 4
  {
    OneMoved(s.live, step.tx, Txn(step.user, step.req, map[], Fresh), users);
  }

  lemma WorkNotNegative(s: State, users: nat)
    ensures Work(s, users) >= 0
  {
    SumNotNegative(Remaining(s.live, users));
  }

  /** How many steps of a schedule are handlers' own, and how many begin a handler. */
  function OwnSteps(steps: seq<Step>): nat {
    if steps == [] then 0 else (if IsOwnStep(steps[0]) then 1 else 0) + OwnSteps(steps[1..])
  }

  function Begins(steps: seq<Step>): nat {
    if steps == [] then 0 else (if steps[0].Begin? then 1 else 0) + Begins(steps[1..])
  }

  lemma UsersOnlyGrow(s: State, steps: seq<Step>)
    requires Run(Next, s, steps).Some?
    ensures |s.db.users| <= |Run(Next, s, steps).value.db.users|
  {
    var after, inv := Run(Next, s, steps).value, (x: State) => s.db.users.Keys <= x.db.users.Keys;
    forall x, step | inv(x) && Next(x, step).Some? ensures inv(Next(x, step).value) {
      KeysStay(x, step);
    }
    RunKeeps(Next, inv, s, steps);
    SubsetIsSmaller(s.db.users.Keys, after.db.users.Keys);
    assert |s.db.users.Keys| == |s.db.users| && |after.db.users.Keys| == |after.db.users|;
  }

  lemma KeysStay(s: State, step: Step)
    requires Enabled(s, step)
    ensures s.db.users.Keys <= Apply(s, step).db.users.Keys
  {
  }

  /** Whatever the schedule, registrations and new handlers included: the handlers take no more steps than those
      live had left and those begun bring, counted for the users there are in the end. */
  lemma {:induction false} HandlersEnd(s: State, steps: seq<Step>, users: nat)
    requires Run(Next, s, steps).Some? && users == |Run(Next, s, steps).value.db.users|
    ensures OwnSteps(steps) + Work(Run(Next, s, steps).value, users) <= Work(s, users) + (users + 4) * Begins(steps)
    ensures OwnSteps(steps) <= Work(s, users) + (users + 4) * Begins(steps)
    decreases |steps|
  {
    WorkNotNegative(Run(Next, s, steps).value, users);
    if steps != [] {
      HandlersEnd(Apply(s, steps[0]), steps[1..], users);
      UsersOnlyGrow(s, steps);
      StepDoesWork(s, steps[0], users);
      BeginsTimes(steps, users + 4);
    }
  }

  lemma BeginsTimes(steps: seq<Step>, k: nat)
    requires steps != []
    ensures k * Begins(steps) == k * Begins(steps[1..]) + if steps[0].Begin? then k else 0
  {
    var later := Begins(steps[1..]);
    if steps[0].Begin? {
      assert Begins(steps) == later + 1;
      Distributes(k, later);
    } else {
      assert Begins(steps) == later;
    }
  }

  lemma Distributes(k: nat, n: nat)
    ensures k * (n + 1) == k * n + k
  {
  }

  lemma StepDoesWork(s: State, step: Step, users: nat)
    requires Enabled(s, step) && |s.db.users| <= users
    ensures (if IsOwnStep(step) then 1 else 0) + Work(Apply(s, step), users)
            <= Work(s, users) + if step.Begin? then users + 4 else 0
  {
    if IsOwnStep(step) {
      OwnStepDoesWork(s, step, users);
    } else if step.Begin? {
      BeginBringsWork(s, step, users);
    } else {
      assert Apply(s, step).live == s.live;
    }
  }

  /** Handlers are given up only where none can move, and then only one that waits in a ring. */
  ghost predicate VictimsOnly(s: State, steps: seq<Step>)
    requires Run(Next, s, steps).Some?
    decreases |steps|
  {
    steps == [] ||
    (&& IsOwnStep(steps[0])
     && (steps[0].Abort? ==> Stuck(s) && exists ring :: IsRing(s, ring) && steps[0].tx in ring)
     && VictimsOnly(Apply(s, steps[0]), steps[1..]))
  }

  lemma OwnStepKeepsUserCount(s: State, step: Step)
    requires Enabled(s, step) && IsOwnStep(step)
    ensures |Apply(s, step).db.users| == |s.db.users|
  {
  }

  lemma NextOrVictim(s: State) returns (step: Step)
    requires LocksHold(s) && s.live != map[]
    ensures Enabled(s, step) && IsOwnStep(step)
    ensures step.Abort? ==> Stuck(s) && exists ring :: IsRing(s, ring) && step.tx in ring
  {
    if Stuck(s) {
      var ring := StuckHasRing(s);
      assert WaitsFor(s, ring[0], NextIn(ring, 0));
      step := Abort(ring[0]);
    } else {
      var tx :| tx in s.live && CanMove(s, tx);
      step :| IsMoveOf(step, tx) && Enabled(s, step);
    }
  }

  /** Aborting deadlock victims is enough for everybody to end, from any reachable state. */
  lemma {:induction false} AllCanEnd(s: State) returns (steps: seq<Step>)
    requires LocksHold(s)
    ensures Run(Next, s, steps).Some? && Run(Next, s, steps).value.live == map[]
    ensures VictimsOnly(s, steps)
    decreases Work(s, |s.db.users|)
  {
    WorkNotNegative(s, |s.db.users|);
    if s.live == map[] {
      steps := [];
    } else {
      var step := NextOrVictim(s);
      OwnStepDoesWork(s, step, |s.db.users|);
      OwnStepKeepsUserCount(s, step);
      StepKeepsLocks(s, step);
      WorkNotNegative(Apply(s, step), |s.db.users|);
      var rest := AllCanEnd(Apply(s, step));
      steps := [step] + rest;
      assert steps[1..] == rest;
    }
  }
}
