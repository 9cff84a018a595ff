/** One user's presence key: each open socket sets it for 60 s and again every 20 s, and a closing
    socket deletes it, whoever else is connected.  Redis is up; a refresh is never early and at most
    `lag` late. */
module Presence {
  import opened Collections
  import opened Runs

  const LIFETIME: nat := 60
  const PERIOD: nat := 20

  type SocketId = nat

  /** `due`: the instant of the socket's next refresh; `greeted`: it has refreshed at least once. */
  datatype Socket = Socket(due: nat, greeted: bool)

  datatype Event = Event(socket: SocketId, at: nat)

  /** What happened to the key last. */
  datatype Change = Untouched | Set(at: nat) | Deleted

  /** `key`: the instant the key expires. The rest is history. */
  datatype State = State(
    now: nat,
    key: Option<nat>,
    sockets: map<SocketId, Socket>,
    everOpened: set<SocketId>,
    latest: Change,
    refreshes: set<Event>,
    closings: set<Event>)

  const INITIAL: State := State(0, None, map[], {}, Untouched, {}, {})

  datatype Step =
    | Tick
    | Open(id: SocketId)
    | Refresh(id: SocketId)
    | Close(id: SocketId)    // the socket ends and its handler deletes the key
    | Crash(id: SocketId)    // the process dies, the key is left behind

  /** Time does not pass a refresh that is due by more than `lag`. */
  ghost predicate Enabled(s: State, step: Step, lag: nat) {
    match step
    case Tick => forall id :: id in s.sockets ==> s.now < s.sockets[id].due + lag
    case Open(id) => id !in s.everOpened
    case Refresh(id) => id in s.sockets && s.sockets[id].due <= s.now
    case Close(id) => id in s.sockets
    case Crash(id) => id in s.sockets
  }

  ghost function Apply(s: State, step: Step, lag: nat): State
    requires Enabled(s, step, lag)
  {
    match step
    case Tick => s.(now := s.now + 1)
    case Open(id) => s.(sockets := s.sockets[id := Socket(s.now, false)], everOpened := s.everOpened + {id})
    case Refresh(id) =>
      s.(key := Some(s.now + LIFETIME), latest := Set(s.now), sockets := s.sockets[id := Socket(s.now + PERIOD, true)],
         refreshes := s.refreshes + {Event(id, s.now)})
    case Close(id) =>
      s.(key := None, latest := Deleted, sockets := s.sockets - {id}, closings := s.closings + {Event(id, s.now)})
    case Crash(id) => s.(sockets := s.sockets - {id})
  }

  ghost function Next(lag: nat): (State, Step) -> Option<State> {
    (s: State, step: Step) => if Enabled(s, step, lag) then Some(Apply(s, step, lag)) else None
  }

  ghost predicate Reachable(s: State, lag: nat) { LeadsTo(Next(lag), INITIAL, s) }

  predicate Online(s: State) { s.key.Some? && s.now < s.key.value }

  /** Another socket closed after this one's latest refresh. */
  ghost predicate ClosedSince(s: State, id: SocketId, due: nat) {
    exists c :: c in s.closings && c.socket != id && c.at <= s.now && due <= c.at + PERIOD
  }

  ghost predicate SocketFits(s: State, id: SocketId, lag: nat)
    requires id in s.sockets
  {
    var socket := s.sockets[id];
    && id in s.everOpened
    && s.now <= socket.due + lag && socket.due <= s.now + PERIOD
    && (if socket.greeted
        then
          || (s.latest.Set? && socket.due <= s.latest.at + PERIOD)
          || (s.latest.Deleted? && ClosedSince(s, id, socket.due))
        else socket.due <= s.now)
  }

  ghost predicate KeyFits(s: State) {
    match s.latest
    case Set(at) => s.key == Some(at + LIFETIME) && at <= s.now && exists r :: r in s.refreshes && r.at == at
    case _ => s.key == None
  }

  ghost predicate Inv(s: State, lag: nat) {
    && KeyFits(s)
    && (forall r :: r in s.refreshes ==> r.socket in s.everOpened)
    && (forall c :: c in s.closings ==> c.socket in s.everOpened && c.socket !in s.sockets)
    && forall id :: id in s.sockets ==> SocketFits(s, id, lag)
  }

  lemma StepKeepsInv(s: State, step: Step, lag: nat)
    requires Inv(s, lag) && Enabled(s, step, lag)
    ensures Inv(Apply(s, step, lag), lag)
  {
    if step.Refresh? {
      assert Event(step.id, s.now) in Apply(s, step, lag).refreshes;
    }
    if step.Close? {
      assert Event(step.id, s.now) in Apply(s, step, lag).closings;
    }
  }

  lemma ReachableInv(s: State, lag: nat)
    requires Reachable(s, lag)
    ensures Inv(s, lag)
  {
    var inv := (x: State) => Inv(x, lag);
    forall x, step | inv(x) && Next(lag)(x, step).Some? ensures inv(Next(lag)(x, step).value) {
      StepKeepsInv(x, step, lag);
    }
    LeadsToKept(Next(lag), inv, INITIAL, s);
  }

  /** Shown online: a socket of the user was open, and refreshed the key, less than 60 s ago. */
  lemma OnlineMeansRecentSocket(s: State, lag: nat) returns (r: Event)
    requires Reachable(s, lag) && Online(s)
    ensures r in s.refreshes && r.socket in s.everOpened && r.at <= s.now < r.at + 60
  {
    ReachableInv(s, lag);
    r :| r in s.refreshes && r.at == s.latest.at;
  }

  ghost predicate AreApart(a: Event, b: Event) {
    a.socket == b.socket && a.at < b.at ==> a.at + 20 <= b.at
  }

  ghost predicate AllApart(s: State) {
    forall a, b :: a in s.refreshes && b in s.refreshes ==> AreApart(a, b)
  }

  ghost predicate RefreshKnown(s: State, r: Event) {
    && r.socket in s.everOpened && r.at <= s.now
    && (r.socket in s.sockets ==> r.at + 20 <= s.sockets[r.socket].due)
  }

  ghost predicate RefreshesKnown(s: State) {
    forall r :: r in s.refreshes ==> RefreshKnown(s, r)
  }

  /** The refresh before the next one. */
  ghost predicate HasLatest(s: State, id: SocketId)
    requires id in s.sockets
  {
    s.sockets[id].greeted ==> s.sockets[id].due >= 20 && Event(id, s.sockets[id].due - 20) in s.refreshes
  }

  /** Each socket's next refresh is due 20 s after its latest, and none of its refreshes came closer to another. */
  ghost predicate InRhythm(s: State) {
    AllApart(s) && RefreshesKnown(s) && forall id :: id in s.sockets ==> HasLatest(s, id)
  }

  lemma RefreshApart(s: State, id: SocketId, lag: nat)
    requires AllApart(s) && RefreshesKnown(s) && Enabled(s, Refresh(id), lag)
    ensures AllApart(Apply(s, Refresh(id), lag))
  {
    var after := Apply(s, Refresh(id), lag);
    forall a, b | a in after.refreshes && b in after.refreshes ensures AreApart(a, b) {
      if a in s.refreshes && b in s.refreshes {
        assert AreApart(a, b);
      } else if a in s.refreshes {
        assert RefreshKnown(s, a);
      } else if b in s.refreshes {
        assert RefreshKnown(s, b);
      }
    }
  }

  lemma RefreshStaysKnown(s: State, step: Step, lag: nat, r: Event)
    requires Enabled(s, step, lag) && RefreshKnown(s, r)
    ensures RefreshKnown(Apply(s, step, lag), r)
  {
  }

  lemma StepKeepsRhythm(s: State, step: Step, lag: nat)
    requires (forall id :: id in s.sockets ==> id in s.everOpened) && InRhythm(s) && Enabled(s, step, lag)
    ensures InRhythm(Apply(s, step, lag))
  {
    var after := Apply(s, step, lag);
    if step.Refresh? {
      RefreshApart(s, step.id, lag);
    }
    forall r | r in after.refreshes ensures RefreshKnown(after, r) {
      if r in s.refreshes {
        RefreshStaysKnown(s, step, lag, r);
      }
    }
    forall id | id in after.sockets ensures HasLatest(after, id) {
      assert id in s.sockets ==> HasLatest(s, id);
    }
  }

  /** A socket refreshes every 20 s: never sooner, and while it is open never later than the lag allows. */
  lemma RefreshesEveryPeriod(s: State, lag: nat)
    requires Reachable(s, lag)
    ensures forall a, b :: a in s.refreshes && b in s.refreshes && a.socket == b.socket && a.at < b.at ==>
      a.at + 20 <= b.at
    ensures forall id :: id in s.sockets && s.sockets[id].greeted ==>
      exists r :: r in s.refreshes && r.socket == id && r.at <= s.now <= r.at + 20 + lag
  {
    var inv := (x: State) => Inv(x, lag) && InRhythm(x);
    forall x, step | inv(x) && Next(lag)(x, step).Some? ensures inv(Next(lag)(x, step).value) {
      StepKeepsInv(x, step, lag);
      assert forall id :: id in x.sockets ==> SocketFits(x, id, lag);
      StepKeepsRhythm(x, step, lag);
    }
    LeadsToKept(Next(lag), inv, INITIAL, s);
    forall a, b | a in s.refreshes && b in s.refreshes && a.socket == b.socket && a.at < b.at
      ensures a.at + 20 <= b.at
    {
      assert AreApart(a, b);
    }
    forall id | id in s.sockets && s.sockets[id].greeted
      ensures exists r :: r in s.refreshes && r.socket == id && r.at <= s.now <= r.at + 20 + lag
    {
      assert SocketFits(s, id, lag);
      assert HasLatest(s, id);
    }
  }

  /** With a socket open that has refreshed once, and refreshes less than 40 s late: the user is shown offline if and
      only if what happened to the key last is that a closing socket deleted it. */
  lemma OfflineIffDeleted(s: State, id: SocketId, lag: nat)
    requires Reachable(s, lag) && lag + 20 < 60 && id in s.sockets && s.sockets[id].greeted
    ensures !Online(s) <==> s.latest == Deleted
  {
    ReachableInv(s, lag);
    assert SocketFits(s, id, lag);
  }

  /** Shown offline with a socket open: the socket is about to refresh for the first time, or another socket of the
      same user closed at most 20 s, and the lag, ago. */
  lemma OfflineOnlyAfterClosing(s: State, id: SocketId, lag: nat)
    requires Reachable(s, lag) && lag + 20 < 60 && id in s.sockets && !Online(s)
    ensures (!s.sockets[id].greeted && s.sockets[id].due <= s.now <= s.sockets[id].due + lag) ||
            exists c :: c in s.closings && c.socket != id && c.at <= s.now <= c.at + 20 + lag
  {
    ReachableInv(s, lag);
    assert SocketFits(s, id, lag);
    if s.sockets[id].greeted {
      OfflineIffDeleted(s, id, lag);
      var c :| c in s.closings && c.socket != id && c.at <= s.now && s.sockets[id].due <= c.at + PERIOD;
    }
  }

  lemma StepReaches(s: State, step: Step, lag: nat) returns (after: State)
    requires Reachable(s, lag) && Enabled(s, step, lag)
    ensures after == Apply(s, step, lag) && Reachable(after, lag)
  {
    after := Apply(s, step, lag);
    OneMoreStep(Next(lag), INITIAL, s, step);
  }

  /** The gap is real: a user with two sockets closes one and is shown offline though the other is open. */
  lemma ClosingHidesOther() returns (s: State)
    ensures Reachable(s, 0) && s.sockets != map[] && !Online(s)
    ensures forall id :: id in s.sockets ==> s.sockets[id].greeted
  {
    IsThere(Next(0), INITIAL);
    s := StepReaches(INITIAL, Open(1), 0);
    s := StepReaches(s, Refresh(1), 0);
    s := StepReaches(s, Open(2), 0);
    s := StepReaches(s, Refresh(2), 0);
    s := StepReaches(s, Close(2), 0);
    assert 1 in s.sockets;
  }
}
