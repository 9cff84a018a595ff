/** The users that some of the entries of a log leave, in whatever order they are taken.

    Who is there depends on the registrations among those entries, and what they have on the transfers among
    them: both are sums or unions over a set of places in the log, so no order needs to be spoken of.  That the
    entries, replayed one by one in an order that makes sense, leave just these users is shown entry by entry; the
    log as it is is one such order. */
module Places {
  import opened Collections
  import opened Bank
  import opened Transfers
  import opened Serialisability

  // ----- sums over the log

  function Tally(n: nat, f: nat -> int): int {
    if n == 0 then 0 else Tally(n - 1, f) + f(n - 1)
  }

  lemma {:induction false} TallyPlus(n: nat, f: nat -> int, g: nat -> int, h: nat -> int)
    requires forall k :: 0 <= k < n ==> f(k) == g(k) + h(k)
    ensures Tally(n, f) == Tally(n, g) + Tally(n, h)
  {
    if n > 0 {
      TallyPlus(n - 1, f, g, h);
    }
  }

  lemma {:induction false} TallyAtMost(n: nat, f: nat -> int, g: nat -> int)
    requires forall k :: 0 <= k < n ==> f(k) <= g(k)
    ensures Tally(n, f) <= Tally(n, g)
  {
    if n > 0 {
      TallyAtMost(n - 1, f, g);
    }
  }

  lemma {:induction false} TallyOne(n: nat, k: nat, f: nat -> int)
    requires forall j :: 0 <= j < n && j != k ==> f(j) == 0
    ensures Tally(n, f) == if k < n then f(k) else 0
  {
    if n > 0 {
      TallyOne(n - 1, k, f);
    }
  }

  /** What an entry does to the balance of `id`. */
  function MoveOf(e: Entry, id: UserId): int {
    if e.Committed? then
      (if e.row.toUser == id then e.row.amount else 0) - (if e.row.fromUser == id then e.row.amount else 0)
    else 0
  }

  function Moves(log: seq<Entry>, places: set<nat>, id: UserId): nat -> int {
    (k: nat) => if k in places && k < |log| then MoveOf(log[k], id) else 0
  }

  // ----- the users after the entries at some places of the log

  function Balance(log: seq<Entry>, places: set<nat>, id: UserId): int {
    INITIAL_BALANCE + Tally(|log|, Moves(log, places, id))
  }

  function Newcomers(log: seq<Entry>, places: set<nat>): set<UserId> {
    set k | k in places && k < |log| && log[k].Registered? :: log[k].id
  }

  /** Of the users in `all`, those that the entries at `places` register, with the balances that these leave. */
  function UsersOf(all: map<UserId, User>, log: seq<Entry>, places: set<nat>): map<UserId, User> {
    map id | id in Newcomers(log, places) && id in all :: all[id].(balance := Balance(log, places, id))
  }

  ghost predicate StrangersHaveNothing(log: seq<Entry>, places: set<nat>) {
    forall id :: id !in Newcomers(log, places) ==> Balance(log, places, id) == INITIAL_BALANCE
  }

  lemma BalanceAfter(log: seq<Entry>, places: set<nat>, k: nat, id: UserId)
    requires k < |log| && k !in places
    ensures Balance(log, places + {k}, id) == Balance(log, places, id) + MoveOf(log[k], id)
  {
    TallyPlus(|log|, Moves(log, places + {k}, id), Moves(log, places, id), Moves(log, {k}, id));
    TallyOne(|log|, k, Moves(log, {k}, id));
  }

  lemma NewcomersAfter(log: seq<Entry>, places: set<nat>, k: nat)
    requires k < |log|
    ensures Newcomers(log, places + {k}) == Newcomers(log, places) + if log[k].Registered? then {log[k].id} else {}
  {
  }

  lemma EntryFact(log: seq<Entry>, k: nat)
    requires Explained(log) && k < |log|
    ensures BooksBalance(Replay(log[..k])) && EntryFits(Replay(log[..k]), log[k])
    ensures Replay(log[..k + 1]) == Effect(Replay(log[..k]), log[k])
  {
    EntryAt(log, k);
    assert log[..k + 1][..k] == log[..k];
  }

  /** Who registered is there, with all but the balance. */
  ghost predicate AccountIn(all: map<UserId, User>, e: Entry)
    requires e.Registered?
  {
    e.id in all && e.account == all[e.id].(balance := INITIAL_BALANCE)
  }

  lemma EffectKeepsAccount(db: Db, e: Entry, signup: Entry)
    requires signup.Registered? && AccountIn(db.users, signup) && (e.Registered? ==> e.id !in db.users)
    ensures AccountIn(Effect(db, e).users, signup)
  {
  }

  lemma {:induction false} AccountStays(log: seq<Entry>, k: nat)
    requires NewIds(log) && k < |log| && log[k].Registered? && log[k].account.balance == INITIAL_BALANCE
    ensures AccountIn(Replay(log).users, log[k])
    decreases |log|
  {
    var front, last := log[..|log| - 1], log[|log| - 1];
    if k < |front| {
      AccountStays(front, k);
      EffectKeepsAccount(Replay(front), last, log[k]);
    }
  }

  lemma OpensWithInitial(log: seq<Entry>, k: nat)
    requires Explained(log) && k < |log| && log[k].Registered?
    ensures log[k].account.balance == INITIAL_BALANCE && log[k].id !in Replay(log[..k]).users
  {
    EntryFact(log, k);
  }

  lemma AccountLasts(log: seq<Entry>, k: nat)
    requires Explained(log) && k < |log| && log[k].Registered?
    ensures AccountIn(Replay(log).users, log[k])
  {
    OpensWithInitial(log, k);
    ExplainedHasNewIds(log);
    AccountStays(log, k);
  }

  lemma PrefixExplained(log: seq<Entry>, n: nat)
    requires Explained(log) && n <= |log|
    ensures Explained(log[..n])
  {
    forall i | 0 <= i < |log| ensures FitsAt(Replay(log[..i]), log[i]) {
      EntryAt(log, i);
    }
    AllFitIf(log, FitsAt, n);
  }

  lemma IdsDiffer(log: seq<Entry>, j: nat, k: nat)
    requires Explained(log) && j < k < |log| && log[j].Registered? && log[k].Registered?
    ensures log[j].id != log[k].id
  {
    PrefixExplained(log, k);
    AccountLasts(log[..k], j);
    OpensWithInitial(log, k);
  }

  lemma BalancesStay(log: seq<Entry>, places: set<nat>, k: nat)
    requires k < |log| && k !in places && !log[k].Committed?
    ensures forall id :: Balance(log, places + {k}, id) == Balance(log, places, id)
  {
    forall id ensures Balance(log, places + {k}, id) == Balance(log, places, id) {
      BalanceAfter(log, places, k, id);
    }
  }

  lemma SignupUsers(all: map<UserId, User>, log: seq<Entry>, places: set<nat>, k: nat)
    requires k < |log| && k !in places && log[k].Registered? && StrangersHaveNothing(log, places)
    requires AccountIn(all, log[k]) && log[k].id !in Newcomers(log, places)
    ensures UsersOf(all, log, places + {k}) == UsersOf(all, log, places)[log[k].id := log[k].account]
    ensures StrangersHaveNothing(log, places + {k})
  {
    NewcomersAfter(log, places, k);
    BalancesStay(log, places, k);
  }

  function Settled(users: map<UserId, User>, row: Transfer): map<UserId, User>
    requires KnownParties(users, row)
  {
    Credit(Credit(users, row.fromUser, -row.amount), row.toUser, row.amount)
  }

  /** Each balance moves by what the entry does to it. */
  ghost predicate MovesAll(before: map<UserId, User>, after: map<UserId, User>, e: Entry) {
    after.Keys == before.Keys
    && forall id :: id in before ==> after[id] == before[id].(balance := before[id].balance + MoveOf(e, id))
  }

  lemma SettledMoves(before: map<UserId, User>, after: map<UserId, User>, e: Entry)
    requires e.Committed? && KnownParties(before, e.row) && MovesAll(before, after, e)
    ensures after == Settled(before, e.row)
  {
  }

  lemma CommitStrangers(log: seq<Entry>, places: set<nat>, k: nat)
    requires k < |log| && k !in places && log[k].Committed? && StrangersHaveNothing(log, places)
    requires {log[k].row.fromUser, log[k].row.toUser} <= Newcomers(log, places)
    ensures StrangersHaveNothing(log, places + {k})
  {
    NewcomersAfter(log, places, k);
    forall id | id !in Newcomers(log, places + {k}) ensures Balance(log, places + {k}, id) == INITIAL_BALANCE {
      BalanceAfter(log, places, k, id);
    }
  }

  lemma MovedUser(all: map<UserId, User>, log: seq<Entry>, places: set<nat>, k: nat, id: UserId)
    requires k < |log| && k !in places && !log[k].Registered? && id in UsersOf(all, log, places)
    ensures id in UsersOf(all, log, places + {k})
    ensures var before := UsersOf(all, log, places)[id];
            UsersOf(all, log, places + {k})[id] == before.(balance := before.balance + MoveOf(log[k], id))
  {
    NewcomersAfter(log, places, k);
    BalanceAfter(log, places, k, id);
  }

  lemma SameUsers(all: map<UserId, User>, log: seq<Entry>, places: set<nat>, k: nat)
    requires k < |log| && !log[k].Registered?
    ensures UsersOf(all, log, places + {k}).Keys == UsersOf(all, log, places).Keys
  {
    NewcomersAfter(log, places, k);
  }

  lemma MovedUsers(all: map<UserId, User>, log: seq<Entry>, places: set<nat>, k: nat)
    requires k < |log| && k !in places && !log[k].Registered?
    ensures MovesAll(UsersOf(all, log, places), UsersOf(all, log, places + {k}), log[k])
  {
    SameUsers(all, log, places, k);
    var before, after := UsersOf(all, log, places), UsersOf(all, log, places + {k});
    forall id | id in before ensures after[id] == before[id].(balance := before[id].balance + MoveOf(log[k], id)) {
      MovedUser(all, log, places, k, id);
    }
  }

  lemma CommitUsers(all: map<UserId, User>, log: seq<Entry>, places: set<nat>, k: nat)
    requires k < |log| && k !in places && log[k].Committed? && KnownParties(UsersOf(all, log, places), log[k].row)
    ensures UsersOf(all, log, places + {k}) == Settled(UsersOf(all, log, places), log[k].row)
  {
    MovedUsers(all, log, places, k);
    SettledMoves(UsersOf(all, log, places), UsersOf(all, log, places + {k}), log[k]);
  }

  lemma StandsStill(before: map<UserId, User>, after: map<UserId, User>, e: Entry)
    requires !e.Committed? && MovesAll(before, after, e)
    ensures after == before
  {
  }

  lemma IdleUsers(all: map<UserId, User>, log: seq<Entry>, places: set<nat>, k: nat)
    requires k < |log| && k !in places && log[k].Refused? && StrangersHaveNothing(log, places)
    ensures UsersOf(all, log, places + {k}) == UsersOf(all, log, places) && StrangersHaveNothing(log, places + {k})
  {
    NewcomersAfter(log, places, k);
    MovedUsers(all, log, places, k);
    StandsStill(UsersOf(all, log, places), UsersOf(all, log, places + {k}), log[k]);
    BalancesStay(log, places, k);
  }

  /** The tables after the entries at `places`, taken in some order. */
  ghost predicate Leaves(all: map<UserId, User>, log: seq<Entry>, places: set<nat>, db: Db) {
    db.users == UsersOf(all, log, places) && StrangersHaveNothing(log, places)
  }

  lemma EntryLeaves(all: map<UserId, User>, log: seq<Entry>, places: set<nat>, k: nat, db: Db)
    requires k < |log| && k !in places && Leaves(all, log, places, db)
    requires log[k].Registered? ==> AccountIn(all, log[k]) && log[k].id !in Newcomers(log, places)
    requires log[k].Committed? ==> KnownParties(db.users, log[k].row)
    ensures Leaves(all, log, places + {k}, Effect(db, log[k]))
  {
    match log[k]
    case Registered(_, _) => SignupUsers(all, log, places, k);
    case Committed(_, _, _, _, _) =>
      CommitUsers(all, log, places, k);
      CommitStrangers(log, places, k);
    case Refused(_, _, _, _) => IdleUsers(all, log, places, k);
  }

  ghost function First(n: nat): (places: set<nat>)
    ensures forall k :: k in places <==> 0 <= k < n
  {
    UptoIsPermutation(n);
    Elements(Upto(n))
  }

  lemma StartLeaves(all: map<UserId, User>, log: seq<Entry>)
    ensures Leaves(all, log, {}, EMPTY_DB)
  {
    forall id ensures Balance(log, {}, id) == INITIAL_BALANCE {
      TallyOne(|log|, |log|, Moves(log, {}, id));
    }
  }

  /** All who register in the log are among the users, once each. */
  ghost predicate Enrols(all: map<UserId, User>, log: seq<Entry>) {
    && (forall k :: 0 <= k < |log| && log[k].Registered? ==> AccountIn(all, log[k]))
    && (forall j, k :: 0 <= j < k < |log| && log[j].Registered? && log[k].Registered? ==> log[j].id != log[k].id)
  }

  lemma LogEnrols(log: seq<Entry>)
    requires Explained(log)
    ensures Enrols(Replay(log).users, log)
  {
    forall k | 0 <= k < |log| && log[k].Registered? ensures AccountIn(Replay(log).users, log[k]) {
      AccountLasts(log, k);
    }
    forall j, k | 0 <= j < k < |log| && log[j].Registered? && log[k].Registered? ensures log[j].id != log[k].id {
      IdsDiffer(log, j, k);
    }
  }

  /** Registering happens once. */
  lemma NotYetNew(all: map<UserId, User>, log: seq<Entry>, places: set<nat>, k: nat)
    requires Enrols(all, log) && k < |log| && k !in places && log[k].Registered?
    ensures log[k].id !in Newcomers(log, places)
  {
  }

  lemma OneMoreLeaves(all: map<UserId, User>, log: seq<Entry>, places: set<nat>, k: nat, db: Db)
    requires Enrols(all, log) && k < |log| && k !in places && Leaves(all, log, places, db)
    requires log[k].Committed? ==> KnownParties(db.users, log[k].row)
    ensures Leaves(all, log, places + {k}, Effect(db, log[k]))
  {
    if log[k].Registered? {
      NotYetNew(all, log, places, k);
    }
    EntryLeaves(all, log, places, k, db);
  }

  ghost predicate KnownAt(log: seq<Entry>, k: nat)
    requires k < |log|
  {
    log[k].Committed? ==> KnownParties(Replay(log[..k]).users, log[k].row)
  }

  lemma PartiesKnown(log: seq<Entry>)
    requires Explained(log)
    ensures forall k :: 0 <= k < |log| ==> KnownAt(log, k)
  {
    forall k | 0 <= k < |log| ensures KnownAt(log, k) {
      EntryFact(log, k);
    }
  }

  /** The users at a time are those of the entries so far. */
  ghost predicate LeavesAt(all: map<UserId, User>, log: seq<Entry>, n: nat)
    requires n <= |log|
  {
    Leaves(all, log, First(n), Replay(log[..n]))
  }

  lemma ReplayNext(log: seq<Entry>, k: nat)
    requires k < |log|
    ensures Replay(log[..k + 1]) == Effect(Replay(log[..k]), log[k])
  {
    assert log[..k + 1][..k] == log[..k];
  }

  lemma NextOfLog(all: map<UserId, User>, log: seq<Entry>, k: nat)
    requires Enrols(all, log) && k < |log| && KnownAt(log, k) && LeavesAt(all, log, k)
    ensures LeavesAt(all, log, k + 1)
  {
    assert First(k + 1) == First(k) + {k};
    ReplayNext(log, k);
    OneMoreLeaves(all, log, First(k), k, Replay(log[..k]));
  }

  lemma LogLeaves(all: map<UserId, User>, log: seq<Entry>, n: nat)
    requires Enrols(all, log) && n <= |log| && forall k :: 0 <= k < |log| ==> KnownAt(log, k)
    ensures LeavesAt(all, log, n)
  {
    assert First(0) == {};
    StartLeaves(all, log);
    for k := 0 to n
      invariant LeavesAt(all, log, k)
    {
      NextOfLog(all, log, k);
    }
  }
}
