/** The admin user list, and a client that walks its pages while users are being added. */
module Paging {
  import opened Bank
  import opened Collections

  /** What one page request sees of the users table, by id in descending order: the count statement
      runs first, the row statement may see a later state. */
  datatype Snapshot = Snapshot(counted: seq<UserId>, listed: seq<UserId>)

  datatype PageReply = PageReply(users: seq<UserId>, total: nat, pages: nat)

  function Min(a: int, b: int): int { if a < b then a else b }

  function Pages(total: nat, size: nat): nat
    requires size >= 1
  {
    (total + size - 1) / size
  }

  /** ORDER BY id DESC OFFSET (page - 1) * size LIMIT size */
  function Slice(rows: seq<UserId>, page: nat, size: nat): seq<UserId>
    requires page >= 1 && size >= 1
  {
    var from := Min((page - 1) * size, |rows|);
    rows[from..Min(from + size, |rows|)]
  }

  /** `handle_admin_users`, without a search term. */
  function AdminUsers(snapshot: Snapshot, page: nat, size: nat): PageReply
    requires page >= 1 && size >= 1
  {
    PageReply(Slice(snapshot.listed, page, size), |snapshot.counted|, Pages(|snapshot.counted|, size))
  }

  /** A page says how many users were counted and how many pages they fill, and holds the rows of its place: their i-th
      is that many places further on in the list, and none is left out before the list or the page ends. */
  lemma PageHolds(snapshot: Snapshot, page: nat, size: nat)
    requires page >= 1 && size >= 1
    ensures var reply, from := AdminUsers(snapshot, page, size), (page - 1) * size;
            && reply.total == |snapshot.counted|
            && reply.total <= reply.pages * size && (reply.pages > 0 ==> (reply.pages - 1) * size < reply.total)
            && |reply.users| <= size
            && (|reply.users| < size ==> from + |reply.users| >= |snapshot.listed|)
            && forall i :: 0 <= i < |reply.users| ==>
                 0 <= from + i < |snapshot.listed| && reply.users[i] == snapshot.listed[from + i]
  {
    var total := |snapshot.counted|;
    PagesCover(total, size, Pages(total, size));
    if Pages(total, size) > 0 {
      PagesCover(total, size, Pages(total, size) - 1);
    }
    assert (page - 1) * size >= 0;
  }

  ghost predicate Descending(rows: seq<UserId>) {
    forall i, j :: 0 <= i < j < |rows| ==> rows[i] > rows[j]
  }

  /** What the p-th request sees; once additions have ended, every request sees the last snapshot. */
  function SeenBy(seen: seq<Snapshot>, page: nat): Snapshot
    requires seen != [] && page >= 1
  {
    if page <= |seen| then seen[page - 1] else seen[|seen| - 1]
  }

  /** Users are only ever added. */
  ghost predicate OnlyAdds(seen: seq<Snapshot>) {
    && (forall i :: 0 <= i < |seen| ==> Descending(seen[i].listed) && Descending(seen[i].counted))
    && (forall i, j :: 0 <= i <= j < |seen| ==> Elements(seen[i].listed) <= Elements(seen[j].listed))
    && (forall i, j :: 0 <= i <= j < |seen| ==> Elements(seen[i].counted) <= Elements(seen[j].listed))
  }

  lemma MoreIsMore(a: int, b: int, size: nat)
    requires a <= b
    ensures a * size <= b * size
  {
  }

  /** The client's stopping test: the pages so far reach the counted total. */
  lemma PagesCover(total: nat, size: nat, page: nat)
    requires size >= 1
    ensures page >= Pages(total, size) <==> page * size >= total
  {
    var pages := Pages(total, size);
    if page >= pages {
      MoreIsMore(pages, page, size);
    } else {
      MoreIsMore(page, pages - 1, size);
    }
  }

  /** Adding users never moves anybody to an earlier place. */
  lemma PlacesOnlyRise(before: seq<UserId>, after: seq<UserId>, k: nat, q: nat)
    requires Descending(before) && Descending(after) && Elements(before) <= Elements(after)
    requires k < |before| && q < |after| && before[k] == after[q]
    ensures k <= q
  {
    forall x | x in Elements(before[..k]) ensures x in Elements(after[..q]) {
      assert x in Elements(before);
      var j :| 0 <= j < |after| && after[j] == x;
      assert j < q;
    }
    DistinctFits(before[..k], Elements(after[..q]));
    SmallSet(after[..q]);
  }

  lemma {:induction false} SmallSet(s: seq<nat>)
    ensures |Elements(s)| <= |s|
  {
    if s != [] {
      SmallSet(s[1..]);
      assert Elements(s) == {s[0]} + Elements(s[1..]);
    }
  }

  /** `x` is not among the first `n` rows. */
  ghost predicate NotBefore(rows: seq<UserId>, x: UserId, n: int) {
    forall q :: 0 <= q < n && q < |rows| ==> rows[q] != x
  }

  lemma StillNotBefore(before: seq<UserId>, after: seq<UserId>, x: UserId, n: int)
    requires Descending(before) && Descending(after) && Elements(before) <= Elements(after)
    requires x in before && NotBefore(before, x, n)
    ensures NotBefore(after, x, n)
  {
    var k :| 0 <= k < |before| && before[k] == x;
    forall q | 0 <= q < n && q < |after| ensures after[q] != x {
      if after[q] == x {
        PlacesOnlyRise(before, after, k, q);
      }
    }
  }

  /** Everybody who was there at the start has been collected, or comes after the first `n` rows. */
  ghost predicate Covered(start: seq<UserId>, rows: seq<UserId>, users: seq<UserId>, n: int) {
    forall x :: x in start && x !in users ==> NotBefore(rows, x, n)
  }

  lemma NextRequestCovers(seen: seq<Snapshot>, users: seq<UserId>, page: nat, n: int)
    requires seen != [] && OnlyAdds(seen) && page >= 1
    requires Covered(seen[0].counted, SeenBy(seen, page).listed, users, n)
    ensures Covered(seen[0].counted, SeenBy(seen, page + 1).listed, users, n)
  {
    var rows, next := SeenBy(seen, page).listed, SeenBy(seen, page + 1).listed;
    forall x | x in seen[0].counted && x !in users ensures NotBefore(next, x, n) {
      assert x in Elements(seen[0].counted);
      StillNotBefore(rows, next, x, n);
    }
  }

  lemma EverybodyCollected(seen: seq<Snapshot>, users: seq<UserId>, page: nat, n: int)
    requires seen != [] && OnlyAdds(seen) && page >= 1
    requires Covered(seen[0].counted, SeenBy(seen, page).listed, users, n) && |SeenBy(seen, page).listed| <= n
    ensures forall x :: x in seen[0].counted ==> x in users
  {
    forall x | x in seen[0].counted ensures x in users {
      assert x in Elements(seen[0].counted);
      assert x in Elements(SeenBy(seen, page).listed);
    }
  }

  /** Where the walk stands when `n` rows' worth of pages have been collected, the last of them from request `page`. */
  ghost predicate Walked(seen: seq<Snapshot>, users: seq<UserId>, page: nat, n: int)
    requires seen != [] && page >= 1 && n >= 0
  {
    && Covered(seen[0].counted, SeenBy(seen, page).listed, users, n)
    && (|seen| == 1 ==> users == seen[0].listed[..Min(n, |seen[0].listed|)])
  }

  lemma WalkPage(seen: seq<Snapshot>, users: seq<UserId>, page: nat, size: nat)
    requires seen != [] && page >= 1 && size >= 1 && (page - 1) * size >= 0
             && Walked(seen, users, page, (page - 1) * size)
    ensures page * size >= 0 && Walked(seen, users + Slice(SeenBy(seen, page).listed, page, size), page, page * size)
  {
  }

  lemma WalkOn(seen: seq<Snapshot>, users: seq<UserId>, page: nat, n: nat)
    requires seen != [] && OnlyAdds(seen) && page >= 1 && Walked(seen, users, page, n)
    ensures Walked(seen, users, page + 1, n)
  {
    NextRequestCovers(seen, users, page, n);
  }

  // ----- who is missed

  function Oldest(rows: seq<UserId>): UserId
    requires rows != []
  {
    rows[|rows| - 1]
  }

  /** Nobody who is added later gets an id below those counted at the start. */
  ghost predicate NoneOlder(seen: seq<Snapshot>)
    requires seen != []
  {
    seen[0].counted != [] ==>
      forall i, x :: 0 <= i < |seen| && x in seen[i].listed ==> x >= Oldest(seen[0].counted)
  }

  lemma OldestIsLast(seen: seq<Snapshot>, page: nat)
    requires seen != [] && OnlyAdds(seen) && NoneOlder(seen) && seen[0].counted != [] && page >= 1
    ensures SeenBy(seen, page).listed != [] && Oldest(SeenBy(seen, page).listed) == Oldest(seen[0].counted)
  {
    var rows, oldest := SeenBy(seen, page).listed, Oldest(seen[0].counted);
    assert oldest in Elements(seen[0].counted) && oldest in Elements(rows);
    var k :| 0 <= k < |rows| && rows[k] == oldest;
    assert Oldest(rows) in rows;
  }

  lemma CountFitsRows(seen: seq<Snapshot>, page: nat)
    requires seen != [] && OnlyAdds(seen) && page >= 1
    ensures |SeenBy(seen, page).counted| <= |SeenBy(seen, page).listed|
  {
    var snapshot := SeenBy(seen, page);
    assert Elements(snapshot.counted) <= Elements(snapshot.listed);
    DistinctFits(snapshot.counted, Elements(snapshot.listed));
    SmallSet(snapshot.listed);
  }

  /** The walk has passed the oldest user by: it is not on the pages so far. */
  ghost predicate OldestMissing(seen: seq<Snapshot>, users: seq<UserId>)
    requires seen != []
  {
    seen[0].counted != [] ==> Oldest(seen[0].counted) !in users
  }

  /** As long as the walk goes on, it has not met the oldest user: the page with the last row is the last page. */
  lemma WalkMissesOldest(seen: seq<Snapshot>, users: seq<UserId>, page: nat, size: nat)
    requires seen != [] && OnlyAdds(seen) && NoneOlder(seen) && page >= 1 && size >= 1 && OldestMissing(seen, users)
    requires |SeenBy(seen, page).listed| > page * size || page < Pages(|SeenBy(seen, page).counted|, size)
    ensures OldestMissing(seen, users + Slice(SeenBy(seen, page).listed, page, size))
  {
    var rows := SeenBy(seen, page).listed;
    if seen[0].counted != [] && Oldest(seen[0].counted) in Slice(rows, page, size) {
      OldestIsLast(seen, page);
      CountFitsRows(seen, page);
      PagesCover(|SeenBy(seen, page).counted|, size, page);
    }
  }

  lemma WalkEnds(seen: seq<Snapshot>, users: seq<UserId>, page: nat, size: nat)
    requires seen != [] && OnlyAdds(seen) && page >= 1 && size >= 1 && page * size >= 0
    requires Walked(seen, users, page, page * size) && page >= Pages(|SeenBy(seen, page).counted|, size)
    requires NoneOlder(seen) && |SeenBy(seen, page).listed| > page * size ==> OldestMissing(seen, users)
    ensures |seen| == 1 && seen[0].counted == seen[0].listed ==> users == seen[0].listed
    ensures |SeenBy(seen, page).listed| <= page * size ==> NobodyMissed(seen, users)
    ensures NoneOlder(seen) && seen[0].counted != [] && |SeenBy(seen, page).listed| > page * size ==>
      !NobodyMissed(seen, users)
    ensures |SeenBy(seen, page).counted| <= page * size
  {
    PagesCover(|SeenBy(seen, page).counted|, size, page);
    if |SeenBy(seen, page).listed| <= page * size {
      EverybodyCollected(seen, users, page, page * size);
    } else if NoneOlder(seen) && seen[0].counted != [] {
      assert Oldest(seen[0].counted) in seen[0].counted;
    }
  }

  /** Everybody counted by the first request was collected. */
  ghost predicate NobodyMissed(seen: seq<Snapshot>, users: seq<UserId>)
    requires seen != []
  {
    forall x :: x in seen[0].counted ==> x in users
  }

  /** `fetch_users_from_db`: ask for page after page until the reply says it was the last, or a request fails; the
      caller gets the users collected so far in either case.

      On a table that does not change and without a failure the result is the table itself, each user once and in
      order.  While users are being added, nobody who was counted by the first request is missed if no request
      fails and the rows of the last one end with its page - which they do if its two statements saw the same
      table.  And only then: as long as the oldest user stays the last row, a walk that fails, or leaves
      rows beyond its last page, misses at least the oldest. */
  method FetchUsers(seen: seq<Snapshot>, size: nat, failsAt: Option<nat>)
    returns (users: seq<UserId>, last: nat, complete: bool)
    requires seen != [] && size >= 1 && OnlyAdds(seen)
    ensures last >= 1 && (!complete ==> failsAt == Some(last))
    ensures complete && |seen| == 1 && seen[0].counted == seen[0].listed ==> users == seen[0].listed
    ensures complete && |SeenBy(seen, last).listed| <= last * size ==> NobodyMissed(seen, users)
    ensures NoneOlder(seen) && seen[0].counted != [] ==>
      (NobodyMissed(seen, users) <==> complete && |SeenBy(seen, last).listed| <= last * size)
    ensures complete && |SeenBy(seen, last).counted| == |SeenBy(seen, last).listed| ==>
      |SeenBy(seen, last).listed| <= last * size
  {
    users, complete := [], false;
    var page := 1;
    var limit := |seen| + Pages(|seen[|seen| - 1].counted|, size);
    while true
      invariant 1 <= page <= limit && !complete
      invariant (page - 1) * size >= 0 && Walked(seen, users, page, (page - 1) * size)
      invariant NoneOlder(seen) ==> OldestMissing(seen, users)
      decreases limit - page
    {
      last := page;
      if failsAt == Some(page) {
        assert seen[0].counted != [] ==> Oldest(seen[0].counted) in seen[0].counted;
        break;
      }
      var reply := AdminUsers(SeenBy(seen, page), page, size);
      WalkPage(seen, users, page, size);
      if NoneOlder(seen) && (|SeenBy(seen, page).listed| > page * size || page < reply.pages) {
        WalkMissesOldest(seen, users, page, size);
      }
      users := users + reply.users;
      if page >= reply.pages {
        complete := true;
        WalkEnds(seen, users, page, size);
        break;
      }
      WalkOn(seen, users, page, page * size);
      page := page + 1;
    }
  }

  /** With a registration between a request's count and its rows, a user can be missed. */
  lemma TornRequestMisses(x: UserId)
    ensures var torn := Snapshot([x], [x + 1, x]);
            && OnlyAdds([torn])
            && AdminUsers(torn, 1, 1).pages == 1
            && x in torn.counted && x !in AdminUsers(torn, 1, 1).users
  {
  }
}
