/** The producer's wait for its reply, in time.

    The reply key is written by SETEX at some instants (any number of deliveries may
    write it) and lives `RESPONSE_TTL` seconds after the latest of them.  The producer
    reads it at most `MAX_READS` times. */
module Polling {
  import opened Bank
  import opened Collections
  import Rpc

  const RESPONSE_TTL: nat := 60_000       // in milliseconds, as are all instants below
  const MAX_READS: nat := Rpc.MAX_READS

  datatype SetEx = SetEx(at: nat, response: Response)

  ghost predicate Ordered(writes: seq<SetEx>) {
    forall i, j :: 0 <= i < j < |writes| ==> writes[i].at <= writes[j].at
  }

  /** The instants of successive GETs. */
  ghost predicate Increasing(polledAt: seq<nat>) {
    forall i, j :: 0 <= i < j < |polledAt| ==> polledAt[i] < polledAt[j]
  }

  /** GET at instant `t`: the latest write up to then, unless it has expired. */
  function KeyAt(writes: seq<SetEx>, t: nat): Option<Response> {
    if writes == [] then None
    else
      var last := writes[|writes| - 1];
      if last.at > t then KeyAt(writes[..|writes| - 1], t)
      else if t < last.at + RESPONSE_TTL then Some(last.response)
      else None
  }

  /** The wait loop of `publish_and_wait`: the first read that finds the key ends it, and after
      `MAX_READS` misses it gives up. */
  method Wait(writes: seq<SetEx>, polledAt: seq<nat>) returns (answer: Option<Response>, polls: nat)
    requires |polledAt| == MAX_READS
    ensures polls <= MAX_READS
    ensures answer.None? ==> polls == MAX_READS == 600
    ensures answer.None? <==> forall i :: 0 <= i < MAX_READS ==> KeyAt(writes, polledAt[i]).None?
    ensures answer.Some? ==> polls >= 1 && KeyAt(writes, polledAt[polls - 1]) == answer
    ensures forall i :: 0 <= i < polls - 1 ==> KeyAt(writes, polledAt[i]).None?
  {
    answer, polls := None, 0;
    while polls < MAX_READS
      invariant polls <= MAX_READS && answer.None?
      invariant forall i :: 0 <= i < polls ==> KeyAt(writes, polledAt[i]).None?
    {
      answer := KeyAt(writes, polledAt[polls]);
      polls := polls + 1;
      if answer.Some? {
        return;
      }
    }
  }

  /** The key is there exactly when some write is neither in the future nor expired. */
  lemma {:induction false} KeyIsThere(writes: seq<SetEx>, t: nat)
    requires Ordered(writes)
    ensures KeyAt(writes, t).Some? <==>
            exists i :: 0 <= i < |writes| && writes[i].at <= t < writes[i].at + RESPONSE_TTL
    decreases |writes|
  {
    if writes != [] {
      var front := writes[..|writes| - 1];
      KeyIsThere(front, t);
      if writes[|writes| - 1].at > t {
        assert forall i :: 0 <= i < |front| ==> front[i] == writes[i];
      }
    }
  }

  /** And it holds the reply of the latest write up to then. */
  lemma {:induction false} KeyHoldsLatest(writes: seq<SetEx>, t: nat) returns (i: nat)
    requires Ordered(writes) && KeyAt(writes, t).Some?
    ensures i < |writes| && writes[i].response == KeyAt(writes, t).value
    ensures writes[i].at <= t < writes[i].at + 60_000
    ensures forall j :: i < j < |writes| ==> t < writes[j].at
    decreases |writes|
  {
    i := |writes| - 1;
    if writes[i].at > t {
      i := KeyHoldsLatest(writes[..i], t);
    }
  }

  /** How old a reply that no earlier read can have seen may be at the i-th read: one written on
      publication, or just after the read before it. */
  function OldestUnseen(published: nat, polledAt: seq<nat>, i: nat): int
    requires i < |polledAt|
  {
    polledAt[i] - if i == 0 then published else polledAt[i - 1] + 1
  }

  ghost predicate NeverSleepsTooLong(published: nat, polledAt: seq<nat>) {
    forall i :: 0 <= i < |polledAt| ==> OldestUnseen(published, polledAt, i) < RESPONSE_TTL
  }

  /** The first read at or after instant `t`. */
  ghost predicate IsFirstReadFrom(polledAt: seq<nat>, t: nat, i: nat) {
    i < |polledAt| && t <= polledAt[i] && (i > 0 ==> polledAt[i - 1] < t)
  }

  lemma {:induction false} FirstReadFrom(polledAt: seq<nat>, t: nat, n: nat) returns (i: nat)
    requires n < |polledAt| && t <= polledAt[n] && Increasing(polledAt)
    ensures IsFirstReadFrom(polledAt, t, i) && i <= n
  {
    if n > 0 && t <= polledAt[n - 1] {
      i := FirstReadFrom(polledAt, t, n - 1);
    } else {
      i := n;
    }
  }

  ghost predicate PickedUp(writes: seq<SetEx>, polledAt: seq<nat>) {
    exists i :: 0 <= i < |polledAt| && KeyAt(writes, polledAt[i]).Some?
  }

  /** If no gap between reads outlasts the TTL, the first read after the first write finds a reply. */
  lemma FirstReadFindsReply(published: nat, writes: seq<SetEx>, polledAt: seq<nat>, i: nat)
    requires Ordered(writes) && Increasing(polledAt) && writes != [] && published <= writes[0].at
    requires IsFirstReadFrom(polledAt, writes[0].at, i)
    requires NeverSleepsTooLong(published, polledAt)
    ensures KeyAt(writes, polledAt[i]).Some?
    ensures forall k :: 0 <= k < i ==> KeyAt(writes, polledAt[k]).None?
  {
    assert OldestUnseen(published, polledAt, i) < RESPONSE_TTL;
    KeyIsThere(writes, polledAt[i]);
    forall k | 0 <= k < i ensures KeyAt(writes, polledAt[k]).None? {
      KeyIsThere(writes, polledAt[k]);
      assert polledAt[k] <= polledAt[i - 1];
    }
  }

  /** A reply is stored from publication to the last read. */
  ghost predicate StoredInTime(writes: seq<SetEx>, published: nat, polledAt: seq<nat>)
    requires polledAt != []
  {
    Ordered(writes) && writes != [] && published <= writes[0].at <= polledAt[|polledAt| - 1]
  }

  /** The exact condition under which no reply is lost: whatever is stored between publication and the
      last read is picked up, if and only if no gap between reads outlasts the TTL. */
  lemma NoReplyLostIff(published: nat, polledAt: seq<nat>)
    requires polledAt != [] && Increasing(polledAt) && published <= polledAt[0]
    ensures NeverSleepsTooLong(published, polledAt) <==>
      forall writes: seq<SetEx> :: StoredInTime(writes, published, polledAt) ==> PickedUp(writes, polledAt)
  {
    if NeverSleepsTooLong(published, polledAt) {
      forall writes: seq<SetEx> | StoredInTime(writes, published, polledAt) ensures PickedUp(writes, polledAt) {
        var i := FirstReadFrom(polledAt, writes[0].at, |polledAt| - 1);
        FirstReadFindsReply(published, writes, polledAt, i);
      }
    } else {
      var i :| 0 <= i < |polledAt| && OldestUnseen(published, polledAt, i) >= RESPONSE_TTL;
      LostInGap(published, polledAt, i);
    }
  }

  /** A reply written right after one read expires before the next. */
  lemma LostInGap(published: nat, polledAt: seq<nat>, i: nat)
    requires i < |polledAt| && Increasing(polledAt) && published <= polledAt[0]
    requires OldestUnseen(published, polledAt, i) >= RESPONSE_TTL
    ensures exists writes: seq<SetEx> :: StoredInTime(writes, published, polledAt) && !PickedUp(writes, polledAt)
  {
    var at := if i == 0 then published else polledAt[i - 1] + 1;
    var writes := [SetEx(at, Refuse(404, ""))];
    forall k | 0 <= k < |polledAt| ensures KeyAt(writes, polledAt[k]).None? {
      assert k < i ==> polledAt[k] <= polledAt[i - 1];
      assert k >= i ==> polledAt[k] >= polledAt[i];
    }
    assert polledAt[i] <= polledAt[|polledAt| - 1];
    assert StoredInTime(writes, published, polledAt) && !PickedUp(writes, polledAt);
  }
}
