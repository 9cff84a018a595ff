/** What the proofs need to know of finite collections: sums over maps; how the sizes of sets compare; sequences
    without repetition, permutations of the numbers below a bound, and that some permutation is sorted by any
    given key; that following a map inside a finite set closes a cycle; and stringing together the lists that
    a function gives for the elements of a sequence (`FlatMap`), whose elements do not depend on the order of the
    arguments. */
module Collections {

  datatype Option<+T> = None | Some(value: T)

  ghost function PickOne(c: set<nat>): (id: nat)
    requires c != {}
    ensures id in c
  {
    var id :| id in c; id
  }

  ghost function Sum(m: map<nat, int>): int {
    if m == map[] then 0
    else
      var id := PickOne(m.Keys);
      m[id] + Sum(m - {id})
  }

  lemma {:induction false} SumWithout(m: map<nat, int>, id: nat)
    requires id in m
    ensures Sum(m) == m[id] + Sum(m - {id})
    decreases |m|
  {
    var first := PickOne(m.Keys);
    if first != id {
      SumWithout(m - {first}, id);
      SumWithout(m - {id}, first);
      assert m - {first} - {id} == m - {id} - {first};
    }
  }

  lemma SumAfterUpdate(m: map<nat, int>, id: nat, v: int)
    ensures Sum(m[id := v]) == Sum(m) + v - (if id in m then m[id] else 0)
  {
    var updated := m[id := v];
    SumWithout(updated, id);
    assert updated - {id} == m - {id};
    if id in m {
      SumWithout(m, id);
    } else {
      assert m - {id} == m;
    }
  }

  lemma {:induction false} SumNotNegative(m: map<nat, int>)
    requires forall id :: id in m ==> m[id] >= 0
    ensures Sum(m) >= 0
    decreases |m|
  {
    if m != map[] {
      SumNotNegative(m - {PickOne(m.Keys)});
    }
  }

  lemma PairWithinSum(m: map<nat, int>, a: nat, b: nat)
    requires a in m && b in m && a != b
    requires forall id :: id in m ==> m[id] >= 0
    ensures m[a] + m[b] <= Sum(m)
  {
    SumWithout(m, a);
    SumWithout(m - {a}, b);
    SumNotNegative(m - {a} - {b});
  }

  ghost predicate Distinct(s: seq<nat>) {
    forall i, j :: 0 <= i < j < |s| ==> s[i] != s[j]
  }

  ghost function Elements(s: seq<nat>): set<nat> {
    set x | x in s
  }

  lemma {:induction false} DistinctFits(s: seq<nat>, all: set<nat>)
    requires Distinct(s) && Elements(s) <= all
    ensures |s| <= |all|
  {
    if s != [] {
      var last := s[|s| - 1];
      var front := s[..|s| - 1];
      assert last in Elements(s);
      forall x | x in Elements(front) ensures x in all - {last} {
        assert x in Elements(s);
      }
      DistinctFits(front, all - {last});
    }
  }

  lemma OnlyElement(c: set<nat>, x: nat)
    requires x in c
    ensures |c| == 1 <==> c == {x}
  {
    if |c| == 1 {
      assert |c - {x}| == 0;
    }
  }

  /** The element after `c[i]`, the first one following the last. */
  function NextIn(c: seq<nat>, i: nat): nat
    requires i < |c|
  {
    c[if i + 1 < |c| then i + 1 else 0]
  }

  ghost predicate IsClosed(next: map<nat, nat>) {
    forall x {:trigger next[x]} :: x in next ==> next[x] in next
  }

  /** `c` is a cycle of `next`, each element followed by its successor, none repeated. */
  ghost predicate IsCycle(next: map<nat, nat>, c: seq<nat>) {
    && c != []
    && Distinct(c)
    && forall i {:trigger NextIn(c, i)} :: 0 <= i < |c| ==> c[i] in next && next[c[i]] == NextIn(c, i)
  }

  /** Following `next` inside a finite set must close a cycle. */
  lemma {:induction false} FollowToCycle(next: map<nat, nat>, path: seq<nat>) returns (c: seq<nat>)
    requires IsClosed(next)
    requires path != [] && Distinct(path)
    requires forall i :: 0 <= i < |path| ==> path[i] in next
    requires forall i {:trigger path[i]} :: 0 <= i < |path| - 1 ==> next[path[i]] == path[i + 1]
    ensures IsCycle(next, c)
    decreases |next| + 1 - |path|
  {
    assert Elements(path) <= next.Keys;
    DistinctFits(path, next.Keys);
    assert |next.Keys| == |next|;
    var successor := next[path[|path| - 1]];
    if successor in path {
      var k :| 0 <= k < |path| && path[k] == successor;
      c := path[k..];
    } else {
      c := FollowToCycle(next, path + [successor]);
    }
  }

  lemma HasCycle(next: map<nat, nat>) returns (c: seq<nat>)
    requires next != map[] && IsClosed(next)
    ensures IsCycle(next, c)
  {
    var start := PickOne(next.Keys);
    c := FollowToCycle(next, [start]);
  }

  lemma {:induction false} SubsetIsSmaller(a: set<nat>, b: set<nat>)
    requires a <= b
    ensures |a| <= |b|
    decreases |a|
  {
    if a != {} {
      var x := PickOne(a);
      SubsetIsSmaller(a - {x}, b - {x});
    }
  }

  lemma SizesTell(a: set<nat>, b: set<nat>)
    requires a <= b
    ensures |a| <= |b| && (|a| == |b| <==> a == b)
  {
    SubsetIsSmaller(a, b);
    if a != b {
      assert exists id :: id in b && id !in a;
      var id :| id in b && id !in a;
      SubsetIsSmaller(a, b - {id});
    }
  }

  // ----- permutations of the numbers below n

  ghost predicate IsPermutation(order: seq<nat>, n: nat) {
    && Distinct(order)
    && (forall i :: 0 <= i < |order| ==> order[i] < n)
    && (forall k :: 0 <= k < n ==> k in order)
  }

  function Upto(n: nat): (order: seq<nat>)
    ensures |order| == n && forall k :: 0 <= k < n ==> order[k] == k
  {
    seq(n, i requires 0 <= i < n => i)
  }

  lemma UptoIsPermutation(n: nat)
    ensures IsPermutation(Upto(n), n)
  {
    forall k | 0 <= k < n ensures k in Upto(n) {
      assert Upto(n)[k] == k;
    }
  }

  lemma {:induction false} CountOnce(order: seq<nat>, x: nat)
    requires Distinct(order)
    ensures multiset(order)[x] == if x in order then 1 else 0
    decreases |order|
  {
    if order != [] {
      var front, last := order[..|order| - 1], order[|order| - 1];
      assert order == front + [last];
      CountOnce(front, x);
    }
  }

  lemma PermutationsAgree(a: seq<nat>, b: seq<nat>, n: nat)
    requires IsPermutation(a, n) && IsPermutation(b, n)
    ensures multiset(a) == multiset(b)
  {
    forall x: nat ensures multiset(a)[x] == multiset(b)[x] {
      CountOnce(a, x);
      CountOnce(b, x);
    }
  }

  ghost predicate SortedBy(order: seq<nat>, key: nat -> int) {
    forall i, j :: 0 <= i < j < |order| ==> key(order[i]) <= key(order[j])
  }

  function Inserted(order: seq<nat>, k: nat, x: nat): seq<nat>
    requires k <= |order|
  {
    order[..k] + [x] + order[k..]
  }

  lemma InsertedIsPermutation(order: seq<nat>, k: nat)
    requires IsPermutation(order, |order|) && k <= |order|
    ensures IsPermutation(Inserted(order, k, |order|), |order| + 1)
  {
    var n, longer := |order|, Inserted(order, k, |order|);
    assert longer[k] == n;
    forall x | 0 <= x < n ensures x in longer {
      assert x in order;
      var i :| 0 <= i < n && order[i] == x;
      assert longer[if i < k then i else i + 1] == x;
    }
  }

  lemma InsertedIsSorted(order: seq<nat>, key: nat -> int, k: nat, x: nat)
    requires SortedBy(order, key) && k <= |order|
    requires forall j :: 0 <= j < k ==> key(order[j]) <= key(x)
    requires forall j :: k <= j < |order| ==> key(order[j]) >= key(x)
    ensures SortedBy(Inserted(order, k, x), key)
  {
  }

  lemma PlaceFor(order: seq<nat>, key: nat -> int, x: nat) returns (k: nat)
    requires SortedBy(order, key)
    ensures k <= |order|
    ensures forall j :: 0 <= j < k ==> key(order[j]) <= key(x)
    ensures forall j :: k <= j < |order| ==> key(order[j]) >= key(x)
  {
    k := |order|;
    while k > 0 && key(order[k - 1]) > key(x)
      invariant 0 <= k <= |order| && forall j :: k <= j < |order| ==> key(order[j]) >= key(x)
    {
      k := k - 1;
    }
  }

  lemma SortedPermutation(n: nat, key: nat -> int) returns (order: seq<nat>)
    ensures IsPermutation(order, n) && SortedBy(order, key)
  {
    order := [];
    for x := 0 to n
      invariant |order| == x && IsPermutation(order, x) && SortedBy(order, key)
    {
      var k := PlaceFor(order, key, x);
      InsertedIsPermutation(order, k);
      InsertedIsSorted(order, key, k, x);
      order := Inserted(order, k, x);
    }
  }

  // ----- filtering and flattening

  function FlatMap<A, B>(f: A -> seq<B>, s: seq<A>): seq<B> {
    if s == [] then [] else FlatMap(f, s[..|s| - 1]) + f(s[|s| - 1])
  }

  lemma FlatMapAppend<A, B>(f: A -> seq<B>, s: seq<A>, x: A)
    ensures FlatMap(f, s + [x]) == FlatMap(f, s) + f(x)
  {
    assert (s + [x])[..|s|] == s;
  }

  lemma {:induction false} FlatMapConcat<A, B>(f: A -> seq<B>, a: seq<A>, b: seq<A>)
    ensures FlatMap(f, a + b) == FlatMap(f, a) + FlatMap(f, b)
    decreases |b|
  {
    if b == [] {
      assert a + b == a;
    } else {
      var front, last := b[..|b| - 1], b[|b| - 1];
      FlatMapConcat(f, a, front);
      assert a + b == (a + front) + [last];
      FlatMapAppend(f, a + front, last);
      assert (FlatMap(f, a) + FlatMap(f, front)) + f(last) == FlatMap(f, a) + (FlatMap(f, front) + f(last));
    }
  }

  lemma MiddleMoves<B>(a: seq<B>, b: seq<B>, c: seq<B>)
    ensures multiset((a + b) + c) == multiset(a + c) + multiset(b)
  {
  }

  lemma AroundPlace<A>(s: seq<A>, k: nat)
    requires k < |s|
    ensures s == (s[..k] + [s[k]]) + s[k + 1..]
  {
  }

  lemma FlatMapWithout<A, B>(f: A -> seq<B>, s: seq<A>, k: nat)
    requires k < |s|
    ensures multiset(FlatMap(f, s)) == multiset(FlatMap(f, s[..k] + s[k + 1..])) + multiset(f(s[k]))
  {
    var before, after := s[..k], s[k + 1..];
    AroundPlace(s, k);
    FlatMapConcat(f, before + [s[k]], after);
    FlatMapAppend(f, before, s[k]);
    FlatMapConcat(f, before, after);
    MiddleMoves(FlatMap(f, before), f(s[k]), FlatMap(f, after));
  }

  lemma TakeOut<A>(s: seq<A>, x: A) returns (k: nat)
    requires x in multiset(s)
    ensures k < |s| && s[k] == x && multiset(s) == multiset(s[..k] + s[k + 1..]) + multiset{x}
  {
    k :| 0 <= k < |s| && s[k] == x;
    assert s == (s[..k] + [x]) + s[k + 1..];
    MiddleMoves(s[..k], [x], s[k + 1..]);
  }

  /** The order of the arguments decides the order of the results only. */
  lemma {:induction false} FlatMapPermutes<A, B>(f: A -> seq<B>, a: seq<A>, b: seq<A>)
    requires multiset(a) == multiset(b)
    ensures multiset(FlatMap(f, a)) == multiset(FlatMap(f, b))
    decreases |a|
  {
    if a == [] {
      assert |multiset(b)| == 0;
    } else {
      var front, last := a[..|a| - 1], a[|a| - 1];
      assert a == front + [last];
      assert multiset(a) == multiset(front) + multiset{last};
      var k := TakeOut(b, last);
      assert multiset(front) == multiset(a) - multiset{last} == multiset(b[..k] + b[k + 1..]);
      FlatMapPermutes(f, front, b[..k] + b[k + 1..]);
      FlatMapWithout(f, b, k);
    }
  }

  /** Where the i-th result comes from, if each argument gives at most one. */
  lemma {:induction false} FlatMapAt<A, B>(f: A -> seq<B>, s: seq<A>, i: nat) returns (p: nat)
    requires i < |FlatMap(f, s)| && forall k :: 0 <= k < |s| ==> |f(s[k])| <= 1
    ensures p < |s| && f(s[p]) == [FlatMap(f, s)[i]] && FlatMap(f, s[..p]) == FlatMap(f, s)[..i]
    decreases |s|
  {
    var front := s[..|s| - 1];
    if i < |FlatMap(f, front)| {
      p := FlatMapAt(f, front, i);
      assert front[..p] == s[..p];
    } else {
      p := |front|;
    }
  }

  /** And where the result of the p-th argument goes. */
  lemma {:induction false} FlatMapOf<A, B>(f: A -> seq<B>, s: seq<A>, p: nat)
    requires p < |s|
    ensures FlatMap(f, s[..p]) + f(s[p]) <= FlatMap(f, s)
    decreases |s|
  {
    var front := s[..|s| - 1];
    if p < |front| {
      FlatMapOf(f, front, p);
      assert front[..p] == s[..p];
    } else {
      assert front == s[..p];
    }
  }
}
