/**
 `stableSort`: the sort of the platform need not keep equal elements in order, so every element is tagged
 with its index for the time of the sort, and the tags break the ties. The tag belongs to the object: one that
 occurs twice has the index of its last occurrence.

 A condition that is bound to a name, as in `var ok := P(); ok`, means P(). The verifier takes it as one fact
 instead of splitting it into its parts.
 */
module StableSort {
  import opened JsValues
  import opened Sequences

  /** An object that is sorted; `ss_i` is the temporary tag. */
  class Item<T> {
    const payload: T
    var ss_i: Option<int>

    constructor (payload: T)
      ensures this.payload == payload && ss_i == None
    {
      this.payload := payload;
      ss_i := None;
    }
  }

  // ---------- Orders ----------

  /** The sign of a comparator is that of a total preorder. */
  ghost predicate Preorder<T(!new)>(cmp: (T, T) -> real) {
    && (forall x, y :: cmp(x, y) <= 0.0 <==> cmp(y, x) >= 0.0)
    && (forall x, y, z :: cmp(x, y) <= 0.0 && cmp(y, z) <= 0.0 ==> cmp(x, z) <= 0.0)
  }

  ghost predicate TotalOn<I>(s: seq<I>, le: (I, I) -> bool) {
    && (forall x, y :: x in s && y in s ==> le(x, y) || le(y, x))
    && (forall x, y, z :: x in s && y in s && z in s && le(x, y) && le(y, z) ==> le(x, z))
  }

  ghost predicate Ordered<I>(s: seq<I>, le: (I, I) -> bool) {
    forall i, j :: 0 <= i < j < |s| ==> le(s[i], s[j])
  }

  /** Index x comes before index y: its element is smaller, or equal and further left. */
  predicate Precedes<T>(s: seq<T>, cmp: (T, T) -> real, x: nat, y: nat)
    requires x < |s| && y < |s|
  {
    cmp(s[x], s[y]) < 0.0 || (cmp(s[x], s[y]) == 0.0 && x < y)
  }

  /** The order p of all indices sorts s and keeps the order of equal elements. */
  ghost predicate StableOrder<T>(s: seq<T>, cmp: (T, T) -> real, p: seq<nat>) {
    && |p| == |s|
    && (forall k :: 0 <= k < |p| ==> p[k] < |s|)
    && (forall x: nat :: x < |s| ==> x in p)
    && (forall i, j :: 0 <= i < j < |p| ==> Precedes(s, cmp, p[i], p[j]))
  }

  // ---------- The stable order is unique ----------

  lemma {:induction false} PositionOf<T>(s: seq<T>, cmp: (T, T) -> real, p: seq<nat>, x: nat) returns (m: nat)
    requires StableOrder(s, cmp, p) && x < |s|
    ensures m < |p| && p[m] == x
  {
    assert x in p;
    m :| m < |p| && p[m] == x;
  }

  lemma {:induction false} SameUpTo<T(!new)>(s: seq<T>, cmp: (T, T) -> real, p: seq<nat>, q: seq<nat>, k: nat)
    requires Preorder(cmp) && StableOrder(s, cmp, p) && StableOrder(s, cmp, q) && k <= |s|
    ensures p[..k] == q[..k]
  {
    if k > 0 {
      SameUpTo(s, cmp, p, q, k - 1);
      assert forall i :: 0 <= i < k - 1 ==> p[i] == p[..k - 1][i] == q[..k - 1][i] == q[i];
      var x, y := p[k - 1], q[k - 1];
      if x != y {
        var m := PositionOf(s, cmp, q, x);
        var m' := PositionOf(s, cmp, p, y);
      }
    }
  }

  lemma {:induction false} StableOrderUnique<T(!new)>(s: seq<T>, cmp: (T, T) -> real, p: seq<nat>, q: seq<nat>)
    requires Preorder(cmp) && StableOrder(s, cmp, p) && StableOrder(s, cmp, q)
    ensures p == q
  {
    SameUpTo(s, cmp, p, q, |s|);
    assert p[..|s|] == p && q[..|s|] == q;
  }

  // ---------- The sort of the platform ----------

  /** Some correct sort. Callers know no more of it than its contract: it need not be stable. */
  method NativeSort<I>(s: seq<I>, le: (I, I) -> bool) returns (r: seq<I>)
    requires TotalOn(s, le)
    ensures multiset(r) == multiset(s) && Ordered(r, le)
  {
    r := [];
    var rest := s;
    while rest != []
      invariant multiset(r) + multiset(rest) == multiset(s)
      invariant Ordered(r, le)
      invariant forall x, y :: x in r && y in rest ==> le(x, y)
      decreases |rest|
    {
      MembersOf(r, rest, s);
      var m := Least(rest, le);
      assert rest == rest[..m] + [rest[m]] + rest[m + 1..];
      r := r + [rest[m]];
      rest := rest[..m] + rest[m + 1..];
    }
  }

  lemma {:induction false} MembersOf<I>(r: seq<I>, rest: seq<I>, s: seq<I>)
    requires multiset(r) + multiset(rest) == multiset(s)
    ensures forall x :: x in rest ==> x in s
  {
    forall x | x in rest
      ensures x in s
    {
      assert x in multiset(rest);
      assert x in multiset(s);
    }
  }

  method Least<I>(s: seq<I>, le: (I, I) -> bool) returns (m: nat)
    requires s != [] && TotalOn(s, le)
    ensures m < |s| && forall i :: 0 <= i < |s| ==> le(s[m], s[i])
  {
    m := 0;
    for i := 0 to |s|
      invariant m < |s| && (i == 0 ==> m == 0)
      invariant forall j :: 0 <= j < i ==> le(s[m], s[j])
    {
      assert s[i] in s && s[m] in s;
      if !le(s[m], s[i]) {
        forall j | 0 <= j < i
          ensures le(s[i], s[j])
        {
          assert s[j] in s;
        }
        m := i;
      }
      assert le(s[i], s[i]);
    }
  }

  // ---------- A stable order exists ----------

  /** Where x belongs among the indices q: behind all elements that are not greater. */
  lemma {:induction false} InsertAt<T(!new)>(s: seq<T>, cmp: (T, T) -> real, q: seq<nat>, x: T, k: nat) returns (m: nat)
    requires Preorder(cmp) && StableOrder(s, cmp, q) && k <= |q|
    ensures m <= k
    ensures forall i :: 0 <= i < m ==> cmp(s[q[i]], x) <= 0.0
    ensures forall i :: m <= i < k ==> cmp(s[q[i]], x) > 0.0
  {
    if k == 0 {
      m := 0;
    } else if cmp(s[q[k - 1]], x) <= 0.0 {
      m := k;
      forall i | 0 <= i < k - 1
        ensures cmp(s[q[i]], x) <= 0.0
      {
        assert Precedes(s, cmp, q[i], q[k - 1]);
      }
    } else {
      m := InsertAt(s, cmp, q, x, k - 1);
    }
  }

  lemma {:induction false} StableOrderExists<T(!new)>(s: seq<T>, cmp: (T, T) -> real) returns (p: seq<nat>)
    requires Preorder(cmp)
    ensures StableOrder(s, cmp, p)
  {
    if s == [] {
      p := [];
    } else {
      var n := |s| - 1;
      var q := StableOrderExists(s[..n], cmp);
      var m := InsertAt(s[..n], cmp, q, s[n], |q|);
      p := q[..m] + [n] + q[m..];
      InsertedOrder(s, cmp, q, m);
    }
  }

  /** n is inserted at position m of an order of the indices below n. */
  ghost predicate Inserted<T>(s: seq<T>, cmp: (T, T) -> real, q: seq<nat>, m: nat) {
    && s != [] && StableOrder(s[..|s| - 1], cmp, q) && m <= |q|
    && (forall i :: 0 <= i < m ==> cmp(s[q[i]], s[|s| - 1]) <= 0.0)
    && (forall i :: m <= i < |q| ==> cmp(s[q[i]], s[|s| - 1]) > 0.0)
  }

  lemma {:induction false} InsertedAll<T(!new)>(s: seq<T>, cmp: (T, T) -> real, q: seq<nat>, m: nat, x: nat)
    requires Inserted(s, cmp, q, m) && x < |s|
    ensures x in q[..m] + [|s| - 1] + q[m..]
  {
    if x < |s| - 1 {
      assert x in q;
      assert q == q[..m] + q[m..];
    }
  }

  lemma {:induction false} InsertedPrecedes<T(!new)>(s: seq<T>, cmp: (T, T) -> real, q: seq<nat>, m: nat, i: nat,
                                              j: nat)
    requires Preorder(cmp) && Inserted(s, cmp, q, m) && i < j < |s|
    ensures var p := q[..m] + [|s| - 1] + q[m..]; Precedes(s, cmp, p[i], p[j])
  {
    var n := |s| - 1;
    if i == m {
      Signs(cmp, s[n], s[q[j - 1]], s[n]);
      assert cmp(s[n], s[q[j - 1]]) <= 0.0 <==> cmp(s[q[j - 1]], s[n]) >= 0.0;
    } else if j != m {
      assert Precedes(s[..n], cmp, q[if i < m then i else i - 1], q[if j < m then j else j - 1]);
    }
  }

  lemma {:induction false} InsertedOrder<T(!new)>(s: seq<T>, cmp: (T, T) -> real, q: seq<nat>, m: nat)
    requires Preorder(cmp) && Inserted(s, cmp, q, m)
    ensures StableOrder(s, cmp, q[..m] + [|s| - 1] + q[m..])
  {
    var p := q[..m] + [|s| - 1] + q[m..];
    forall x: nat | x < |s|
      ensures x in p
    {
      InsertedAll(s, cmp, q, m, x);
    }
    forall i, j | 0 <= i < j < |p|
      ensures Precedes(s, cmp, p[i], p[j])
    {
      InsertedPrecedes(s, cmp, q, m, i, j);
    }
  }

  // ---------- stableSort ----------

  /** `sortValue === 0 ? a.ss_i - b.ss_i : sortValue` */
  function TieBreak(sortValue: real, a: int, b: int): real {
    if sortValue == 0.0 then a as real - b as real else sortValue
  }

  function TagIn<I>(tags: map<I, int>, x: I): int {
    if x in tags then tags[x] else 0
  }

  /** The comparator that stableSort hands to the platform, with the tags that the objects carry by then. */
  function TaggedOrder<T>(tags: map<Item<T>, int>, cmp: (T, T) -> real): (Item<T>, Item<T>) -> bool {
    (x: Item<T>, y: Item<T>) => TieBreak(cmp(x.payload, y.payload), TagIn(tags, x), TagIn(tags, y)) <= 0.0
  }

  /** What transitivity gives for signs. */
  lemma {:induction false} Signs<T(!new)>(cmp: (T, T) -> real, x: T, y: T, z: T)
    requires Preorder(cmp)
    ensures cmp(x, y) == 0.0 <==> cmp(y, x) == 0.0
    ensures cmp(x, y) <= 0.0 && cmp(y, z) <= 0.0 ==> cmp(x, z) <= 0.0
    ensures cmp(x, y) <= 0.0 && cmp(y, z) <= 0.0 && cmp(x, z) == 0.0 ==> cmp(x, y) == 0.0 && cmp(y, z) == 0.0
  {
    assert cmp(x, y) <= 0.0 <==> cmp(y, x) >= 0.0;
    assert cmp(y, x) <= 0.0 <==> cmp(x, y) >= 0.0;
    assert cmp(y, z) <= 0.0 <==> cmp(z, y) >= 0.0;
    assert cmp(z, y) <= 0.0 <==> cmp(y, z) >= 0.0;
    assert cmp(z, x) <= 0.0 <==> cmp(x, z) >= 0.0;
    assert cmp(y, z) <= 0.0 && cmp(z, x) <= 0.0 ==> cmp(y, x) <= 0.0;
    assert cmp(z, x) <= 0.0 && cmp(x, y) <= 0.0 ==> cmp(z, y) <= 0.0;
  }

  /** Whatever the tags, the comparator is total and transitive. */
  lemma {:induction false} TaggedTotal<T(!new)>(s: seq<Item<T>>, tags: map<Item<T>, int>, cmp: (T, T) -> real)
    requires Preorder(cmp)
    ensures TotalOn(s, TaggedOrder(tags, cmp))
  {
    var le := TaggedOrder(tags, cmp);
    forall x, y | x in s && y in s
      ensures le(x, y) || le(y, x)
    {
      Signs(cmp, x.payload, y.payload, x.payload);
      assert cmp(x.payload, y.payload) <= 0.0 <==> cmp(y.payload, x.payload) >= 0.0;
    }
    forall x, y, z | x in s && y in s && z in s && le(x, y) && le(y, z)
      ensures le(x, z)
    {
      Signs(cmp, x.payload, y.payload, z.payload);
      Signs(cmp, z.payload, y.payload, x.payload);
      assert cmp(x.payload, z.payload) <= 0.0 <==> cmp(z.payload, x.payload) >= 0.0;
    }
  }

  function Payloads<T>(s: seq<Item<T>>): (r: seq<T>)
    ensures |r| == |s|
  {
    seq(|s|, i requires 0 <= i < |s| => s[i].payload)
  }

  /** The index of the last occurrence. */
  function LastIndex<I(==)>(s: seq<I>, x: I): (n: nat)
    requires x in s
    ensures n < |s| && s[n] == x
    ensures forall i :: n < i < |s| ==> s[i] != x
  {
    if s[|s| - 1] == x then |s| - 1 else LastIndex(s[..|s| - 1], x)
  }

  /** The tags after the first loop. */
  function LastTags<I(==)>(s: seq<I>): map<I, int> {
    map x | x in s :: LastIndex(s, x)
  }

  /** A permutation that is ordered by comparator and last index. */
  ghost predicate LastOrdered<T>(s: seq<Item<T>>, cmp: (T, T) -> real, r: seq<Item<T>>) {
    var ordered := multiset(r) == multiset(s) && Ordered(r, TaggedOrder(LastTags(s), cmp));
    ordered
  }

  /** The objects in the order p of their indices. */
  function Arranged<I>(s: seq<I>, p: seq<nat>): (r: seq<I>)
    requires forall k :: 0 <= k < |p| ==> p[k] < |s|
    ensures |r| == |p|
  {
    seq(|p|, k requires 0 <= k < |p| => s[p[k]])
  }

  /** No different equal object stands between two occurrences of one object. */
  predicate NothingBetween<T>(s: seq<Item<T>>, cmp: (T, T) -> real) {
    forall i, j, k :: 0 <= i < j < k < |s| && s[i] == s[k] && s[j] != s[i] ==>
      cmp(s[i].payload, s[j].payload) != 0.0
  }

  // ---------- Only one arrangement is ordered by last index ----------

  lemma {:induction false} TaggedAntisymmetric<T(!new)>(s: seq<Item<T>>, cmp: (T, T) -> real, x: Item<T>, y: Item<T>)
    requires Preorder(cmp) && x in s && y in s
    requires TaggedOrder(LastTags(s), cmp)(x, y) && TaggedOrder(LastTags(s), cmp)(y, x)
    ensures x == y
  {
    Signs(cmp, x.payload, y.payload, x.payload);
    assert cmp(x.payload, y.payload) <= 0.0 <==> cmp(y.payload, x.payload) >= 0.0;
    assert cmp(y.payload, x.payload) <= 0.0 <==> cmp(x.payload, y.payload) >= 0.0;
  }

  ghost predicate AntisymmetricOn<I>(s: seq<I>, le: (I, I) -> bool) {
    forall x, y :: x in s && y in s && le(x, y) && le(y, x) ==> x == y
  }

  lemma {:induction false} LastTaken<I>(a: seq<I>)
    requires a != []
    ensures multiset(a[..|a| - 1]) == multiset(a) - multiset{a[|a| - 1]}
  {
    assert a == a[..|a| - 1] + [a[|a| - 1]];
  }

  lemma {:induction false} EndsHighest<I>(a: seq<I>, b: seq<I>, le: (I, I) -> bool)
    requires multiset(a) == multiset(b) && a != [] && b != [] && Ordered(b, le)
    ensures a[|a| - 1] in b
    ensures a[|a| - 1] == b[|b| - 1] || le(a[|a| - 1], b[|b| - 1])
  {
    var x := a[|a| - 1];
    assert x in multiset(a);
    assert x in multiset(b);
    var i :| 0 <= i < |b| && b[i] == x;
  }

  lemma {:induction false} OrderedUnique<I>(a: seq<I>, b: seq<I>, le: (I, I) -> bool)
    requires multiset(a) == multiset(b) && Ordered(a, le) && Ordered(b, le) && AntisymmetricOn(a, le)
    ensures a == b
    decreases |a|, 1
  {
    assert |a| == |multiset(a)| == |multiset(b)| == |b|;
    if a != [] {
      var n := |a| - 1;
      EndsHighest(a, b, le);
      EndsHighest(b, a, le);
      assert a[n] == b[n];
      LastTaken(a);
      LastTaken(b);
      UniquePrefix(a[..n], b[..n], a, b, le);
    }
  }

  lemma {:induction false} UniquePrefix<I>(a: seq<I>, b: seq<I>, a': seq<I>, b': seq<I>, le: (I, I) -> bool)
    requires a' != [] && b' != [] && a == a'[..|a'| - 1] && b == b'[..|b'| - 1] && a'[|a'| - 1] == b'[|b'| - 1]
    requires multiset(a) == multiset(b) && Ordered(a', le) && Ordered(b', le) && AntisymmetricOn(a', le)
    ensures a' == b'
    decreases |a|, 2
  {
    OrderedUnique(a, b, le);
    assert a' == a + [a'[|a'| - 1]] && b' == b + [b'[|b'| - 1]];
  }

  lemma {:induction false} LastOrderedUnique<T(!new)>(s: seq<Item<T>>, cmp: (T, T) -> real, r: seq<Item<T>>,
                                               r': seq<Item<T>>)
    requires Preorder(cmp) && LastOrdered(s, cmp, r) && LastOrdered(s, cmp, r')
    ensures r == r'
  {
    forall x | x in r
      ensures x in s
    {
      assert x in multiset(r);
      assert x in multiset(s);
    }
    forall x, y | x in r && y in r && TaggedOrder(LastTags(s), cmp)(x, y) && TaggedOrder(LastTags(s), cmp)(y, x)
      ensures x == y
    {
      TaggedAntisymmetric(s, cmp, x, y);
    }
    OrderedUnique(r, r', TaggedOrder(LastTags(s), cmp));
  }

  // ---------- When it is the stable one ----------

  /** p names each index below n once. */
  ghost predicate IndexOrder(p: seq<nat>, n: nat) {
    && |p| == n && Distinct(p)
    && (forall k :: 0 <= k < |p| ==> p[k] < n)
    && (forall x: nat :: x < n ==> x in p)
  }

  lemma {:induction false} WithoutLast(p: seq<nat>, n: nat) returns (m: nat)
    requires IndexOrder(p, n + 1)
    ensures m < |p| && p[m] == n && IndexOrder(p[..m] + p[m + 1..], n)
  {
    assert n in p;
    m :| 0 <= m < |p| && p[m] == n;
    assert p == p[..m] + [n] + p[m + 1..];
    var q := p[..m] + p[m + 1..];
    forall x: nat | x < n
      ensures x in q
    {
      assert x in p;
    }
  }

  lemma {:induction false} ArrangedSplit<I>(s: seq<I>, p: seq<nat>, m: nat)
    requires s != [] && IndexOrder(p, |s|) && m < |p| && p[m] == |s| - 1
    requires IndexOrder(p[..m] + p[m + 1..], |s| - 1)
    ensures var r := Arranged(s[..|s| - 1], p[..m] + p[m + 1..]);
            Arranged(s, p) == r[..m] + [s[|s| - 1]] + r[m..]
  {
  }

  lemma {:induction false} OneMore<I>(r: seq<I>, m: nat, x: I)
    requires m <= |r|
    ensures multiset(r[..m] + [x] + r[m..]) == multiset(r) + multiset{x}
  {
    assert r == r[..m] + r[m..];
  }

  lemma {:induction false} ArrangedPermutes<I>(s: seq<I>, p: seq<nat>)
    requires IndexOrder(p, |s|)
    ensures multiset(Arranged(s, p)) == multiset(s)
  {
    if s != [] {
      var n := |s| - 1;
      var m := WithoutLast(p, n);
      ArrangedSplit(s, p, m);
      var q := p[..m] + p[m + 1..];
      OneMore(Arranged(s[..n], q), m, s[n]);
      ArrangedPermutes(s[..n], q);
      assert s == s[..n] + [s[n]];
    }
  }

  lemma {:induction false} StableDistinct<T(!new)>(s: seq<T>, cmp: (T, T) -> real, p: seq<nat>)
    requires Preorder(cmp) && StableOrder(s, cmp, p)
    ensures Distinct(p)
  {
    forall i, j | 0 <= i < j < |p|
      ensures p[i] != p[j]
    {
      assert Precedes(s, cmp, p[i], p[j]);
      assert cmp(s[p[i]], s[p[i]]) <= 0.0 <==> cmp(s[p[i]], s[p[i]]) >= 0.0;
    }
  }

  lemma {:induction false} LastBefore<T(!new)>(s: seq<Item<T>>, cmp: (T, T) -> real, x: nat, y: nat)
    requires NothingBetween(s, cmp) && x < y < |s| && s[x] != s[y] && cmp(s[x].payload, s[y].payload) == 0.0
    ensures LastIndex(s, s[x]) < y <= LastIndex(s, s[y])
  {
  }

  /** With nothing between, equal objects are in one order by first and by last index. */
  lemma {:induction false} StableIsLast<T(!new)>(s: seq<Item<T>>, cmp: (T, T) -> real, p: seq<nat>)
    requires Preorder(cmp) && StableOrder(Payloads(s), cmp, p) && NothingBetween(s, cmp)
    ensures LastOrdered(s, cmp, Arranged(s, p))
  {
    StableDistinct(Payloads(s), cmp, p);
    ArrangedPermutes(s, p);
    var r, le := Arranged(s, p), TaggedOrder(LastTags(s), cmp);
    forall i, j | 0 <= i < j < |r|
      ensures le(r[i], r[j])
    {
      var x, y := p[i], p[j];
      assert Precedes(Payloads(s), cmp, x, y);
      if cmp(s[x].payload, s[y].payload) == 0.0 && s[x] != s[y] {
        LastBefore(s, cmp, x, y);
      }
    }
  }

  lemma {:induction false} Before<T(!new)>(s: seq<T>, cmp: (T, T) -> real, p: seq<nat>, x: nat, y: nat)
    returns (i: nat, j: nat)
    requires Preorder(cmp) && StableOrder(s, cmp, p) && x < y < |s| && cmp(s[x], s[y]) == 0.0
    ensures i < j < |p| && p[i] == x && p[j] == y
  {
    i := PositionOf(s, cmp, p, x);
    j := PositionOf(s, cmp, p, y);
    Signs(cmp, s[x], s[y], s[x]);
    assert j < i ==> Precedes(s, cmp, y, x);
  }

  /** Of an object on both sides of an equal one, the tags put all occurrences on one side. */
  lemma {:induction false} LastIsNotStable<T(!new)>(s: seq<Item<T>>, cmp: (T, T) -> real, p: seq<nat>)
    requires Preorder(cmp) && StableOrder(Payloads(s), cmp, p) && LastOrdered(s, cmp, Arranged(s, p))
    ensures NothingBetween(s, cmp)
  {
    forall i, j, k | 0 <= i < j < k < |s| && s[i] == s[k] && cmp(s[i].payload, s[j].payload) == 0.0
      ensures s[j] == s[i]
    {
      Signs(cmp, s[i].payload, s[j].payload, s[i].payload);
      var a, b := Before(Payloads(s), cmp, p, i, j);
      var b', c := Before(Payloads(s), cmp, p, j, k);
      StableDistinct(Payloads(s), cmp, p);
      assert TaggedOrder(LastTags(s), cmp)(Arranged(s, p)[a], Arranged(s, p)[b]);
      assert TaggedOrder(LastTags(s), cmp)(Arranged(s, p)[b'], Arranged(s, p)[c]);
    }
  }

  /** The arrangement by last index is the stable one exactly when nothing stands between. */
  lemma {:induction false} LastIsStable<T(!new)>(s: seq<Item<T>>, cmp: (T, T) -> real, p: seq<nat>, r: seq<Item<T>>)
    requires Preorder(cmp) && StableOrder(Payloads(s), cmp, p) && LastOrdered(s, cmp, r)
    ensures r == Arranged(s, p) <==> NothingBetween(s, cmp)
  {
    if NothingBetween(s, cmp) {
      StableIsLast(s, cmp, p);
      LastOrderedUnique(s, cmp, r, Arranged(s, p));
    }
    if r == Arranged(s, p) {
      LastIsNotStable(s, cmp, p);
    }
  }

  lemma {:induction false} TwiceOrdered<T(!new)>(x: Item<T>, y: Item<T>, cmp: (T, T) -> real)
    requires Preorder(cmp) && x != y && cmp(x.payload, y.payload) == 0.0
    ensures LastOrdered([x, y, x], cmp, [y, x, x])
  {
    Signs(cmp, x.payload, y.payload, x.payload);
    assert cmp(x.payload, x.payload) <= 0.0 <==> cmp(x.payload, x.payload) >= 0.0;
  }

  /** Of x, y and again x, all equal, the tag of x is 2 and that of y is 1: y comes first. */
  lemma {:induction false} TwiceAround<T(!new)>(x: Item<T>, y: Item<T>, cmp: (T, T) -> real, r: seq<Item<T>>)
    requires Preorder(cmp) && x != y && cmp(x.payload, y.payload) == 0.0
    requires LastOrdered([x, y, x], cmp, r)
    ensures r == [y, x, x] && !NothingBetween([x, y, x], cmp)
  {
    var s := [x, y, x];
    TwiceOrdered(x, y, cmp);
    LastOrderedUnique(s, cmp, r, [y, x, x]);
    assert s[0] == s[2] && s[1] != s[0];
  }

  // ---------- The operation ----------

  /** The first loop: each object gets its index; the comparator later reads the tags that are then in place. */
  method Tag<T>(a: array<Item<T>>) returns (tags: map<Item<T>, int>)
    modifies a[..]
    ensures tags == LastTags(a[..])
  {
    for i := 0 to a.Length
      invariant forall k :: 0 <= k < i ==> a[k].ss_i == Some(LastIndex(a[..i], a[k]))
    {
      a[i].ss_i := Some(i);
      assert a[..i + 1][..i] == a[..i];
    }
    assert a[..a.Length] == a[..];
    tags := map x | x in a[..] && x.ss_i.Some? :: x.ss_i.value;
    assert forall x :: x in a[..] ==> x.ss_i == Some(LastIndex(a[..], x));
  }

  method SortTagged<T(!new)>(s: seq<Item<T>>, tags: map<Item<T>, int>, cmp: (T, T) -> real) returns (r: seq<Item<T>>)
    requires Preorder(cmp) && tags == LastTags(s)
    ensures LastOrdered(s, cmp, r) && |r| == |s| && forall x :: x in r ==> x in s
  {
    TaggedTotal(s, tags, cmp);
    r := NativeSort(s, TaggedOrder(tags, cmp));
    assert |r| == |multiset(r)| == |multiset(s)| == |s|;
    assert multiset([]) + multiset(r) == multiset(s);
    MembersOf([], r, s);
  }

  method PutBack<T>(a: array<Item<T>>, r: seq<Item<T>>)
    requires |r| == a.Length
    modifies a
    ensures a[..] == r
  {
    for i := 0 to a.Length
      invariant a[..i] == r[..i]
    {
      a[i] := r[i];
    }
  }

  /** The last loop: the tags are deleted. */
  method Untag<T>(a: array<Item<T>>)
    modifies a[..]
    ensures forall k :: 0 <= k < a.Length ==> a[k].ss_i == None
  {
    for i := 0 to a.Length
      invariant forall k :: 0 <= k < i ==> a[k].ss_i == None
    {
      a[i].ss_i := None;
    }
  }

  /** The sorted objects in the array, without tags. */
  method Finish<T>(a: array<Item<T>>, r: seq<Item<T>>)
    requires |r| == a.Length && forall x :: x in r ==> x in a[..]
    modifies a, a[..]
    ensures a[..] == r && forall k :: 0 <= k < a.Length ==> a[k].ss_i == None
  {
    PutBack(a, r);
    assert forall k :: 0 <= k < a.Length ==> a[k] == a[..][k] && a[k] in r;
    Untag(a);
  }

  /**
   The array is put into the one order by comparator and last index, and the tags are gone. That is the
   arrangement that keeps equal elements as they were, if and only if no different equal object stood between
   two occurrences of one object; it is when no object occurs twice.
   */
  method StableSort<T(!new)>(a: array<Item<T>>, cmp: (T, T) -> real) returns (ghost p: seq<nat>)
    requires Preorder(cmp)
    modifies a, a[..]
    ensures LastOrdered(old(a[..]), cmp, a[..])
    ensures StableOrder(Payloads(old(a[..])), cmp, p)
    ensures a[..] == Arranged(old(a[..]), p) <==> NothingBetween(old(a[..]), cmp)
    ensures Distinct(old(a[..])) ==> a[..] == Arranged(old(a[..]), p)
    ensures forall k :: 0 <= k < a.Length ==> a[k].ss_i == None
  {
    ghost var s := a[..];
    var tags := Tag(a);
    var r := SortTagged(a[..], tags, cmp);
    p := StableOrderExists(Payloads(s), cmp);
    LastIsStable(s, cmp, p, r);
    Finish(a, r);
  }
}
