/**
 Sums of JavaScript numbers, and objects that are used as dictionaries of sums.

 `undefined` and NaN behave alike in a sum: once one of them is added the sum is NaN.

 A condition that is bound to a name, as in `var ok := P(); ok`, means P(). The verifier takes it as one fact
 instead of splitting it into its parts.
 */
module Grouping {
  import opened Sequences

  datatype Number = Val(v: real) | NaN

  function Plus(a: Number, b: Number): Number {
    if a.Val? && b.Val? then Val(a.v + b.v) else NaN
  }

  function SumOver<T>(s: seq<T>, f: T -> Number): Number {
    if s == [] then Val(0.0) else Plus(SumOver(s[..|s| - 1], f), f(s[|s| - 1]))
  }

  lemma {:induction false} SumOfPrefix<T>(s: seq<T>, n: nat, f: T -> Number)
    requires n < |s|
    ensures SumOver(s[..n + 1], f) == Plus(SumOver(s[..n], f), f(s[n]))
  {
    assert s[..n + 1][..n] == s[..n];
  }

  lemma {:induction false} SumConcat<T>(a: seq<T>, b: seq<T>, f: T -> Number)
    ensures SumOver(a + b, f) == Plus(SumOver(a, f), SumOver(b, f))
  {
    if b == [] {
      assert a + b == a;
    } else {
      assert (a + b)[..|a + b| - 1] == a + b[..|b| - 1];
      SumConcat(a, b[..|b| - 1], f);
    }
  }

  lemma {:induction false} SplitAt<T>(s: seq<T>, i: nat)
    requires i < |s|
    ensures s == s[..i] + [s[i]] + s[i + 1..]
  {
  }

  /** Taking an element out of the middle takes its value out of the sum. */
  lemma {:induction false} SumWithout<T>(s: seq<T>, i: nat, f: T -> Number)
    requires i < |s|
    ensures SumOver(s, f) == Plus(SumOver(s[..i] + s[i + 1..], f), f(s[i]))
  {
    var a, b, c := s[..i], [s[i]], s[i + 1..];
    SplitAt(s, i);
    SumThree(a, b, c, f);
    SumConcat(a, c, f);
    SumOne(s[i], f);
  }

  lemma {:induction false} SumThree<T>(a: seq<T>, b: seq<T>, c: seq<T>, f: T -> Number)
    ensures SumOver(a + b + c, f) == Plus(Plus(SumOver(a, f), SumOver(b, f)), SumOver(c, f))
  {
    SumConcat(a + b, c, f);
    SumConcat(a, b, f);
  }

  lemma {:induction false} SumOne<T>(x: T, f: T -> Number)
    ensures SumOver([x], f) == f(x)
  {
    assert [x][..0] == [];
  }

  /** A sum does not depend on the order of its elements. */
  lemma {:induction false} SumPermutes<T>(a: seq<T>, b: seq<T>, f: T -> Number)
    requires multiset(a) == multiset(b)
    ensures SumOver(a, f) == SumOver(b, f)
  {
    if a == [] {
      assert |b| == |multiset(b)| == 0;
    } else {
      var n := |a| - 1;
      assert a == a[..n] + [a[n]];
      assert a[n] in multiset(b);
      var i :| 0 <= i < |b| && b[i] == a[n];
      assert b == b[..i] + [b[i]] + b[i + 1..];
      assert multiset(b[..i] + b[i + 1..]) == multiset(b) - multiset{b[i]};
      assert multiset(a[..n]) == multiset(a) - multiset{a[n]};
      SumPermutes(a[..n], b[..i] + b[i + 1..], f);
      SumWithout(b, i, f);
    }
  }

  lemma {:induction false} SumAgrees<T>(s: seq<T>, f: T -> Number, g: T -> Number)
    requires forall x :: x in s ==> f(x) == g(x)
    ensures SumOver(s, f) == SumOver(s, g)
  {
    if s != [] {
      SumAgrees(s[..|s| - 1], f, g);
    }
  }

  /** Two functions that differ at one element only: the rest of both sums is the same. */
  lemma {:induction false} SumChange<T>(s: seq<T>, i: nat, f: T -> Number, g: T -> Number) returns (rest: Number)
    requires i < |s| && forall j :: 0 <= j < |s| && j != i ==> f(s[j]) == g(s[j])
    ensures SumOver(s, f) == Plus(rest, f(s[i])) && SumOver(s, g) == Plus(rest, g(s[i]))
  {
    SumWithout(s, i, f);
    SumWithout(s, i, g);
    SumAgrees(s[..i] + s[i + 1..], f, g);
    rest := SumOver(s[..i] + s[i + 1..], f);
  }

  /** Exchanging the value at one element. */
  lemma {:induction false} SumExchange<T>(s: seq<T>, i: nat, f: T -> Number, g: T -> Number)
    requires i < |s| && forall j :: 0 <= j < |s| && j != i ==> f(s[j]) == g(s[j])
    ensures Plus(SumOver(s, g), f(s[i])) == Plus(SumOver(s, f), g(s[i]))
  {
    var rest := SumChange(s, i, f, g);
  }

  lemma {:induction false} SumAppend<T>(s: seq<T>, x: T, f: T -> Number, g: T -> Number)
    requires forall y :: y in s ==> f(y) == g(y)
    ensures SumOver(s + [x], g) == Plus(SumOver(s, f), g(x))
  {
    SumAgrees(s, f, g);
    SumConcat(s, [x], g);
    SumOne(x, g);
  }

  // ---------- Dictionaries of sums ----------

  /** An object with its property names in the order in which they were added. */
  datatype Dictionary = Dictionary(keys: seq<string>, vals: map<string, Number>) {
    ghost predicate Valid() {
      && (forall k :: k in keys <==> k in vals)
      && Distinct(keys)
    }

    function Put(key: string, value: Number): Dictionary {
      Dictionary(if key in vals then keys else keys + [key], vals[key := value])
    }

    function At(key: string): Number {
      if key in vals then vals[key] else Val(0.0)
    }
  }

  datatype Item = Item(key: string, value: Number)

  /** `if (o[key] == undefined) o[key] = 0; o[key] += value;` */
  function Bump(o: Dictionary, it: Item): Dictionary {
    o.Put(it.key, Plus(o.At(it.key), it.value))
  }

  /** `o[key] += value;` on a missing property makes it NaN. */
  function AddTo(o: Dictionary, it: Item): Dictionary {
    o.Put(it.key, if it.key in o.vals then Plus(o.vals[it.key], it.value) else NaN)
  }

  /** One grouped pass over the items. */
  function Grouped(base: Dictionary, items: seq<Item>): Dictionary {
    if items == [] then base else Bump(Grouped(base, items[..|items| - 1]), items[|items| - 1])
  }

  function Added(base: Dictionary, items: seq<Item>): Dictionary {
    if items == [] then base else AddTo(Added(base, items[..|items| - 1]), items[|items| - 1])
  }

  function ValueFor(key: string): Item -> Number {
    (it: Item) => if it.key == key then it.value else Val(0.0)
  }

  /** The sum of the values of one group. */
  function GroupSum(items: seq<Item>, key: string): Number {
    SumOver(items, ValueFor(key))
  }

  predicate HasKey(items: seq<Item>, key: string) {
    exists i :: 0 <= i < |items| && items[i].key == key
  }

  lemma {:induction false} HasKeyStep(items: seq<Item>, key: string)
    requires items != []
    ensures HasKey(items, key) <==> HasKey(items[..|items| - 1], key) || items[|items| - 1].key == key
  {
    assert forall i :: 0 <= i < |items| - 1 ==> items[..|items| - 1][i] == items[i];
  }

  lemma {:induction false} NoKeyNoSum(items: seq<Item>, key: string)
    requires !HasKey(items, key)
    ensures GroupSum(items, key) == Val(0.0)
  {
    if items != [] {
      HasKeyStep(items, key);
      NoKeyNoSum(items[..|items| - 1], key);
    }
  }

  lemma {:induction false} PlusAssociates(a: Number, b: Number, c: Number)
    ensures Plus(Plus(a, b), c) == Plus(a, Plus(b, c))
  {
  }

  lemma {:induction false} BumpAt(o: Dictionary, it: Item, key: string)
    requires o.Valid()
    ensures var p := Bump(o, it);
            && p.Valid() && (key in p.vals <==> key in o.vals || it.key == key)
            && p.At(key) == Plus(o.At(key), ValueFor(key)(it))
  {
  }

  lemma {:induction false} GroupedValid(base: Dictionary, items: seq<Item>)
    requires base.Valid()
    ensures var valid := Grouped(base, items).Valid(); valid
  {
    if items != [] {
      GroupedValid(base, items[..|items| - 1]);
      BumpAt(Grouped(base, items[..|items| - 1]), items[|items| - 1], "");
    }
  }

  lemma {:induction false} GroupedKeys(base: Dictionary, items: seq<Item>, key: string)
    ensures key in Grouped(base, items).vals <==> key in base.vals || HasKey(items, key)
  {
    if items != [] {
      GroupedKeys(base, items[..|items| - 1], key);
      HasKeyStep(items, key);
    }
  }

  /** A grouped pass adds to each group the sum of its values, and makes the groups that are missing. */
  lemma {:induction false} GroupedAt(base: Dictionary, items: seq<Item>, key: string)
    requires base.Valid()
    ensures Grouped(base, items).At(key) == Plus(base.At(key), GroupSum(items, key))
  {
    if items != [] {
      var init, it := items[..|items| - 1], items[|items| - 1];
      GroupedAt(base, init, key);
      GroupedValid(base, init);
      BumpAt(Grouped(base, init), it, key);
      PlusAssociates(base.At(key), GroupSum(init, key), ValueFor(key)(it));
    }
  }

  /** Adding to groups that are all there is the same as a grouped pass. */
  lemma {:induction false} AddedAt(base: Dictionary, items: seq<Item>, key: string)
    requires base.Valid()
    ensures var o := Added(base, items);
            && o.Valid() && (key in o.vals <==> key in base.vals || HasKey(items, key))
            && o.At(key) == (if key in base.vals then Plus(base.At(key), GroupSum(items, key))
                             else if HasKey(items, key) then NaN else Val(0.0))
  {
    if items != [] {
      var init, it := items[..|items| - 1], items[|items| - 1];
      var o := Added(base, init);
      AddedAt(base, init, key);
      HasKeyStep(items, key);
    }
  }

  lemma {:induction false} AddedConcat(base: Dictionary, a: seq<Item>, b: seq<Item>)
    ensures Added(base, a + b) == Added(Added(base, a), b)
  {
    if b == [] {
      assert a + b == a;
    } else {
      assert (a + b)[..|a + b| - 1] == a + b[..|b| - 1];
      AddedConcat(base, a, b[..|b| - 1]);
    }
  }
}
