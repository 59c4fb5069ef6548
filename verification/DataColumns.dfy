/**
 How the Data module deals out table columns: readers that name a column keep it, the others take
 the columns that are still free, and what then remains goes to series made up on the spot.

 A condition that is bound to a name, as in `var ok := P(); ok`, means P(). The verifier takes it as one fact
 instead of splitting it into its parts.
 */
module DataColumns {
  import opened JsValues
  import opened Sequences

  datatype Reader = Reader(column: Option<nat>, name: Option<string>)

  // ---------- Free columns ----------

  function Referenced(readers: seq<Reader>): seq<nat> {
    if readers == [] then []
    else
      var before, r := Referenced(readers[..|readers| - 1]), readers[|readers| - 1];
      if r.column.Some? then before + [r.column.value] else before
  }

  function AllReferenced(builders: seq<seq<Reader>>): seq<nat> {
    if builders == [] then [] else AllReferenced(builders[..|builders| - 1]) + Referenced(builders[|builders| - 1])
  }

  predicate NamedIn(readers: seq<Reader>, c: nat) {
    exists i :: 0 <= i < |readers| && readers[i].column == Some(c)
  }

  /** Some reader of some builder names the column. */
  predicate Named(builders: seq<seq<Reader>>, c: nat) {
    exists s :: 0 <= s < |builders| && NamedIn(builders[s], c)
  }

  lemma {:induction false} ReferencedIs(readers: seq<Reader>, c: nat)
    ensures c in Referenced(readers) <==> NamedIn(readers, c)
  {
    if readers != [] {
      var n := |readers| - 1;
      ReferencedIs(readers[..n], c);
      assert forall i :: 0 <= i < n ==> readers[..n][i] == readers[i];
      assert NamedIn(readers, c) <==> NamedIn(readers[..n], c) || readers[n].column == Some(c);
    }
  }

  lemma {:induction false} AllReferencedIs(builders: seq<seq<Reader>>, c: nat)
    ensures c in AllReferenced(builders) <==> Named(builders, c)
  {
    if builders != [] {
      var n := |builders| - 1;
      AllReferencedIs(builders[..n], c);
      ReferencedIs(builders[n], c);
      assert forall i :: 0 <= i < n ==> builders[..n][i] == builders[i];
      assert Named(builders, c) <==> Named(builders[..n], c) || NamedIn(builders[n], c);
    }
  }

  /** The columns below n that are not in `used`, from left to right. */
  function Free(n: nat, used: seq<nat>): seq<nat> {
    if n == 0 then [] else if n - 1 in used then Free(n - 1, used) else Free(n - 1, used) + [n - 1]
  }

  predicate Ascending(s: seq<nat>) {
    forall i, j :: 0 <= i < j < |s| ==> s[i] < s[j]
  }

  /** Free columns are exactly the columns of the table that no reader names. */
  lemma {:induction false} FreeIs(n: nat, used: seq<nat>)
    ensures Ascending(Free(n, used))
    ensures forall c: nat :: c in Free(n, used) <==> c < n && c !in used
  {
    if n > 0 {
      FreeIs(n - 1, used);
      var before := Free(n - 1, used);
      assert forall i :: 0 <= i < |before| ==> before[i] in before;
    }
  }

  /** From left to right the columns of the table that no reader names. */
  ghost predicate AreFree(free: seq<nat>, n: nat, builders: seq<seq<Reader>>) {
    Ascending(free) && forall c: nat :: c in free <==> c < n && !Named(builders, c)
  }

  lemma {:induction false} FreeOf(n: nat, builders: seq<seq<Reader>>)
    ensures var ok := AreFree(Free(n, AllReferenced(builders)), n, builders); ok
  {
    FreeIs(n, AllReferenced(builders));
    forall c: nat
      ensures c in AllReferenced(builders) <==> Named(builders, c)
    {
      AllReferencedIs(builders, c);
    }
  }

  /** `flags[c] = false` on an array of JavaScript, which grows when c lies beyond its end. */
  method Clear(flags: seq<bool>, c: nat) returns (r: seq<bool>)
    ensures |r| == if c < |flags| then |flags| else c + 1
    ensures forall i :: 0 <= i < |r| ==> r[i] == (i < |flags| && i != c && flags[i])
  {
    r := flags;
    if c < |r| {
      r := r[c := false];
    } else {
      r := r + seq(c + 1 - |r|, _ => false);
    }
  }

  /** `flags` says of each column whether it is free, when the columns in `used` are taken. */
  predicate Flagged(flags: seq<bool>, n: nat, used: seq<nat>) {
    n <= |flags| && forall i :: 0 <= i < |flags| ==> flags[i] == (i < n && i !in used)
  }

  method ClearAll(start: seq<bool>, columns: seq<nat>, n: nat, ghost used: seq<nat>) returns (flags: seq<bool>)
    requires Flagged(start, n, used)
    ensures Flagged(flags, n, used + columns)
  {
    flags := start;
    for i := 0 to |columns|
      invariant Flagged(flags, n, used + columns[..i])
    {
      flags := Clear(flags, columns[i]);
      assert columns[..i + 1] == columns[..i] + [columns[i]];
    }
    assert columns[..|columns|] == columns;
  }

  // ---------- Filling the readers ----------

  datatype Filling = Filling(readers: seq<Reader>, free: seq<nat>)

  /** Every reader without a column takes the first free one, while there is one. */
  function Filled(readers: seq<Reader>, free: seq<nat>): (f: Filling)
    ensures |f.readers| == |readers|
  {
    if readers == [] then Filling([], free)
    else
      var f, r := Filled(readers[..|readers| - 1], free), readers[|readers| - 1];
      if r.column.Some? then Filling(f.readers + [r], f.free)
      else if f.free == [] then Filling(f.readers + [r], [])
      else Filling(f.readers + [r.(column := Some(f.free[0]))], f.free[1..])
  }

  predicate Enough(readers: seq<Reader>) {
    forall i :: 0 <= i < |readers| ==> readers[i].column.Some?
  }

  /** The readers without a column. */
  function Unset(readers: seq<Reader>): nat {
    if readers == [] then 0
    else Unset(readers[..|readers| - 1]) + if readers[|readers| - 1].column.None? then 1 else 0
  }

  /** The columns that readers got between `before` and `after`, in the order of the readers. */
  function Given(before: seq<Reader>, after: seq<Reader>): seq<nat>
    requires |before| == |after|
  {
    if before == [] then []
    else
      var n := |before| - 1;
      var given := Given(before[..n], after[..n]);
      if before[n].column.None? && after[n].column.Some? then given + [after[n].column.value] else given
  }

  /** What reader i holds afterwards: its own column, or the free column it finds in its turn. */
  lemma {:induction false} FilledAt(readers: seq<Reader>, free: seq<nat>, i: nat)
    requires i < |readers|
    ensures var f, u := Filled(readers, free), Unset(readers[..i]);
            && f.readers[i].name == readers[i].name
            && f.readers[i].column ==
               if readers[i].column.Some? then readers[i].column
               else if u < |free| then Some(free[u]) else None
    decreases |readers|
  {
    var n := |readers| - 1;
    FilledFree(readers[..n], free);
    if i < n {
      FilledAt(readers[..n], free, i);
      assert readers[..n][..i] == readers[..i];
    }
  }

  lemma {:induction false} FilledFree(readers: seq<Reader>, free: seq<nat>)
    ensures Filled(readers, free).free == if Unset(readers) <= |free| then free[Unset(readers)..] else []
  {
    if readers != [] {
      FilledFree(readers[..|readers| - 1], free);
    }
  }

  /** No column is lost or handed out twice: the columns given away and those left make up the free ones. */
  lemma {:induction false} FilledTakes(readers: seq<Reader>, free: seq<nat>)
    ensures Given(readers, Filled(readers, free).readers) + Filled(readers, free).free == free
  {
    if readers != [] {
      var n := |readers| - 1;
      FilledTakes(readers[..n], free);
      var f := Filled(readers, free);
      assert f.readers[..n] == Filled(readers[..n], free).readers;
    }
  }

  /** A builder is complete exactly when there were columns for all readers without one. */
  lemma {:induction false} EnoughIff(readers: seq<Reader>, free: seq<nat>)
    ensures Enough(Filled(readers, free).readers) <==> Unset(readers) <= |free|
  {
    if readers != [] {
      var n := |readers| - 1;
      var f := Filled(readers, free);
      EnoughIff(readers[..n], free);
      FilledFree(readers[..n], free);
      assert f.readers == Filled(readers[..n], free).readers + [f.readers[n]];
      EnoughAppend(Filled(readers[..n], free).readers, f.readers[n]);
    }
  }

  lemma {:induction false} EnoughAppend(readers: seq<Reader>, r: Reader)
    ensures Enough(readers + [r]) <==> Enough(readers) && r.column.Some?
  {
    assert forall i :: 0 <= i < |readers| ==> (readers + [r])[i] == readers[i];
    assert (readers + [r])[|readers|] == r;
  }

  // ---------- The operations ----------

  /** The array of free columns, which the builders share and consume. */
  class FreeColumns {
    var items: seq<nat>

    constructor (items: seq<nat>)
      ensures this.items == items
    {
      this.items := items;
    }

    /** `shift()`, undefined on an empty array. */
    method Shift() returns (c: Option<nat>)
      modifies this
      ensures if old(items) == [] then c == None && items == []
              else c == Some(old(items[0])) && items == old(items[1..])
    {
      if items == [] {
        c := None;
      } else {
        c := Some(items[0]);
        items := items[1..];
      }
    }

    /** `inArray` and `splice`. */
    method Remove(c: nat)
      modifies this
      ensures items == Without(old(items), c)
    {
      var i := 0;
      while i < |items| && items[i] != c
        invariant 0 <= i <= |items| && c !in items[..i] && items == old(items)
      {
        i := i + 1;
      }
      if i < |items| {
        WithoutAt(items, c, i);
        items := items[..i] + items[i + 1..];
      } else {
        WithoutNone(items, c);
      }
    }
  }

  function Without(s: seq<nat>, c: nat): seq<nat> {
    if s == [] then [] else if s[0] == c then s[1..] else [s[0]] + Without(s[1..], c)
  }

  lemma {:induction false} WithoutAt(s: seq<nat>, c: nat, i: nat)
    requires i < |s| && s[i] == c && c !in s[..i]
    ensures Without(s, c) == s[..i] + s[i + 1..]
  {
    if i > 0 {
      assert s[0] in s[..i] && s[1..][..i - 1] == s[..i][1..];
      WithoutAt(s[1..], c, i - 1);
    }
  }

  lemma {:induction false} WithoutNone(s: seq<nat>, c: nat)
    requires c !in s
    ensures Without(s, c) == s
  {
    if s != [] {
      WithoutNone(s[1..], c);
    }
  }

  class SeriesBuilder {
    var readers: seq<Reader>

    constructor ()
      ensures readers == []
    {
      readers := [];
    }

    method AddColumnReader(column: Option<nat>, name: Option<string>)
      modifies this
      ensures readers == old(readers) + [Reader(column, name)]
    {
      readers := readers + [Reader(column, name)];
    }

    method GetReferencedColumnIndexes() returns (columns: seq<nat>)
      ensures columns == Referenced(readers)
    {
      columns := [];
      for i := 0 to |readers|
        invariant columns == Referenced(readers[..i])
      {
        assert readers[..i + 1][..i] == readers[..i];
        if readers[i].column.Some? {
          columns := columns + [readers[i].column.value];
        }
      }
      assert readers[..|readers|] == readers;
    }

    method FillReaders(free: FreeColumns)
      modifies this, free
      ensures Filling(readers, free.items) == Filled(old(readers), old(free.items))
    {
      ghost var was := readers;
      for i := 0 to |readers|
        invariant |readers| == |was|
        invariant Filling(readers[..i], free.items) == Filled(was[..i], old(free.items))
        invariant readers[i..] == was[i..]
      {
        assert was[..i + 1][..i] == was[..i];
        assert readers[i..][0] == was[i..][0] && readers[i..][1..] == was[i..][1..];
        ghost var before := readers;
        if readers[i].column.None? {
          var c := free.Shift();
          readers := readers[i := readers[i].(column := c)];
        }
        assert readers[..i + 1] == before[..i] + [readers[i]];
        assert readers[i + 1..] == before[i..][1..];
      }
      assert readers[..|was|] == readers && was[..|was|] == was;
    }

    method PopulateColumns(free: FreeColumns) returns (enoughColumns: bool)
      modifies this, free
      ensures Filling(readers, free.items) == Filled(old(readers), old(free.items))
      ensures enoughColumns == Enough(readers)
    {
      FillReaders(free);
      enoughColumns := true;
      for i := 0 to |readers|
        invariant enoughColumns == Enough(readers[..i])
      {
        if readers[i].column.None? {
          enoughColumns := false;
          assert readers[..i + 1][i].column.None?;
        }
        assert Enough(readers[..i + 1]) ==> Enough(readers[..i]) by {
          assert forall k :: 0 <= k < i ==> readers[..i][k] == readers[..i + 1][k];
        }
      }
      assert readers[..|readers|] == readers;
    }
  }

  // ---------- The whole allocation ----------

  /** The builders of the series mapping, after they took their columns, and what is left. */
  datatype Pass = Pass(builders: seq<seq<Reader>>, free: seq<nat>)

  function PopulateAll(builders: seq<seq<Reader>>, free: seq<nat>): (p: Pass)
    ensures |p.builders| == |builders|
  {
    if builders == [] then Pass([], free)
    else
      var p := PopulateAll(builders[..|builders| - 1], free);
      var f := Filled(builders[|builders| - 1], p.free);
      Pass(p.builders + [f.readers], f.free)
  }

  function Blank(names: seq<string>): (r: seq<Reader>)
    ensures |r| == |names|
  {
    if names == [] then [] else Blank(names[..|names| - 1]) + [Reader(None, Some(names[|names| - 1]))]
  }

  /** The readers of a series made up on the spot: x from the first column, one reader per value. */
  function NewReaders(names: seq<string>): (r: seq<Reader>)
    ensures |r| == |names| + 1
  {
    [Reader(Some(0), Some("x"))] + Blank(names)
  }

  lemma {:induction false} UnsetNew(names: seq<string>, i: nat)
    requires i <= |names|
    ensures Unset(NewReaders(names)[..i + 1]) == i
    ensures i < |names| ==> NewReaders(names)[i + 1] == Reader(None, Some(names[i]))
  {
    if i == 0 {
      assert NewReaders(names)[..1] == [Reader(Some(0), Some("x"))];
    } else {
      UnsetNew(names, i - 1);
      assert NewReaders(names)[..i + 1][..i] == NewReaders(names)[..i];
    }
    BlankAt(names, i);
  }

  lemma {:induction false} AllUnset(names: seq<string>)
    ensures Unset(NewReaders(names)) == |names|
  {
    UnsetNew(names, |names|);
    assert NewReaders(names)[..|names| + 1] == NewReaders(names);
  }

  lemma {:induction false} BlankAt(names: seq<string>, i: nat)
    ensures i < |names| ==> Blank(names)[i] == Reader(None, Some(names[i]))
    decreases |names|
  {
    if i < |names| - 1 {
      BlankAt(names[..|names| - 1], i);
    }
  }

  /** With at least one value per series, every round uses up a free column. */
  lemma {:induction false} RoundUses(free: seq<nat>, names: seq<string>)
    requires free != [] && names != []
    ensures |Filled(NewReaders(names), Without(free, 0)).free| < |free|
  {
    FilledFree(NewReaders(names), Without(free, 0));
    AllUnset(names);
    WithoutLength(free, 0);
  }

  lemma {:induction false} WithoutLength(s: seq<nat>, c: nat)
    ensures |Without(s, c)| == if c in s then |s| - 1 else |s|
  {
    if s != [] {
      WithoutLength(s[1..], c);
    }
  }

  /** The made-up series, complete or not: column 0 is their x, so it is no longer free. */
  function Dynamic(free: seq<nat>, names: seq<string>): seq<seq<Reader>>
    requires names != []
    decreases |free|
  {
    if free == [] then []
    else
      RoundUses(free, names);
      var f := Filled(NewReaders(names), Without(free, 0));
      [f.readers] + Dynamic(f.free, names)
  }

  lemma {:induction false} DynamicRound(free: seq<nat>, names: seq<string>) returns (f: Filling)
    requires names != [] && free != []
    ensures f == Filled(NewReaders(names), Without(free, 0)) && |f.free| < |free|
    ensures Dynamic(free, names) == [f.readers] + Dynamic(f.free, names)
  {
    RoundUses(free, names);
    f := Filled(NewReaders(names), Without(free, 0));
  }

  /** Only complete builders become series. */
  function Kept(builders: seq<seq<Reader>>): seq<seq<Reader>> {
    if builders == [] then []
    else
      var before, last := Kept(builders[..|builders| - 1]), builders[|builders| - 1];
      if Enough(last) then before + [last] else before
  }

  lemma {:induction false} KeptConcat(a: seq<seq<Reader>>, b: seq<seq<Reader>>)
    ensures Kept(a + b) == Kept(a) + Kept(b)
  {
    if b == [] {
      assert a + b == a;
    } else {
      assert (a + b)[..|a + b| - 1] == a + b[..|b| - 1];
      KeptConcat(a, b[..|b| - 1]);
    }
  }

  lemma {:induction false} KeptNext(start: seq<seq<Reader>>, done: seq<seq<Reader>>, next: seq<Reader>)
    ensures start + Kept(done) + Kept([next]) == start + Kept(done + [next])
  {
    KeptConcat(done, [next]);
  }

  lemma {:induction false} Regroup<T>(done: seq<T>, next: T, rest: seq<T>, all: seq<T>)
    requires all == [next] + rest
    ensures done + all == done + [next] + rest
  {
  }

  /** What the builders hold now. */
  ghost function Readers(builders: seq<SeriesBuilder>): (r: seq<seq<Reader>>)
    reads builders
    ensures |r| == |builders|
    ensures forall i :: 0 <= i < |builders| ==> r[i] == builders[i].readers
  {
    if builders == [] then [] else Readers(builders[..|builders| - 1]) + [builders[|builders| - 1].readers]
  }

  method GetFreeIndexes(n: nat, builders: seq<SeriesBuilder>) returns (free: seq<nat>)
    ensures free == Free(n, AllReferenced(Readers(builders)))
    ensures var ok := AreFree(free, n, Readers(builders)); ok
  {
    var flags: seq<bool> := [];
    for i := 0 to n
      invariant |flags| == i && forall k :: 0 <= k < i ==> flags[k]
    {
      flags := flags + [true];
    }
    ghost var all := Readers(builders);
    for s := 0 to |builders|
      invariant Flagged(flags, n, AllReferenced(all[..s]))
    {
      var columns := builders[s].GetReferencedColumnIndexes();
      flags := ClearAll(flags, columns, n, AllReferenced(all[..s]));
      assert all[..s + 1][..s] == all[..s];
    }
    assert all[..|builders|] == all;
    free := CollectFlags(flags, n, AllReferenced(all));
    FreeOf(n, all);
  }

  method CollectFlags(flags: seq<bool>, n: nat, ghost used: seq<nat>) returns (free: seq<nat>)
    requires Flagged(flags, n, used)
    ensures free == Free(n, used)
  {
    free := [];
    for i := 0 to |flags|
      invariant free == Free(if i < n then i else n, used)
    {
      if flags[i] {
        free := free + [i];
      }
    }
  }

  /** One builder takes its columns; the others, and the builders kept so far, stay as they are. */
  method PopulateNext(builders: seq<SeriesBuilder>, s: nat, free: FreeColumns, kept: seq<SeriesBuilder>)
    returns (kept': seq<SeriesBuilder>)
    requires s < |builders| && builders[s] !in kept
    requires forall k :: 0 <= k < |builders| && k != s ==> builders[k] != builders[s]
    modifies builders[s], free
    ensures Filling(builders[s].readers, free.items) == Filled(old(builders[s].readers), old(free.items))
    ensures Readers(builders) == old(Readers(builders))[s := builders[s].readers]
    ensures kept' == if Enough(builders[s].readers) then kept + [builders[s]] else kept
    ensures Readers(kept') ==
            if Enough(builders[s].readers) then old(Readers(kept)) + [builders[s].readers] else old(Readers(kept))
  {
    var enoughColumns := builders[s].PopulateColumns(free);
    assert Readers(kept) == old(Readers(kept));
    if enoughColumns {
      kept' := kept + [builders[s]];
      assert kept'[..|kept|] == kept;
    } else {
      kept' := kept;
    }
  }

  /** The first s builders of `was` have taken columns and give `now`; the other ones are untouched. */
  predicate Populated(was: seq<seq<Reader>>, now: seq<seq<Reader>>, s: nat, start: seq<nat>, free: seq<nat>) {
    s <= |was| == |now| && Pass(now[..s], free) == PopulateAll(was[..s], start) && now[s..] == was[s..]
  }

  lemma {:induction false} PopulatedStep(was: seq<seq<Reader>>, now: seq<seq<Reader>>, s: nat, start: seq<nat>,
                                         f: Filling, free: seq<nat>)
    requires s < |was| && Populated(was, now, s, start, free) && f == Filled(now[s], free)
    ensures Populated(was, now[s := f.readers], s + 1, start, f.free)
    ensures Kept(now[s := f.readers][..s + 1]) == Kept(now[..s]) + if Enough(f.readers) then [f.readers] else []
  {
    assert now[s..][0] == was[s..][0] && was[..s + 1][..s] == was[..s];
    assert now[s := f.readers][..s + 1] == now[..s] + [f.readers];
    assert now[s := f.readers][s + 1..] == now[s..][1..] == was[s..][1..] == was[s + 1..];
  }

  /** The builders of the series mapping take their columns; the complete ones are kept. */
  method PopulateDefined(builders: seq<SeriesBuilder>, free: FreeColumns) returns (kept: seq<SeriesBuilder>)
    requires Distinct(builders)
    modifies builders, free
    ensures Pass(Readers(builders), free.items) == PopulateAll(old(Readers(builders)), old(free.items))
    ensures Readers(kept) == Kept(Readers(builders))
  {
    ghost var was := Readers(builders);
    kept := [];
    for s := 0 to |builders|
      invariant var ok := Populated(was, Readers(builders), s, old(free.items), free.items); ok
      invariant forall k :: s <= k < |builders| ==> builders[k] !in kept
      invariant Readers(kept) == Kept(Readers(builders)[..s])
    {
      PopulatedStep(was, Readers(builders), s, old(free.items), Filled(builders[s].readers, free.items), free.items);
      kept := PopulateNext(builders, s, free, kept);
    }
    assert Readers(builders)[..|builders|] == Readers(builders) && was[..|builders|] == was;
  }

  /** A new builder for the next made-up series. */
  method NewBuilder(names: seq<string>) returns (builder: SeriesBuilder)
    ensures fresh(builder) && builder.readers == NewReaders(names)
  {
    builder := new SeriesBuilder();
    builder.AddColumnReader(Some(0), Some("x"));
    for i := 0 to |names|
      invariant builder.readers == NewReaders(names[..i])
    {
      assert names[..i + 1][..i] == names[..i];
      builder.AddColumnReader(None, Some(names[i]));
    }
    assert names[..|names|] == names;
  }

  /** One round of the second loop. */
  method NextDynamic(free: FreeColumns, names: seq<string>, kept: seq<SeriesBuilder>)
    returns (all: seq<SeriesBuilder>, ghost readers: seq<Reader>)
    requires names != [] && free.items != []
    modifies free
    ensures |free.items| < |old(free.items)|
    ensures Dynamic(old(free.items), names) == [readers] + Dynamic(free.items, names)
    ensures Readers(all) == old(Readers(kept)) + Kept([readers])
  {
    var builder := NewBuilder(names);
    ghost var f := DynamicRound(free.items, names);
    free.Remove(0);
    var enoughColumns := builder.PopulateColumns(free);
    readers := builder.readers;
    all := kept;
    assert Readers(all) == old(Readers(kept));
    if enoughColumns {
      all := all + [builder];
      assert all[..|kept|] == kept;
    }
  }

  method PopulateDynamic(free: FreeColumns, names: seq<string>, kept: seq<SeriesBuilder>)
    returns (all: seq<SeriesBuilder>)
    requires names != []
    modifies free
    ensures free.items == []
    ensures Readers(all) == old(Readers(kept)) + Kept(Dynamic(old(free.items), names))
  {
    all := kept;
    ghost var start, done := Readers(kept), [];
    while free.items != []
      invariant done + Dynamic(free.items, names) == Dynamic(old(free.items), names)
      invariant Readers(all) == start + Kept(done)
      decreases |free.items|
    {
      ghost var readers;
      ghost var items := free.items;
      all, readers := NextDynamic(free, names, all);
      Regroup(done, readers, Dynamic(free.items, names), Dynamic(items, names));
      KeptNext(start, done, readers);
      done := done + [readers];
    }
    assert done + [] == done;
  }

  /**
   The builders of the mapping were `was` and are `now`, and `kept` become series: the complete ones of the
   mapping, which choose first, and then the complete ones made up from what they leave.
   */
  ghost predicate Allocated(n: nat, was: seq<seq<Reader>>, names: seq<string>, now: seq<seq<Reader>>,
                            kept: seq<seq<Reader>>)
    requires names != []
  {
    var p := PopulateAll(was, Free(n, AllReferenced(was)));
    var done := now == p.builders && kept == Kept(p.builders) + Kept(Dynamic(p.free, names));
    done
  }

  /** `complete` up to the point where the columns are read: the builders whose data become series. */
  method Allocate(n: nat, builders: seq<SeriesBuilder>, names: seq<string>) returns (all: seq<SeriesBuilder>)
    requires Distinct(builders) && names != []
    modifies builders
    ensures Allocated(n, old(Readers(builders)), names, Readers(builders), Readers(all))
    ensures var ok := OnlyUnnamed(n, old(Readers(builders)), Readers(builders)); ok
  {
    PopulateUnnamed(n, Readers(builders), names);
    var items := GetFreeIndexes(n, builders);
    var free := new FreeColumns(items);
    var kept := PopulateDefined(builders, free);
    all := PopulateDynamic(free, names, kept);
  }

  // ---------- Who gets which column ----------

  /** The columns handed out by the first loop, in the order of the builders and their readers. */
  function GivenAll(before: seq<seq<Reader>>, after: seq<seq<Reader>>): seq<nat>
    requires |before| == |after| && forall i :: 0 <= i < |before| ==> |before[i]| == |after[i]|
  {
    if before == [] then []
    else
      var n := |before| - 1;
      GivenAll(before[..n], after[..n]) + Given(before[n], after[n])
  }

  lemma {:induction false} PopulateShape(builders: seq<seq<Reader>>, free: seq<nat>)
    ensures forall i :: 0 <= i < |builders| ==> |builders[i]| == |PopulateAll(builders, free).builders[i]|
  {
    if builders != [] {
      PopulateShape(builders[..|builders| - 1], free);
    }
  }

  lemma {:induction false} PopulateTakes(builders: seq<seq<Reader>>, free: seq<nat>)
    requires forall i :: 0 <= i < |builders| ==> |builders[i]| == |PopulateAll(builders, free).builders[i]|
    ensures GivenAll(builders, PopulateAll(builders, free).builders) + PopulateAll(builders, free).free == free
  {
    if builders != [] {
      var n := |builders| - 1;
      var p := PopulateAll(builders[..n], free);
      assert PopulateAll(builders, free).builders[..n] == p.builders;
      PopulateShape(builders[..n], free);
      PopulateTakes(builders[..n], free);
      FilledTakes(builders[n], p.free);
    }
  }

  /** The columns handed out by the second loop. */
  function GivenDynamic(dynamic: seq<seq<Reader>>, names: seq<string>): seq<nat>
    requires forall i :: 0 <= i < |dynamic| ==> |dynamic[i]| == |names| + 1
  {
    if dynamic == [] then [] else Given(NewReaders(names), dynamic[0]) + GivenDynamic(dynamic[1..], names)
  }

  lemma {:induction false} DynamicShape(free: seq<nat>, names: seq<string>)
    requires names != []
    ensures forall i :: 0 <= i < |Dynamic(free, names)| ==> |Dynamic(free, names)[i]| == |names| + 1
    decreases |free|
  {
    if free != [] {
      RoundUses(free, names);
      DynamicShape(Filled(NewReaders(names), Without(free, 0)).free, names);
    }
  }

  /** Without an element that does not repeat, nothing equal to it is left. */
  lemma {:induction false} WithoutGone(s: seq<nat>, c: nat)
    requires Distinct(s)
    ensures c !in Without(s, c) && Distinct(Without(s, c))
    ensures forall x :: x in Without(s, c) ==> x in s
  {
    if s != [] {
      if s[0] != c {
        WithoutGone(s[1..], c);
        assert s[0] !in s[1..];
      } else {
        assert forall x :: x in s[1..] ==> x != s[0];
      }
    }
  }

  lemma {:induction false} WithoutKeeps(s: seq<nat>, c: nat)
    ensures forall x :: x in s && x != c ==> x in Without(s, c)
  {
    if s != [] {
      WithoutKeeps(s[1..], c);
    }
  }

  lemma {:induction false} DynamicTakes(free: seq<nat>, names: seq<string>)
    requires names != [] && Distinct(free)
    requires forall i :: 0 <= i < |Dynamic(free, names)| ==> |Dynamic(free, names)[i]| == |names| + 1
    ensures GivenDynamic(Dynamic(free, names), names) == Without(free, 0)
    decreases |free|
  {
    if free != [] {
      RoundUses(free, names);
      WithoutGone(free, 0);
      var rest := Filled(NewReaders(names), Without(free, 0)).free;
      FilledTakes(NewReaders(names), Without(free, 0));
      FilledFree(NewReaders(names), Without(free, 0));
      WithoutNone(rest, 0);
      DynamicShape(rest, names);
      DynamicTakes(rest, names);
      assert Dynamic(free, names)[1..] == Dynamic(rest, names);
    }
  }

  /** Column i of a made-up series j, when k columns go to each. */
  predicate InBlock(readers: seq<Reader>, names: seq<string>, columns: seq<nat>, at: nat) {
    && |readers| == |names| + 1
    && readers[0] == Reader(Some(0), Some("x"))
    && forall i :: 0 <= i < |names| ==>
         readers[i + 1] == Reader(if at + i < |columns| then Some(columns[at + i]) else None, Some(names[i]))
  }

  lemma {:induction false} FirstBlockAt(names: seq<string>, columns: seq<nat>, i: nat)
    requires i < |names|
    ensures Filled(NewReaders(names), columns).readers[i + 1] ==
            Reader(if i < |columns| then Some(columns[i]) else None, Some(names[i]))
  {
    UnsetNew(names, i);
    FilledAt(NewReaders(names), columns, i + 1);
  }

  lemma {:induction false} FirstBlock(names: seq<string>, columns: seq<nat>)
    ensures InBlock(Filled(NewReaders(names), columns).readers, names, columns, 0)
  {
    FilledAt(NewReaders(names), columns, 0);
    assert Unset(NewReaders(names)[..0]) == 0;
    forall i | 0 <= i < |names|
      ensures Filled(NewReaders(names), columns).readers[i + 1] ==
              Reader(if i < |columns| then Some(columns[i]) else None, Some(names[i]))
    {
      FirstBlockAt(names, columns, i);
    }
  }

  /** What the first round takes and leaves. */
  lemma {:induction false} FirstRound(names: seq<string>, columns: seq<nat>)
    ensures var f := Filled(NewReaders(names), columns);
            && f.free == (if |names| <= |columns| then columns[|names|..] else [])
            && (Enough(f.readers) <==> |names| <= |columns|)
  {
    AllUnset(names);
    FilledFree(NewReaders(names), columns);
    EnoughIff(NewReaders(names), columns);
  }

  /** One round: the first block of the columns goes to the first made-up series, the others see the rest. */
  lemma {:induction false} Round(free: seq<nat>, names: seq<string>) returns (first: seq<Reader>, rest: seq<nat>)
    requires names != [] && free != [] && Distinct(free)
    ensures first == Filled(NewReaders(names), Without(free, 0)).readers
    ensures Dynamic(free, names) == [first] + Dynamic(rest, names)
    ensures rest == (if |names| <= |Without(free, 0)| then Without(free, 0)[|names|..] else [])
    ensures Enough(first) <==> |names| <= |Without(free, 0)|
    ensures |rest| < |free| && Distinct(rest) && Without(rest, 0) == rest
  {
    var f := DynamicRound(free, names);
    WithoutGone(free, 0);
    FirstRound(names, Without(free, 0));
    first, rest := f.readers, f.free;
    WithoutNone(rest, 0);
  }

  lemma {:induction false} OneMore(m: nat, k: nat) returns (before: nat)
    ensures before == m * k && (1 + m) * k == before + k
  {
    before := m * k;
  }

  /** A later made-up series is a made-up series of the rest. */
  lemma {:induction false} RestBlock(free: seq<nat>, names: seq<string>, j: nat, before: nat) returns (rest: seq<nat>)
    requires names != [] && Distinct(free) && 0 < j < |Dynamic(free, names)|
    ensures |rest| < |free| && Distinct(rest) && j - 1 < |Dynamic(rest, names)|
    ensures InBlock(Dynamic(rest, names)[j - 1], names, Without(rest, 0), before) ==>
              InBlock(Dynamic(free, names)[j], names, Without(free, 0), before + |names|)
  {
    var first;
    first, rest := Round(free, names);
    assert rest != [];
    if InBlock(Dynamic(rest, names)[j - 1], names, rest, before) {
    }
  }

  /** Made-up series j reads x from column 0 and its values from the j-th run of |names| remaining columns. */
  lemma {:induction false} DynamicBlock(free: seq<nat>, names: seq<string>, j: nat)
    requires names != [] && Distinct(free) && j < |Dynamic(free, names)|
    ensures var found := InBlock(Dynamic(free, names)[j], names, Without(free, 0), j * |names|); found
    decreases j
  {
    if j == 0 {
      var first, rest := Round(free, names);
      FirstBlock(names, Without(free, 0));
    } else {
      var before := OneMore(j - 1, |names|);
      var rest := RestBlock(free, names, j, before);
      DynamicBlock(rest, names, j - 1);
    }
  }

  /** m full runs of k fit into w, and no more. */
  predicate FullRuns(m: nat, k: nat, w: nat) {
    m * k <= w < m * k + k
  }

  lemma {:induction false} OneMoreRun(m: nat, k: nat, w: nat)
    requires FullRuns(m, k, w)
    ensures FullRuns(1 + m, k, w + k)
  {
    var _ := OneMore(m, k);
  }

  /** As many made-up series are kept as there are full runs of remaining columns. */
  lemma {:induction false} DynamicKept(free: seq<nat>, names: seq<string>)
    requires names != [] && Distinct(free)
    ensures FullRuns(|Kept(Dynamic(free, names))|, |names|, |Without(free, 0)|)
    decreases |free|
  {
    if free != [] {
      var first, rest := Round(free, names);
      KeptAfter(first, Dynamic(rest, names));
      if Enough(first) {
        DynamicKept(rest, names);
        OneMoreRun(|Kept(Dynamic(rest, names))|, |names|, |Without(rest, 0)|);
      }
    }
  }

  lemma {:induction false} KeptAfter(first: seq<Reader>, others: seq<seq<Reader>>)
    ensures |Kept([first] + others)| == |Kept(others)| + if Enough(first) then 1 else 0
  {
    KeptConcat([first], others);
    KeptOne(first);
  }

  lemma {:induction false} KeptOne(readers: seq<Reader>)
    ensures Kept([readers]) == if Enough(readers) then [readers] else []
  {
    assert [readers][..0] == [];
  }

  /** The columns given to readers that named none: first those of the mapping, then the made-up ones. */
  function Automatic(n: nat, builders: seq<seq<Reader>>, names: seq<string>): seq<nat>
    requires names != []
  {
    var p := PopulateAll(builders, Free(n, AllReferenced(builders)));
    PopulateShape(builders, Free(n, AllReferenced(builders)));
    DynamicShape(p.free, names);
    GivenAll(builders, p.builders) + GivenDynamic(Dynamic(p.free, names), names)
  }

  lemma {:induction false} OnlyFirstZero(s: seq<nat>)
    requires Ascending(s)
    ensures forall i :: 0 < i < |s| ==> s[i] > 0
  {
    assert forall i :: 0 < i < |s| ==> s[0] < s[i];
  }

  /** Every reader of the mapping names a column. */
  predicate NoneLacks(builders: seq<seq<Reader>>) {
    forall i :: 0 <= i < |builders| ==> Enough(builders[i])
  }

  lemma {:induction false} UnsetZero(readers: seq<Reader>)
    ensures Unset(readers) == 0 <==> Enough(readers)
  {
    if readers != [] {
      var n := |readers| - 1;
      UnsetZero(readers[..n]);
      EnoughAppend(readers[..n], readers[n]);
      assert readers[..n] + [readers[n]] == readers;
    }
  }

  /** The mapping leaves all free columns exactly when none of its readers lacks one. */
  lemma {:induction false} PopulateLeaves(builders: seq<seq<Reader>>, free: seq<nat>)
    requires free != []
    ensures PopulateAll(builders, free).free == free <==> NoneLacks(builders)
    ensures |PopulateAll(builders, free).free| <= |free|
  {
    if builders != [] {
      var n := |builders| - 1;
      PopulateLeaves(builders[..n], free);
      UnsetZero(builders[n]);
      FilledFree(builders[n], PopulateAll(builders[..n], free).free);
      assert NoneLacks(builders) <==> NoneLacks(builders[..n]) && Enough(builders[n]) by {
        assert forall i :: 0 <= i < n ==> builders[..n][i] == builders[i];
      }
    }
  }

  /** Column 0 serves the made-up series as x only: nobody names it, and no reader of the mapping lacks a column. */
  predicate ZeroIsX(n: nat, builders: seq<seq<Reader>>) {
    n > 0 && !Named(builders, 0) && NoneLacks(builders)
  }

  /** The automatic columns are the free columns in their order, without column 0 when it is only the x. */
  lemma {:induction false} AutomaticIsFree(n: nat, builders: seq<seq<Reader>>, names: seq<string>)
    requires names != []
    ensures var free := Free(n, AllReferenced(builders));
            && Automatic(n, builders, names) == (if ZeroIsX(n, builders) then Without(free, 0) else free)
            && AreFree(free, n, builders)
  {
    var free := Free(n, AllReferenced(builders));
    FreeOf(n, builders);
    PopulateShape(builders, free);
    PopulateTakes(builders, free);
    var p := PopulateAll(builders, free);
    assert free == GivenAll(builders, p.builders) + p.free;
    DynamicShape(p.free, names);
    ZeroLeft(GivenAll(builders, p.builders), p.free);
    DynamicTakes(p.free, names);
    if 0 !in p.free {
      WithoutNone(p.free, 0);
    }
    if free != [] {
      PopulateLeaves(builders, free);
    }
  }

  /** Column 0 comes first, so it is left only when nothing was handed out. */
  lemma {:induction false} ZeroLeft(given: seq<nat>, left: seq<nat>)
    requires Ascending(given + left)
    ensures 0 in left ==> given == [] && left == given + left
    ensures Distinct(left)
  {
    OnlyFirstZero(given + left);
    assert forall i :: 0 <= i < |left| ==> left[i] == (given + left)[|given| + i];
    if given == [] {
      assert given + left == left;
    }
  }

  /**
   No two readers are given the same column, and a column is given away exactly when it is in the table, nobody
   named it, and it is not the column 0 that the made-up series alone read, as their x.
   */
  lemma {:induction false} ColumnsPartition(n: nat, builders: seq<seq<Reader>>, names: seq<string>)
    requires names != []
    ensures var auto := Automatic(n, builders, names);
            && Distinct(auto)
            && forall c: nat :: c in auto <==> c < n && !Named(builders, c) && !(c == 0 && NoneLacks(builders))
  {
    AutomaticIsFree(n, builders, names);
    WithoutGone(Free(n, AllReferenced(builders)), 0);
    WithoutKeeps(Free(n, AllReferenced(builders)), 0);
  }

  // ---------- The readers that were given a column ----------

  /** Reader i had no column before and has column c after. */
  predicate GivenAt(before: seq<Reader>, after: seq<Reader>, i: nat, c: nat) {
    i < |before| == |after| && before[i].column.None? && after[i].column == Some(c)
  }

  lemma {:induction false} GivenIs(before: seq<Reader>, after: seq<Reader>, i: nat, c: nat)
    requires GivenAt(before, after, i, c)
    ensures c in Given(before, after)
  {
    var n := |before| - 1;
    if i < n {
      GivenIs(before[..n], after[..n], i, c);
    }
  }

  lemma {:induction false} GivenAllIs(before: seq<seq<Reader>>, after: seq<seq<Reader>>, s: nat, i: nat, c: nat)
    requires |before| == |after| && forall k :: 0 <= k < |before| ==> |before[k]| == |after[k]|
    requires s < |before| && GivenAt(before[s], after[s], i, c)
    ensures c in GivenAll(before, after)
  {
    var n := |before| - 1;
    if s < n {
      GivenAllIs(before[..n], after[..n], s, i, c);
    } else {
      GivenIs(before[s], after[s], i, c);
    }
  }

  lemma {:induction false} GivenDynamicIs(dynamic: seq<seq<Reader>>, names: seq<string>, j: nat, i: nat, c: nat)
    requires forall k :: 0 <= k < |dynamic| ==> |dynamic[k]| == |names| + 1
    requires j < |dynamic| && GivenAt(NewReaders(names), dynamic[j], i, c)
    ensures c in GivenDynamic(dynamic, names)
  {
    if j > 0 {
      GivenDynamicIs(dynamic[1..], names, j - 1, i, c);
    } else {
      GivenIs(NewReaders(names), dynamic[0], i, c);
    }
  }

  /** A column that a reader of the mapping is given is in the table, and nobody named it. */
  lemma {:induction false} GivenIsUnnamed(n: nat, builders: seq<seq<Reader>>, names: seq<string>, s: nat, i: nat,
                                          c: nat)
    requires names != [] && s < |builders|
    requires GivenAt(builders[s], PopulateAll(builders, Free(n, AllReferenced(builders))).builders[s], i, c)
    ensures c < n && !Named(builders, c) && c in Automatic(n, builders, names)
  {
    var free := Free(n, AllReferenced(builders));
    PopulateShape(builders, free);
    GivenAllIs(builders, PopulateAll(builders, free).builders, s, i, c);
    assert c in Automatic(n, builders, names);
    ColumnsPartition(n, builders, names);
  }

  /** So is one that a reader of a made-up series is given. */
  lemma {:induction false} MadeUpIsUnnamed(n: nat, builders: seq<seq<Reader>>, names: seq<string>, j: nat, i: nat,
                                           c: nat)
    requires names != []
    requires var dynamic := Dynamic(PopulateAll(builders, Free(n, AllReferenced(builders))).free, names);
             j < |dynamic| && GivenAt(NewReaders(names), dynamic[j], i, c)
    ensures c < n && !Named(builders, c) && c in Automatic(n, builders, names)
  {
    var p := PopulateAll(builders, Free(n, AllReferenced(builders)));
    DynamicShape(p.free, names);
    GivenDynamicIs(Dynamic(p.free, names), names, j, i, c);
    assert c in Automatic(n, builders, names);
    ColumnsPartition(n, builders, names);
  }

  /** Between `before` and `after`, readers were given columns of the table only that nobody named. */
  ghost predicate OnlyUnnamed(n: nat, before: seq<seq<Reader>>, after: seq<seq<Reader>>) {
    |before| == |after| &&
    forall s: nat, i: nat, c: nat :: s < |before| && GivenAt(before[s], after[s], i, c) ==> c < n && !Named(before, c)
  }

  lemma {:induction false} PopulateUnnamed(n: nat, builders: seq<seq<Reader>>, names: seq<string>)
    requires names != []
    ensures var ok := OnlyUnnamed(n, builders, PopulateAll(builders, Free(n, AllReferenced(builders))).builders); ok
  {
    var after := PopulateAll(builders, Free(n, AllReferenced(builders))).builders;
    forall s: nat, i: nat, c: nat | s < |builders| && GivenAt(builders[s], after[s], i, c)
      ensures c < n && !Named(builders, c)
    {
      GivenIsUnnamed(n, builders, names, s, i, c);
    }
  }
}
