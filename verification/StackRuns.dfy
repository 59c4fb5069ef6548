/**
 The stacks seen from the series: the place of every point after the axis was rescaled, at the
 end of any run, what percent stacking makes of it, and what translate finds.
 */
module StackRuns {
  import opened JsValues
  import opened Sequences
  import opened Stacks
  import opened StackTheorems

  // ---------- Points in the order in which they are stacked ----------

  function Flatten(parts: seq<seq<Entry>>): seq<Entry> {
    if parts == [] then [] else Flatten(parts[..|parts| - 1]) + parts[|parts| - 1]
  }

  lemma {:induction false} FlattenConcat(a: seq<seq<Entry>>, b: seq<seq<Entry>>)
    ensures Flatten(a + b) == Flatten(a) + Flatten(b)
  {
    if b == [] {
      assert a + b == a;
    } else {
      assert (a + b)[..|a + b| - 1] == a + b[..|b| - 1];
      FlattenConcat(a, b[..|b| - 1]);
    }
  }

  lemma {:induction false} FlattenOne(part: seq<Entry>)
    ensures Flatten([part]) == part
  {
    assert [part][..0] == [];
  }

  lemma {:induction false} FlattenSplit(parts: seq<seq<Entry>>, j: nat)
    requires j < |parts|
    ensures Flatten(parts) == Flatten(parts[..j]) + parts[j] + Flatten(parts[j + 1..])
  {
    var a, b, c := parts[..j], [parts[j]], parts[j + 1..];
    FlattenConcat(a, b);
    FlattenConcat(a + b, c);
    FlattenOne(parts[j]);
    assert parts == a + b + c;
  }

  function Offset(parts: seq<seq<Entry>>, j: nat): nat
    requires j <= |parts|
  {
    |Flatten(parts[..j])|
  }

  /** The i-th point of the j-th part, and all the points before it. */
  lemma {:induction false} EntryPosition(parts: seq<seq<Entry>>, j: nat, i: nat)
    requires j < |parts| && i < |parts[j]|
    ensures var es, k := Flatten(parts), Offset(parts, j) + i;
            && k < |es| && es[k] == parts[j][i]
            && es[..k] == Flatten(parts[..j]) + parts[j][..i]
  {
    FlattenSplit(parts, j);
  }

  /** Every point is the i-th point of some part. */
  lemma {:induction false} EntrySource(parts: seq<seq<Entry>>, k: nat) returns (j: nat, i: nat)
    requires k < |Flatten(parts)|
    ensures j < |parts| && i < |parts[j]| && Flatten(parts)[k] == parts[j][i]
    ensures k == Offset(parts, j) + i
    decreases |parts|
  {
    var n := |parts| - 1;
    if k < |Flatten(parts[..n])| {
      j, i := EntrySource(parts[..n], k);
      assert parts[..n][..j] == parts[..j];
    } else {
      j, i := n, k - |Flatten(parts[..n])|;
    }
  }

  function Parts(order: seq<SeriesData>, ignoreHidden: bool): (parts: seq<seq<Entry>>)
    requires AllValid(order)
    ensures |parts| == |order|
  {
    seq(|order|, j requires 0 <= j < |order| => order[j].Entries(ignoreHidden))
  }

  /** The points of all active series, in the order in which they are stacked. */
  function AllEntries(order: seq<SeriesData>, ignoreHidden: bool): seq<Entry>
    requires AllValid(order)
  {
    Flatten(Parts(order, ignoreHidden))
  }

  lemma {:induction false} AddEntriesConcat(st: StackMap, a: seq<Entry>, b: seq<Entry>)
    ensures AddEntries(st, map[], a + b) == AddEntries(AddEntries(st, map[], a), map[], b)
  {
    if b == [] {
      assert a + b == a;
    } else {
      assert (a + b)[..|a + b| - 1] == a + b[..|b| - 1];
      AddEntriesConcat(st, a, b[..|b| - 1]);
    }
  }

  /** Old stacks that are all still current never take part. */
  lemma {:induction false} OldStacksIdle(st: StackMap, prev: StackMap, es: seq<Entry>)
    requires prev.Keys <= st.Keys
    ensures AddEntries(st, prev, es) == AddEntries(st, map[], es)
    ensures st.Keys <= AddEntries(st, prev, es).Keys
  {
    if es != [] {
      OldStacksIdle(st, prev, es[..|es| - 1]);
    }
  }

  lemma {:induction false} StackAllIsAddEntries(a: AxisState, order: seq<SeriesData>, ignoreHidden: bool)
    requires AllValid(order) && a.prev.Keys <= a.stacks.Keys
    ensures var b := StackAll(a, order, ignoreHidden);
            && b.stacks == AddEntries(a.stacks, map[], AllEntries(order, ignoreHidden))
            && b.prev.Keys <= b.stacks.Keys
            && (b.prev == map[] || (b.prev == a.prev && b.stacks == a.stacks))
  {
    if order != [] {
      var init, s := order[..|order| - 1], order[|order| - 1];
      StackAllIsAddEntries(a, init, ignoreHidden);
      var m := StackAll(a, init, ignoreHidden);
      assert Parts(order, ignoreHidden)[..|order| - 1] == Parts(init, ignoreHidden);
      AddEntriesConcat(a.stacks, AllEntries(init, ignoreHidden), s.Entries(ignoreHidden));
      OldStacksIdle(m.stacks, m.prev, s.Entries(ignoreHidden));
    }
  }

  lemma {:induction false} EntriesDistinct(order: seq<SeriesData>, ignoreHidden: bool)
    requires AllValid(order) && DistinctIndexes(order)
    ensures DistinctKeys(AllEntries(order, ignoreHidden))
  {
    var es, parts := AllEntries(order, ignoreHidden), Parts(order, ignoreHidden);
    forall a, b | 0 <= a < b < |es|
      ensures es[a].pk != es[b].pk
    {
      var j, i := EntrySource(parts, a);
      var j', i' := EntrySource(parts, b);
      assert parts[j][i].pk == PointKey(order[j].index, i);
      assert parts[j'][i'].pk == PointKey(order[j'].index, i');
    }
  }

  // ---------- The place of a point ----------

  /** The axis after a rescale that rebuilds the stacks. */
  function Rescaled(a: AxisState, series: seq<SeriesData>, o: Options): AxisState
    requires AllValid(series) && DistinctIndexes(series)
  {
    Apply(a, SetScale(true, series, o))
  }

  function BuiltEntries(series: seq<SeriesData>, o: Options): seq<Entry>
    requires AllValid(series)
  {
    AllEntries(BuildOrder(series, o.reversedStacks), o.ignoreHidden)
  }

  /** The stacks of the rebuild before any scaling to percent. */
  function Unscaled(a: AxisState, series: seq<SeriesData>, o: Options): StackMap
    requires AllValid(series)
  {
    AddEntries(Cleared(a.stacks), map[], BuiltEntries(series, o))
  }

  lemma {:induction false} RescaledIs(a: AxisState, series: seq<SeriesData>, o: Options)
    requires AllValid(series) && DistinctIndexes(series) && a.prev.Keys <= a.stacks.Keys
    ensures IsCleared(Cleared(a.stacks))
    ensures var u := Unscaled(a, series, o);
            Rescaled(a, series, o).stacks == if UsePercentage(series, o.ignoreHidden) then Scaled(u, series) else u
    ensures DistinctKeys(BuiltEntries(series, o))
  {
    StackAllIsAddEntries(AxisState(Cleared(a.stacks), Cleared(a.prev)),
                         BuildOrder(series, o.reversedStacks), o.ignoreHidden);
    EntriesDistinct(BuildOrder(series, o.reversedStacks), o.ignoreHidden);
    ScaledExactlyOnce(Unscaled(a, series, o), series);
  }

  /** Where the points stacked before point k reach, and where point k itself reaches. */
  function RawInterval(es: seq<Entry>, k: nat): Interval
    requires k < |es|
  {
    Interval(SumAt(es[..k], es[k].cell), SumAt(es[..k + 1], es[k].cell))
  }

  /** Intervals are scaled to percent in axes with an active percent series. */
  function PlaceAt(i: Interval, total: real, usePercentage: bool): Interval {
    if usePercentage then ToPercent(i, total) else i
  }

  /**
   Point k is recorded at its own place, in a stack that holds the right sum and total, when these stacks were
   there before.
   */
  predicate InPlace(st: StackMap, before: StackMap, es: seq<Entry>, k: nat, usePercentage: bool)
    requires k < |es|
  {
    var c, pk := es[k].cell, es[k].pk;
    && c in st && pk in st[c].points
    && st[c].points[pk] == PlaceAt(RawInterval(es, k), st[c].total, usePercentage)
    && st[c].cum == SumAt(es, c)
    && (Uniform(es, c) ==> st[c].total == TotalOf(before, es, c))
  }

  /**
   After a rebuild each stacked point is recorded at its own place, scaled at most once, and the
   stack carries its total. Sums and places depend on the present series only, and so do totals, but for
   the wipes of percent stacking, which depend on the stacks that were there before.
   */
  lemma {:induction false} PlaceOfPoint(a: AxisState, series: seq<SeriesData>, o: Options, k: nat)
    requires AllValid(series) && DistinctIndexes(series) && a.prev.Keys <= a.stacks.Keys
    requires k < |BuiltEntries(series, o)|
    ensures InPlace(Rescaled(a, series, o).stacks, Cleared(a.stacks), BuiltEntries(series, o), k,
                    UsePercentage(series, o.ignoreHidden))
  {
    var es := BuiltEntries(series, o);
    var c, pk := es[k].cell, es[k].pk;
    RescaledIs(a, series, o);
    var st0 := Cleared(a.stacks);
    IntervalOfPoint(st0, es, k);
    assert Holds(es, c);
    if Uniform(es, c) {
      TotalIs(st0, es, c);
    }
    EntryOwned(series, o, k);
  }

  lemma {:induction false} EntryOwned(series: seq<SeriesData>, o: Options, k: nat)
    requires AllValid(series) && k < |BuiltEntries(series, o)|
    ensures var e := BuiltEntries(series, o)[k]; Owned(series, e.cell, e.pk)
  {
    var order := BuildOrder(series, o.reversedStacks);
    var j, i := EntrySource(Parts(order, o.ignoreHidden), k);
    var m := if o.reversedStacks then |series| - 1 - j else j;
    assert series[m] == order[j];
    assert OwnedBy(series[m], order[j].EntryAt(i).cell, order[j].EntryAt(i).pk);
  }

  // ---------- Who is stacked ----------

  /** The position at which a series is stacked. */
  function PositionOf(series: seq<SeriesData>, o: Options, m: nat): nat
    requires m < |series|
  {
    if o.reversedStacks then |series| - 1 - m else m
  }

  function PointPosition(series: seq<SeriesData>, o: Options, m: nat, i: nat): nat
    requires AllValid(series) && m < |series|
  {
    Offset(Parts(BuildOrder(series, o.reversedStacks), o.ignoreHidden), PositionOf(series, o, m)) + i
  }

  lemma {:induction false} PointAt(series: seq<SeriesData>, o: Options, m: nat, i: nat)
    requires AllValid(series) && m < |series| && series[m].Active(o.ignoreHidden) && i < |series[m].xs|
    ensures var es, k := BuiltEntries(series, o), PointPosition(series, o, m, i);
            k < |es| && es[k] == series[m].EntryAt(i)
  {
    var parts, j := Parts(BuildOrder(series, o.reversedStacks), o.ignoreHidden), PositionOf(series, o, m);
    assert parts[j] == series[m].Entries(o.ignoreHidden);
    EntryPosition(parts, j, i);
  }

  /**
   A point is stacked if and only if its series has stacking and is visible, or hidden series are not ignored;
   then it is stacked with its own y, at its own x, under the key of its series.
   */
  lemma {:induction false} OnlyShownStacked(series: seq<SeriesData>, o: Options, m: nat, i: nat)
    requires AllValid(series) && DistinctIndexes(series) && m < |series| && i < |series[m].xs|
    ensures var es, s := BuiltEntries(series, o), series[m];
            && ((exists k :: 0 <= k < |es| && es[k].pk == PointKey(s.index, i)) <==>
                s.stacking != Off && (s.visible || !o.ignoreHidden))
            && forall k :: 0 <= k < |es| && es[k].pk == PointKey(s.index, i) ==>
                 es[k].y == s.ys[i] && es[k].cell.x == s.xs[i] && es[k].cell.key == s.key
  {
    var order, es := BuildOrder(series, o.reversedStacks), BuiltEntries(series, o);
    var s, pk := series[m], PointKey(series[m].index, i);
    if s.stacking != Off && (s.visible || !o.ignoreHidden) {
      PointAt(series, o, m, i);
      assert es[PointPosition(series, o, m, i)].pk == pk;
    }
    forall k | 0 <= k < |es| && es[k].pk == pk
      ensures s.stacking != Off && (s.visible || !o.ignoreHidden) && es[k] == s.EntryAt(i)
    {
      var j, i' := EntrySource(Parts(order, o.ignoreHidden), k);
      var m' := if o.reversedStacks then |series| - 1 - j else j;
      assert order[j] == series[m'] && es[k] == series[m'].EntryAt(i');
      assert m' == m;
    }
  }

  /** The series without those that are not stacked. */
  function Shown(series: seq<SeriesData>, ignoreHidden: bool): seq<SeriesData> {
    if series == [] then []
    else
      var s := series[|series| - 1];
      Shown(series[..|series| - 1], ignoreHidden)
      + if s.stacking != Off && (s.visible || !ignoreHidden) then [s] else []
  }

  lemma {:induction false} ShownFrom(series: seq<SeriesData>, ignoreHidden: bool)
    requires AllValid(series) && DistinctIndexes(series)
    ensures var shown := Shown(series, ignoreHidden);
            && AllValid(shown) && DistinctIndexes(shown)
            && (forall s :: s in shown ==> s in series)
            && UsePercentage(shown, ignoreHidden) == UsePercentage(series, ignoreHidden)
  {
    if series != [] {
      var n := |series| - 1;
      ShownFrom(series[..n], ignoreHidden);
      var before := Shown(series[..n], ignoreHidden);
      assert forall k :: 0 <= k < |before| ==> before[k] in series[..n];
      if Shown(series, ignoreHidden) == before + [series[n]] {
        assert (before + [series[n]])[..|before|] == before;
      } else {
        assert Shown(series, ignoreHidden) == before;
      }
    }
  }

  lemma {:induction false} ShownConcat(a: seq<SeriesData>, b: seq<SeriesData>, ignoreHidden: bool)
    ensures Shown(a + b, ignoreHidden) == Shown(a, ignoreHidden) + Shown(b, ignoreHidden)
  {
    if b == [] {
      assert a + b == a;
    } else {
      assert (a + b)[..|a + b| - 1] == a + b[..|b| - 1];
      ShownConcat(a, b[..|b| - 1], ignoreHidden);
    }
  }

  lemma {:induction false} ShownReverse(series: seq<SeriesData>, ignoreHidden: bool)
    ensures Shown(Reverse(series), ignoreHidden) == Reverse(Shown(series, ignoreHidden))
  {
    if series != [] {
      var n := |series| - 1;
      ShownReverse(series[..n], ignoreHidden);
      assert Reverse(series) == [series[n]] + Reverse(series[..n]);
      ShownConcat([series[n]], Reverse(series[..n]), ignoreHidden);
      assert [series[n]][..0] == [];
      assert Shown([series[n]], ignoreHidden) + Reverse(Shown(series[..n], ignoreHidden))
          == Reverse(Shown(series, ignoreHidden));
    }
  }

  lemma {:induction false} EntriesAppend(order: seq<SeriesData>, s: SeriesData, ignoreHidden: bool)
    requires AllValid(order) && s.Valid()
    ensures AllEntries(order + [s], ignoreHidden) == AllEntries(order, ignoreHidden) + s.Entries(ignoreHidden)
  {
    assert Parts(order + [s], ignoreHidden)[..|order|] == Parts(order, ignoreHidden);
  }

  lemma {:induction false} ShownEntries(order: seq<SeriesData>, ignoreHidden: bool)
    requires AllValid(order) && AllValid(Shown(order, ignoreHidden))
    ensures AllEntries(Shown(order, ignoreHidden), ignoreHidden) == AllEntries(order, ignoreHidden)
  {
    if order != [] {
      var n := |order| - 1;
      var shown, s := Shown(order[..n], ignoreHidden), order[n];
      assert forall k :: 0 <= k < |shown| ==> shown[k] == Shown(order, ignoreHidden)[k];
      ShownEntries(order[..n], ignoreHidden);
      assert order == order[..n] + [s];
      EntriesAppend(order[..n], s, ignoreHidden);
      EntriesAppend(shown, s, ignoreHidden);
      assert Shown(order, ignoreHidden) == shown || Shown(order, ignoreHidden) == shown + [s];
    }
  }

  /** Two stacks have the same sums and totals, and the same places for the given points. */
  predicate SameForPoints(st: StackMap, st': StackMap, es: seq<Entry>) {
    && st.Keys == st'.Keys
    && (forall c :: c in st ==> st[c].cum == st'[c].cum && st[c].total == st'[c].total)
    && forall k :: 0 <= k < |es| ==>
         var c, pk := es[k].cell, es[k].pk;
         c in st && pk in st[c].points && pk in st'[c].points && st[c].points[pk] == st'[c].points[pk]
  }

  /** Series that are not stacked leave no trace: a rebuild without them gives the same sums, totals and places. */
  lemma {:induction false} HiddenLeaveNoTrace(a: AxisState, series: seq<SeriesData>, o: Options)
    requires AllValid(series) && DistinctIndexes(series) && a.prev.Keys <= a.stacks.Keys
    ensures var shown := Shown(series, o.ignoreHidden);
            && AllValid(shown) && DistinctIndexes(shown) && BuiltEntries(shown, o) == BuiltEntries(series, o)
            && SameForPoints(Rescaled(a, series, o).stacks, Rescaled(a, shown, o).stacks, BuiltEntries(series, o))
  {
    var shown, es := Shown(series, o.ignoreHidden), BuiltEntries(series, o);
    ShownFrom(series, o.ignoreHidden);
    ShownReverse(series, o.ignoreHidden);
    ShownEntries(BuildOrder(series, o.reversedStacks), o.ignoreHidden);
    RescaledIs(a, series, o);
    RescaledIs(a, shown, o);
    forall k | 0 <= k < |es|
      ensures var st, st', c, pk :=
                Rescaled(a, series, o).stacks, Rescaled(a, shown, o).stacks, es[k].cell, es[k].pk;
              c in st && pk in st[c].points && pk in st'[c].points && st[c].points[pk] == st'[c].points[pk]
    {
      PlaceOfPoint(a, series, o, k);
      EntryOwned(shown, o, k);
      EntryOwned(series, o, k);
    }
  }

  // ---------- Runs ----------

  predicate SomeActive(order: seq<SeriesData>, ignoreHidden: bool) {
    exists i :: 0 <= i < |order| && order[i].Active(ignoreHidden)
  }

  lemma {:induction false} SomeActiveDropsOld(a: AxisState, order: seq<SeriesData>, ignoreHidden: bool)
    requires AllValid(order)
    ensures SomeActive(order, ignoreHidden) ==> StackAll(a, order, ignoreHidden).prev == map[]
    ensures !SomeActive(order, ignoreHidden) ==> StackAll(a, order, ignoreHidden) == a
  {
    if order != [] {
      var n := |order| - 1;
      SomeActiveDropsOld(a, order[..n], ignoreHidden);
      assert forall i :: 0 <= i < n ==> order[..n][i] == order[i];
    }
  }

  lemma {:induction false} SomeActiveInOrder(series: seq<SeriesData>, o: Options)
    ensures SomeActive(BuildOrder(series, o.reversedStacks), o.ignoreHidden) <==> SomeActive(series, o.ignoreHidden)
    ensures UsePercentage(series, o.ignoreHidden) ==> SomeActive(series, o.ignoreHidden)
  {
    var order := BuildOrder(series, o.reversedStacks);
    UsePercentageIff(series, o.ignoreHidden);
    if i :| 0 <= i < |series| && series[i].Active(o.ignoreHidden) {
      assert order[if o.reversedStacks then |series| - 1 - i else i] == series[i];
    }
  }

  /** The old stacks are current ones. */
  predicate OldIsCurrent(a: AxisState) {
    forall c :: c in a.prev ==> c in a.stacks && a.prev[c] == a.stacks[c]
  }

  lemma {:induction false} ApplyKeepsOldCurrent(a: AxisState, op: Op)
    requires ValidOp(op) && OldIsCurrent(a)
    ensures OldIsCurrent(Apply(a, op))
    ensures op.SetScale? && op.dirty && SomeActive(op.series, op.options.ignoreHidden) ==>
              Apply(a, op).prev == map[]
  {
    if op.SetScale? && op.dirty {
      var z := AxisState(Cleared(a.stacks), Cleared(a.prev));
      var order := BuildOrder(op.series, op.options.reversedStacks);
      SomeActiveDropsOld(z, order, op.options.ignoreHidden);
      SomeActiveInOrder(op.series, op.options);
    }
  }

  /**
   Over every run of the axis the old stacks are current ones, so setStackedPoints never has one
   to restore.
   */
  lemma {:induction false} OldStacksAreCurrent(ops: seq<Op>)
    requires ValidOps(ops)
    ensures OldIsCurrent(Run(ops))
  {
    if ops != [] {
      OldStacksAreCurrent(ops[..|ops| - 1]);
      ApplyKeepsOldCurrent(Run(ops[..|ops| - 1]), ops[|ops| - 1]);
    }
  }

  lemma {:induction false} OldKeys(a: AxisState)
    requires OldIsCurrent(a)
    ensures a.prev.Keys <= a.stacks.Keys
  {
  }

  /** A rebuild that drops the old stacks. */
  predicate Drops(op: Op) {
    op.SetScale? && op.dirty && SomeActive(op.series, op.options.ignoreHidden)
  }

  /** A call that makes old and current stacks the same: getStacks, or a rescale that does not rebuild. */
  predicate Equates(op: Op) {
    (op.GetStacks? && op.hasVisibleSeries) || (op.SetScale? && !op.dirty)
  }

  /** After each such rebuild there has been a call that makes them the same. */
  predicate Saved(ops: seq<Op>) {
    forall k :: 0 <= k < |ops| && Drops(ops[k]) ==> exists j :: k < j < |ops| && Equates(ops[j])
  }

  /** In every run there are either no old stacks, or they are all of the current ones. */
  lemma {:induction false} AllOrNone(ops: seq<Op>)
    requires ValidOps(ops)
    ensures Run(ops).prev == if Saved(ops) then Run(ops).stacks else map[]
  {
    if ops != [] {
      var n := |ops| - 1;
      var a, op := Run(ops[..n]), ops[n];
      AllOrNone(ops[..n]);
      OldStacksAreCurrent(ops[..n]);
      ApplyKeepsOldCurrent(a, op);
      if op.SetScale? && op.dirty && !Drops(op) {
        IdleRebuild(a, op);
      }
    }
  }

  /** Without an active series a rebuild only clears. */
  lemma {:induction false} IdleRebuild(a: AxisState, op: Op)
    requires ValidOp(op) && op.SetScale? && op.dirty && !Drops(op)
    ensures Apply(a, op) == AxisState(Cleared(a.stacks), Cleared(a.prev))
  {
    var z := AxisState(Cleared(a.stacks), Cleared(a.prev));
    SomeActiveDropsOld(z, BuildOrder(op.series, op.options.reversedStacks), op.options.ignoreHidden);
    SomeActiveInOrder(op.series, op.options);
  }

  /** The same cells, with the same points and totals. */
  predicate KeepsPlaces(st: StackMap, st': StackMap) {
    && st'.Keys == st.Keys
    && forall c :: c in st ==> st'[c].points == st[c].points && st'[c].total == st[c].total
  }

  /**
   At any point of any run, a rescale that does not rebuild keeps all places and totals, and sets each sum to
   its total, if old and current stacks were made the same since the last rebuild; otherwise it empties the
   stacks.
   */
  lemma {:induction false} CleanRescale(ops: seq<Op>, series: seq<SeriesData>, o: Options)
    requires ValidOps(ops) && AllValid(series) && DistinctIndexes(series)
    ensures var st, st' := Run(ops).stacks, Apply(Run(ops), SetScale(false, series, o)).stacks;
            && (Saved(ops) ==> KeepsPlaces(st, st') && forall c :: c in st ==> st'[c].cum == st[c].total)
            && (!Saved(ops) ==> st' == map[])
  {
    AllOrNone(ops);
  }

  predicate NoRebuilds(calls: seq<Op>) {
    forall i :: 0 <= i < |calls| && calls[i].SetScale? ==> !calls[i].dirty
  }

  predicate SavesAt(calls: seq<Op>, j: nat)
    requires j < |calls|
  {
    calls[j].GetStacks? && calls[j].hasVisibleSeries
  }

  /** Some rescale comes before the first getStacks that saves the stacks. */
  predicate Lost(calls: seq<Op>) {
    exists k :: 0 <= k < |calls| && calls[k].SetScale? && forall j :: 0 <= j < k ==> !SavesAt(calls, j)
  }

  predicate NoneSaved(calls: seq<Op>) {
    forall j :: 0 <= j < |calls| ==> !SavesAt(calls, j)
  }

  lemma {:induction false} LostStep(calls: seq<Op>)
    requires calls != []
    ensures var n := |calls| - 1;
            && (Lost(calls) <==> Lost(calls[..n]) || (calls[n].SetScale? && NoneSaved(calls[..n])))
            && (NoneSaved(calls) <==> NoneSaved(calls[..n]) && !SavesAt(calls, n))
  {
    var n := |calls| - 1;
    assert forall j :: 0 <= j < n ==> calls[..n][j] == calls[j] && SavesAt(calls[..n], j) == SavesAt(calls, j);
    if k :| 0 <= k < |calls| && calls[k].SetScale? && forall j :: 0 <= j < k ==> !SavesAt(calls, j) {
      if k < n {
        assert calls[..n][k].SetScale? && forall j :: 0 <= j < k ==> !SavesAt(calls[..n], j);
      }
    }
    if k :| 0 <= k < n && calls[..n][k].SetScale? && forall j :: 0 <= j < k ==> !SavesAt(calls[..n], j) {
      assert calls[k].SetScale? && forall j :: 0 <= j < k ==> !SavesAt(calls, j);
    }
  }

  /**
   After a rebuild, any calls of getStacks and rescales that do not rebuild leave all places and totals as they
   are, unless a rescale comes before the first getStacks: then no stack is left.
   */
  lemma {:induction false} CleanRescales(built: seq<Op>, calls: seq<Op>)
    requires ValidOps(built) && built != [] && Drops(built[|built| - 1])
    requires ValidOps(calls) && NoRebuilds(calls)
    ensures ValidOps(built + calls)
    ensures var st, st' := Run(built).stacks, Run(built + calls).stacks;
            && (Lost(calls) ==> st' == map[])
            && (!Lost(calls) ==> KeepsPlaces(st, st'))
            && Run(built + calls).prev == if NoneSaved(calls) && !Lost(calls) then map[] else st'
  {
    if calls == [] {
      assert built + calls == built;
      OldStacksAreCurrent(built[..|built| - 1]);
      ApplyKeepsOldCurrent(Run(built[..|built| - 1]), built[|built| - 1]);
    } else {
      assert (built + calls)[..|built + calls| - 1] == built + calls[..|calls| - 1];
      CleanRescales(built, calls[..|calls| - 1]);
      LostStep(calls);
    }
  }

  // ---------- Percent stacking ----------

  lemma {:induction false} LastReach(es: seq<Entry>, k: nat)
    requires k < |es| && forall i :: k < i < |es| ==> es[i].cell != es[k].cell
    ensures SumAt(es[..k + 1], es[k].cell) == SumAt(es, es[k].cell)
  {
    SumSkips(es, k + 1, |es|, es[k].cell);
    assert es[..|es|] == es;
  }

  lemma {:induction false} SameHeight(raw: Interval, cum: real, total: real)
    requires raw.hi == cum
    ensures ToPercent(raw, total).hi == ToPercent(Interval(0.0, cum), total).hi
  {
  }

  /** The last point of a stack reaches as far as the stack. */
  lemma {:induction false} LastPointReaches(a: AxisState, series: seq<SeriesData>, o: Options, k: nat)
    requires AllValid(series) && DistinctIndexes(series) && a.prev.Keys <= a.stacks.Keys
    requires k < |BuiltEntries(series, o)| && UsePercentage(series, o.ignoreHidden)
    requires var es := BuiltEntries(series, o); forall i :: k < i < |es| ==> es[i].cell != es[k].cell
    ensures var st, e := Rescaled(a, series, o).stacks, BuiltEntries(series, o)[k];
            var c, pk := e.cell, e.pk;
            c in st && pk in st[c].points && st[c].points[pk].hi == Reach(st, c)
  {
    var es := BuiltEntries(series, o);
    PlaceOfPoint(a, series, o, k);
    LastReach(es, k);
    var item := Rescaled(a, series, o).stacks[es[k].cell];
    SameHeight(RawInterval(es, k), item.cum, item.total);
  }

  predicate ZeroThreshold(s: SeriesData) {
    !s.threshold.Undefined? && s.threshold.OrZero() == 0.0
  }

  /** With threshold 0 every point is stacked on the side of its sign. */
  lemma {:induction false} ZeroThresholdSides(order: seq<SeriesData>, ignoreHidden: bool, c: Cell)
    requires AllValid(order) && AllPaired(AllEntries(order, ignoreHidden), c)
    requires forall i :: 0 <= i < |order| ==> ZeroThreshold(order[i])
    ensures SidesAgree(AllEntries(order, ignoreHidden), c)
  {
    var es := AllEntries(order, ignoreHidden);
    forall k | 0 <= k < |es| && SamePair(es[k].cell, c)
      ensures SideAgrees(es[k])
    {
      var j, i := EntrySource(Parts(order, ignoreHidden), k);
      assert es[k] == order[j].EntryAt(i) && ZeroThreshold(order[j]);
    }
  }

  /**
   Percent stacking of columns: at an x the two stacks of a pair carry the sum of |y|, and together they span
   exactly 100, from the top of the positive to the bottom of the negative one, if and only if no undefined y
   wiped their total.
   */
  lemma {:induction false} PercentColumns(a: AxisState, series: seq<SeriesData>, o: Options, c: Cell)
    requires AllValid(series) && DistinctIndexes(series) && a.prev.Keys <= a.stacks.Keys
    requires forall i :: 0 <= i < |series| ==> ZeroThreshold(series[i])
    requires AllPaired(BuiltEntries(series, o), c) && !c.negative
    ensures var st, es := Rescaled(a, series, o).stacks, BuiltEntries(series, o);
            && (PairCarries(st, c, SumAbs(es, c)) <==> NothingWiped(Cleared(a.stacks), es, c))
            && (SumAbs(es, c) != 0.0 ==> (PairSpan(st, c) == 100.0 <==> NothingWiped(Cleared(a.stacks), es, c)))
  {
    var es, st0 := BuiltEntries(series, o), Cleared(a.stacks);
    RescaledIs(a, series, o);
    ReachUnscaled(Unscaled(a, series, o), series, c);
    ReachUnscaled(Unscaled(a, series, o), series, Opposite(c));
    PercentTotals(st0, es, c);
    PairSumExact(st0, es, c);
    ZeroThresholdSides(BuildOrder(series, o.reversedStacks), o.ignoreHidden, c);
    PercentSpan(st0, es, c);
  }

  lemma {:induction false} ReachUnscaled(u: StackMap, series: seq<SeriesData>, c: Cell)
    ensures Reach(Scaled(u, series), c) == Reach(u, c)
    ensures c in Scaled(u, series) <==> c in u
    ensures c in u ==> Scaled(u, series)[c].total == u[c].total
  {
  }

  // ---------- Finding a point again ----------

  /** What a stack holds for a point that is not stacked there now is what it held before. */
  lemma {:induction false} PointsStay(st: StackMap, es: seq<Entry>, c: Cell, pk: PointKey)
    requires forall i :: 0 <= i < |es| ==> es[i].cell != c || es[i].pk != pk
    ensures var r := AddEntries(st, map[], es);
            && (c in r && pk in r[c].points <==> c in st && pk in st[c].points)
            && (c in st && pk in st[c].points ==> r[c].points[pk] == st[c].points[pk])
            && (c in r <==> c in st || Holds(es, c))
  {
    if es != [] {
      var n := |es| - 1;
      assert forall i :: 0 <= i < n ==> es[..n][i] == es[i];
      PointsStay(st, es[..n], c, pk);
      assert es[n].cell != c || es[n].pk != pk;
      assert Holds(es, c) <==> Holds(es[..n], c) || es[n].cell == c by {
        if i :| 0 <= i < |es| && es[i].cell == c { assert i < n ==> es[..n][i].cell == c; }
      }
    }
  }

  /** translate finds each visible point at its own place, whatever the axis went through. */
  lemma {:induction false} LookupFindsOwn(a: AxisState, series: seq<SeriesData>, o: Options, m: nat, i: nat,
                                          y: JsNumber, axisMin: real)
    requires AllValid(series) && DistinctIndexes(series) && a.prev.Keys <= a.stacks.Keys
    requires m < |series| && series[m].stacking != Off && series[m].visible && i < |series[m].xs|
    requires series[m].CellOf(series[m].xs[i], y) == series[m].EntryAt(i).cell
    ensures var es, k := BuiltEntries(series, o), PointPosition(series, o, m, i);
            k < |es| && es[k] == series[m].EntryAt(i)
    ensures var st, s := Rescaled(a, series, o).stacks, series[m];
            var es, k, c := BuiltEntries(series, o), PointPosition(series, o, m, i), s.EntryAt(i).cell;
            var raw := RawInterval(es, k);
            var p := PlaceInStack(st, s, i, y, axisMin);
            p.Placed? && c in st &&
            var own := PlaceAt(raw, p.total, UsePercentage(series, o.ignoreHidden));
            && p.total == st[c].total && p.yValue == own.hi
            && p.yBottom == (if own.lo != 0.0 then own.lo else if s.threshold.Num? then s.threshold.v else axisMin)
            && (p.total == 0.0 ==> p.percentage == 0.0)
            && (p.total != 0.0 && y == s.ys[i] ==>
                  p.percentage == ToPercent(raw, p.total).hi - ToPercent(raw, p.total).lo)
  {
    PointAt(series, o, m, i);
    PlaceOfPoint(a, series, o, PointPosition(series, o, m, i));
    var total := Rescaled(a, series, o).stacks[series[m].EntryAt(i).cell].total;
    if total != 0.0 {
      PercentageIsHeight(BuiltEntries(series, o), PointPosition(series, o, m, i), total);
    }
  }

  /** An earlier build has left an entry for the point at this cell. */
  predicate LeftAt(st: StackMap, c: Cell, pk: PointKey) {
    c in st && pk in st[c].points
  }

  lemma {:induction false} StaleUnscaled(a: AxisState, series: seq<SeriesData>, o: Options, m: nat, i: nat, c: Cell)
    requires AllValid(series) && DistinctIndexes(series) && a.prev.Keys <= a.stacks.Keys
    requires m < |series| && series[m].Active(o.ignoreHidden) && i < |series[m].xs| && c != series[m].EntryAt(i).cell
    ensures var u, pk := Unscaled(a, series, o), PointKey(series[m].index, i);
            && (LeftAt(u, c, pk) <==> LeftAt(a.stacks, c, pk))
            && (LeftAt(u, c, pk) ==> u[c].points[pk] == a.stacks[c].points[pk])
            && (c in u <==> c in a.stacks || Holds(BuiltEntries(series, o), c))
  {
    var es, k, pk := BuiltEntries(series, o), PointPosition(series, o, m, i), PointKey(series[m].index, i);
    PointAt(series, o, m, i);
    RescaledIs(a, series, o);
    assert forall n :: 0 <= n < |es| && n != k ==> es[n].pk != pk;
    PointsStay(Cleared(a.stacks), es, c, pk);
  }

  lemma {:induction false} StaleEntry(a: AxisState, series: seq<SeriesData>, o: Options, m: nat, i: nat, c: Cell)
    requires AllValid(series) && DistinctIndexes(series) && a.prev.Keys <= a.stacks.Keys
    requires m < |series| && series[m].Active(o.ignoreHidden) && i < |series[m].xs|
    requires c != series[m].EntryAt(i).cell && c.key == series[m].key && c.x == series[m].xs[i]
    ensures var st, pk := Rescaled(a, series, o).stacks, PointKey(series[m].index, i);
            && (LeftAt(st, c, pk) <==> LeftAt(a.stacks, c, pk))
            && (LeftAt(st, c, pk) ==>
                  st[c].points[pk]
                  == PlaceAt(a.stacks[c].points[pk], st[c].total, UsePercentage(series, o.ignoreHidden)))
            && (c in st <==> c in a.stacks || Holds(BuiltEntries(series, o), c))
  {
    StaleUnscaled(a, series, o, m, i, c);
    RescaledIs(a, series, o);
    assert OwnedBy(series[m], c, PointKey(series[m].index, i));
  }

  /**
   translate finds an entry for a point if and only if its present y is on the side on which the point was
   stacked, or an earlier build has left an entry on the other side. In the second case it finds what that build
   has left, scaled with the present total; when there is a stack but no entry, reading it throws. Hidden series
   and those without stacking are not looked up.
   */
  lemma {:induction false} LookupNeedsSide(a: AxisState, series: seq<SeriesData>, o: Options, m: nat, i: nat,
                                           y: JsNumber, axisMin: real)
    requires AllValid(series) && DistinctIndexes(series) && a.prev.Keys <= a.stacks.Keys
    requires m < |series| && i < |series[m].xs|
    ensures var s, st := series[m], Rescaled(a, series, o).stacks;
            var c, pk, own := s.CellOf(s.xs[i], y), PointKey(s.index, i), s.EntryAt(i).cell;
            var p := PlaceInStack(st, s, i, y, axisMin);
            if s.stacking == Off || !s.visible then p.NotStacked? else
            && (p.Placed? <==> c == own || LeftAt(a.stacks, c, pk))
            && (c != own && p.Placed? ==>
                  p.yValue == PlaceAt(a.stacks[c].points[pk], p.total, UsePercentage(series, o.ignoreHidden)).hi)
            && (p.NotStacked? <==> c != own && c !in a.stacks && !Holds(BuiltEntries(series, o), c))
  {
    var s := series[m];
    var c := s.CellOf(s.xs[i], y);
    if s.stacking == Off || !s.visible {
    } else if c == s.EntryAt(i).cell {
      LookupFindsOwn(a, series, o, m, i, y, axisMin);
    } else {
      StaleEntry(a, series, o, m, i, c);
    }
  }

  /** A waterfall series as it is stacked, with this balance in its one point. */
  function WithBalance(balance: real): SeriesData {
    SeriesData(0, "waterfall", Normal, true, true, Num(0.0), [0.0], [Num(balance)])
  }

  /**
   A sum point of a waterfall series has no y of its own, but is stacked with its balance: a balance
   of -1 lies in a negative stack, and the point is looked for on the positive side.
   */
  lemma {:induction false} NegativeSumIsNotFound(axisMin: real)
    ensures var s, a := WithBalance(-1.0), AxisState(map[], map[]);
            !PlaceInStack(Rescaled(a, [s], Options(false, true)).stacks, s, 0, Undefined, axisMin).Placed?
  {
    var s := WithBalance(-1.0);
    assert s.EntryAt(0).cell.negative && !s.CellOf(0.0, Undefined).negative;
    LookupNeedsSide(AxisState(map[], map[]), [s], Options(false, true), 0, 0, Undefined, axisMin);
  }

  lemma {:induction false} BuiltOnce(balance: real, o: Options)
    requires o == Options(false, true)
    ensures ValidOps([SetScale(true, [WithBalance(balance)], o)])
    ensures var e := WithBalance(balance).EntryAt(0);
            && BuiltEntries([WithBalance(balance)], o) == [e]
            && Run([SetScale(true, [WithBalance(balance)], o)]).stacks == AddEntry(map[], map[], e)
  {
    var s, none: AxisState := WithBalance(balance), AxisState(map[], map[]);
    var ops := [SetScale(true, [s], o)];
    assert ops[..0] == [] && Run(ops) == Rescaled(none, [s], o);
    assert Parts([s], true) == [s.Entries(true)];
    FlattenOne(s.Entries(true));
    assert s.Entries(true) == [s.EntryAt(0)] && [s.EntryAt(0)][..0] == [];
    RescaledIs(none, [s], o);
    assert Cleared(map[]) == map[] && AddEntries(map[], map[], [s.EntryAt(0)]) == AddEntry(map[], map[], s.EntryAt(0));
    UsePercentageIff([s], true);
  }

  /**
   When the balance of that point goes from 1 to -1 between two builds, it is found again on the positive side,
   at the height 1 that the first build has left.
   */
  lemma {:induction false} StaleIsFound(axisMin: real)
    ensures var ops := [SetScale(true, [WithBalance(1.0)], Options(false, true))];
            && ValidOps(ops)
            && var st := Rescaled(Run(ops), [WithBalance(-1.0)], Options(false, true)).stacks;
            var p := PlaceInStack(st, WithBalance(-1.0), 0, Undefined, axisMin);
            p.Placed? && p.yValue == 1.0
  {
    var o := Options(false, true);
    var ops, s := [SetScale(true, [WithBalance(1.0)], o)], WithBalance(-1.0);
    BuiltOnce(1.0, o);
    OldStacksAreCurrent(ops);
    OldKeys(Run(ops));
    assert s.EntryAt(0).cell.negative && s.CellOf(0.0, Undefined) == WithBalance(1.0).EntryAt(0).cell;
    UsePercentageIff([s], true);
    LookupNeedsSide(Run(ops), [s], o, 0, 0, Undefined, axisMin);
  }

  /** The percentage shown for a point is the height that percent stacking gives it. */
  lemma {:induction false} PercentageIsHeight(es: seq<Entry>, k: nat, total: real)
    requires k < |es| && total != 0.0
    ensures var p := ToPercent(RawInterval(es, k), total);
            es[k].y.OrZero() / total * 100.0 == p.hi - p.lo
  {
    SumAtPrefix(es, k, es[k].cell);
  }
}
