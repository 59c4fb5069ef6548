/**
 The stacks when `reversedStacks` is turned over: the same series stacked in the opposite order.

 A condition that is bound to a name, as in `var ok := P(); ok`, means P(). The verifier takes it as one fact
 instead of splitting it into its parts.
 */
module StackMirror {
  import opened JsValues
  import opened Sequences
  import opened Stacks
  import opened StackTheorems
  import opened StackRuns
  import opened StackHistories

  lemma {:induction false} SumAtConcat(a: seq<Entry>, b: seq<Entry>, c: Cell)
    ensures SumAt(a + b, c) == SumAt(a, c) + SumAt(b, c)
    ensures SumAbs(a + b, c) == SumAbs(a, c) + SumAbs(b, c)
    ensures AmountSum(a + b, c) == AmountSum(a, c) + AmountSum(b, c)
  {
    if b == [] {
      assert a + b == a;
    } else {
      assert (a + b)[..|a + b| - 1] == a + b[..|b| - 1];
      SumAtConcat(a, b[..|b| - 1], c);
    }
  }

  /** Stacking in the opposite order adds up to the same sums. */
  lemma {:induction false} ReverseKeepsSums(parts: seq<seq<Entry>>, c: Cell)
    ensures SumAt(Flatten(Reverse(parts)), c) == SumAt(Flatten(parts), c)
    ensures SumAbs(Flatten(Reverse(parts)), c) == SumAbs(Flatten(parts), c)
    ensures AmountSum(Flatten(Reverse(parts)), c) == AmountSum(Flatten(parts), c)
  {
    if parts != [] {
      var init, last := parts[..|parts| - 1], parts[|parts| - 1];
      ReverseKeepsSums(init, c);
      assert Reverse(parts) == [last] + Reverse(init);
      FlattenConcat([last], Reverse(init));
      FlattenOne(last);
      SumAtConcat(last, Flatten(Reverse(init)), c);
      SumAtConcat(Flatten(init), last, c);
    }
  }

  /** Point i is the only point of its series in its stack. */
  predicate OnlyPoint(part: seq<Entry>, i: nat)
    requires i < |part|
  {
    forall i' :: 0 <= i' < |part| && i' != i ==> part[i'].cell != part[i].cell
  }

  lemma {:induction false} OnlyPointSum(part: seq<Entry>, i: nat)
    requires i < |part| && OnlyPoint(part, i)
    ensures SumAt(part[..i], part[i].cell) == 0.0
    ensures SumAt(part, part[i].cell) == part[i].y.OrZero()
  {
    var c := part[i].cell;
    assert part[..0] == [] && part[..|part|] == part;
    SumSkips(part, 0, i, c);
    SumSkips(part, i + 1, |part|, c);
    SumAtPrefix(part, i, c);
  }

  /** With one point per series and stack, a point covers what its series adds to the series below. */
  lemma {:induction false} SeriesInterval(parts: seq<seq<Entry>>, j: nat, i: nat)
    requires j < |parts| && i < |parts[j]| && OnlyPoint(parts[j], i)
    ensures var es, k, c := Flatten(parts), Offset(parts, j) + i, parts[j][i].cell;
            var below := SumAt(Flatten(parts[..j]), c);
            && k < |es| && es[k] == parts[j][i]
            && RawInterval(es, k) == Interval(below, below + SumAt(parts[j], c))
  {
    var es, k, c := Flatten(parts), Offset(parts, j) + i, parts[j][i].cell;
    EntryPosition(parts, j, i);
    OnlyPointSum(parts[j], i);
    SumAtPrefix(es, k, c);
    SumAtConcat(Flatten(parts[..j]), parts[j][..i], c);
  }

  /** The same point when the parts are stacked the other way round. */
  lemma {:induction false} MirrorInterval(parts: seq<seq<Entry>>, j: nat, i: nat)
    requires j < |parts| && i < |parts[j]| && OnlyPoint(parts[j], i)
    ensures var es, k := Flatten(parts), Offset(parts, j) + i;
            var es', k' := Flatten(Reverse(parts)), Offset(Reverse(parts), |parts| - 1 - j) + i;
            && k < |es| && k' < |es'| && es[k] == es'[k'] == parts[j][i]
            && RawInterval(es', k').lo == SumAt(es, es[k].cell) - RawInterval(es, k).hi
            && RawInterval(es', k').hi == SumAt(es, es[k].cell) - RawInterval(es, k).lo
  {
    SeriesInterval(parts, j, i);
    SeriesInterval(Reverse(parts), |parts| - 1 - j, i);
    SumsAround(parts, j, parts[j][i].cell);
  }

  /** What lies above part j is what lies below it in the opposite order. */
  lemma {:induction false} SumsAround(parts: seq<seq<Entry>>, j: nat, c: Cell)
    requires j < |parts|
    ensures SumAt(Flatten(parts), c) ==
            SumAt(Flatten(parts[..j]), c) + SumAt(parts[j], c) + SumAt(Flatten(Reverse(parts)[..|parts| - 1 - j]), c)
  {
    var below, above := Flatten(parts[..j]), Flatten(parts[j + 1..]);
    FlattenSplit(parts, j);
    SumAtConcat(below + parts[j], above, c);
    SumAtConcat(below, parts[j], c);
    assert Reverse(parts)[..|parts| - 1 - j] == Reverse(parts[j + 1..]);
    ReverseKeepsSums(parts[j + 1..], c);
  }

  lemma {:induction false} SameEntries(parts: seq<seq<Entry>>, k: nat) returns (k': nat)
    requires k < |Flatten(Reverse(parts))|
    ensures k' < |Flatten(parts)| && Flatten(parts)[k'] == Flatten(Reverse(parts))[k]
  {
    var j, i := EntrySource(Reverse(parts), k);
    EntryPosition(parts, |parts| - 1 - j, i);
    k' := Offset(parts, |parts| - 1 - j) + i;
  }

  /** What holds of all points in one order holds of them in the other. */
  lemma {:induction false} ReverseKeepsKinds(parts: seq<seq<Entry>>, c: Cell)
    ensures NonePaired(Flatten(parts), c) ==> NonePaired(Flatten(Reverse(parts)), c)
    ensures AllPaired(Flatten(parts), c) ==> AllPaired(Flatten(Reverse(parts)), c)
    ensures NoneUndefined(Flatten(parts), c) ==> NoneUndefined(Flatten(Reverse(parts)), c)
  {
    forall k | 0 <= k < |Flatten(Reverse(parts))|
      ensures exists k' :: 0 <= k' < |Flatten(parts)| && Flatten(parts)[k'] == Flatten(Reverse(parts))[k]
    {
      var k' := SameEntries(parts, k);
    }
  }

  /** Where the stack `c` ends. */
  function Top(st: StackMap, c: Cell, usePercentage: bool): real
    requires c in st
  {
    PlaceAt(Interval(0.0, st[c].cum), st[c].total, usePercentage).hi
  }

  lemma {:induction false} MirrorPlaces(raw: Interval, raw': Interval, cum: real, total: real, usePercentage: bool)
    requires raw' == Interval(cum - raw.hi, cum - raw.lo)
    ensures var p, top := PlaceAt(raw, total, usePercentage), PlaceAt(Interval(0.0, cum), total, usePercentage).hi;
            PlaceAt(raw', total, usePercentage) == Interval(top - p.hi, top - p.lo)
  {
  }

  lemma {:induction false} SameProduct(x: real, f: real, f': real)
    requires f != f'
    ensures x * f == x * f' <==> x == 0.0
  {
    assert x * f - x * f' == x * (f - f');
  }

  lemma {:induction false} FactorsDiffer(total: real, total': real)
    requires total != total'
    ensures (if total != 0.0 then 100.0 / total else 0.0) != (if total' != 0.0 then 100.0 / total' else 0.0)
  {
  }

  /** Scaled with different totals, two places mirror each other only when stack and point end at 0. */
  lemma {:induction false} MirrorNeedsTotal(raw: Interval, cum: real, total: real, total': real)
    requires total != total'
    ensures var p, p' := ToPercent(raw, total), ToPercent(Interval(cum - raw.hi, cum - raw.lo), total');
            var top, top' := ToPercent(Interval(0.0, cum), total).hi, ToPercent(Interval(0.0, cum), total').hi;
            top == top' && p' == Interval(top - p.hi, top - p.lo) <==> cum == 0.0 && p == p' == Interval(0.0, 0.0)
  {
    var f := if total != 0.0 then 100.0 / total else 0.0;
    var f' := if total' != 0.0 then 100.0 / total' else 0.0;
    FactorsDiffer(total, total');
    SameProduct(cum, f, f');
    SameProduct(raw.lo, f, f');
    SameProduct(raw.hi, f, f');
    if cum == 0.0 {
      assert (cum - raw.hi) * f' == -(raw.hi * f') && (cum - raw.lo) * f' == -(raw.lo * f');
    }
  }

  /** Point k of one order and point k' of the other are the same and mirror each other in the sum of their stack. */
  predicate MirrorPair(es: seq<Entry>, k: nat, es': seq<Entry>, k': nat, e: Entry) {
    && k < |es| && k' < |es'| && es[k] == es'[k'] == e
    && SumAt(es', e.cell) == SumAt(es, e.cell)
    && RawInterval(es', k') ==
       Interval(SumAt(es, e.cell) - RawInterval(es, k).hi, SumAt(es, e.cell) - RawInterval(es, k).lo)
  }

  lemma {:induction false} MirrorParts(parts: seq<seq<Entry>>, j: nat, i: nat)
    requires j < |parts| && i < |parts[j]| && OnlyPoint(parts[j], i)
    ensures MirrorPair(Flatten(parts), Offset(parts, j) + i,
                       Flatten(Reverse(parts)), Offset(Reverse(parts), |parts| - 1 - j) + i, parts[j][i])
  {
    MirrorInterval(parts, j, i);
    ReverseKeepsSums(parts, parts[j][i].cell);
  }

  lemma {:induction false} MirrorPoint(parts: seq<seq<Entry>>, j: nat, part: seq<Entry>, i: nat)
    returns (k: nat, k': nat)
    requires j < |parts| && parts[j] == part && i < |part| && OnlyPoint(part, i)
    ensures var pair := MirrorPair(Flatten(parts), k, Flatten(Reverse(parts)), k', part[i]); pair
  {
    MirrorParts(parts, j, i);
    k, k' := Offset(parts, j) + i, Offset(Reverse(parts), |parts| - 1 - j) + i;
  }

  /** The two stacks have the same end, and the intervals of the point are mirror images. */
  predicate IntervalsMirrored(st: StackMap, st': StackMap, c: Cell, pk: PointKey, usePercentage: bool) {
    && c in st && c in st' && pk in st[c].points && pk in st'[c].points
    && Top(st, c, usePercentage) == Top(st', c, usePercentage)
    && var top, p := Top(st, c, usePercentage), st[c].points[pk];
    st'[c].points[pk] == Interval(top - p.hi, top - p.lo)
  }

  /** Both stacks add up to 0, and in both the point has no height. */
  predicate NoHeight(st: StackMap, st': StackMap, c: Cell, pk: PointKey)
    requires c in st && c in st' && pk in st[c].points && pk in st'[c].points
  {
    st[c].cum == 0.0 && st[c].points[pk] == st'[c].points[pk] == Interval(0.0, 0.0)
  }

  lemma {:induction false} MirrorPlaced(st: StackMap, before: StackMap, es: seq<Entry>, k: nat,
                                        st': StackMap, before': StackMap, es': seq<Entry>, k': nat, percent: bool)
    requires k < |es| && k' < |es'| && MirrorPair(es, k, es', k', es[k])
    requires InPlace(st, before, es, k, percent) && InPlace(st', before', es', k', percent)
    ensures var c, pk := es[k].cell, es[k].pk;
            IntervalsMirrored(st, st', c, pk, percent) <==>
            !percent || st[c].total == st'[c].total || NoHeight(st, st', c, pk)
  {
    var c, raw, raw' := es[k].cell, RawInterval(es, k), RawInterval(es', k');
    if percent && st[c].total != st'[c].total {
      MirrorNeedsTotal(raw, st[c].cum, st[c].total, st'[c].total);
    } else {
      MirrorPlaces(raw, raw', st[c].cum, st[c].total, percent);
    }
  }

  lemma {:induction false} PartsReverse(series: seq<SeriesData>, ignoreHidden: bool)
    requires AllValid(series)
    ensures AllValid(Reverse(series))
    ensures Parts(Reverse(series), ignoreHidden) == Reverse(Parts(series, ignoreHidden))
  {
  }

  /** The points in the order in which the series are given, and in the opposite order. */
  function Forward(series: seq<SeriesData>, ignoreHidden: bool): seq<Entry>
    requires AllValid(series)
  {
    BuiltEntries(series, Options(false, ignoreHidden))
  }

  function Backward(series: seq<SeriesData>, ignoreHidden: bool): seq<Entry>
    requires AllValid(series)
  {
    BuiltEntries(series, Options(true, ignoreHidden))
  }

  lemma {:induction false} BothOrders(series: seq<SeriesData>, ignoreHidden: bool)
    requires AllValid(series)
    ensures Forward(series, ignoreHidden) == Flatten(Parts(series, ignoreHidden))
    ensures Backward(series, ignoreHidden) == Flatten(Reverse(Parts(series, ignoreHidden)))
  {
    PartsReverse(series, ignoreHidden);
  }

  /** Where a point is in the two orders. */
  lemma {:induction false} PointInOrders(series: seq<SeriesData>, ignoreHidden: bool, m: nat, i: nat)
    returns (k: nat, k': nat)
    requires AllValid(series) && m < |series| && series[m].Active(ignoreHidden) && i < |series[m].xs|
    requires OnlyPoint(series[m].Entries(ignoreHidden), i)
    ensures var pair := MirrorPair(Forward(series, ignoreHidden), k, Backward(series, ignoreHidden), k',
                                   series[m].EntryAt(i));
            pair
  {
    BothOrders(series, ignoreHidden);
    var part := series[m].Entries(ignoreHidden);
    k, k' := MirrorPoint(Parts(series, ignoreHidden), m, part, i);
  }

  /**
   Turning `reversedStacks` over keeps every sum. It sends the interval of a point that is alone of its series
   in its stack to its mirror image in that stack: always without percent stacking, and with it if and only if
   the totals agree or both stack and point end at 0. The two axes may have been through different histories.
   */
  lemma {:induction false} MirrorLaw(a: AxisState, b: AxisState, series: seq<SeriesData>, ignoreHidden: bool, m: nat,
                                     i: nat)
    requires AllValid(series) && DistinctIndexes(series)
    requires a.prev.Keys <= a.stacks.Keys && b.prev.Keys <= b.stacks.Keys
    requires m < |series| && series[m].Active(ignoreHidden) && i < |series[m].xs|
    requires OnlyPoint(series[m].Entries(ignoreHidden), i)
    ensures var st, st' := Rescaled(a, series, Options(false, ignoreHidden)).stacks,
                           Rescaled(b, series, Options(true, ignoreHidden)).stacks;
            var e, percent := series[m].EntryAt(i), UsePercentage(series, ignoreHidden);
            var c, pk := e.cell, e.pk;
            && c in st && c in st' && pk in st[c].points && pk in st'[c].points && st[c].cum == st'[c].cum
            && (IntervalsMirrored(st, st', c, pk, percent) <==>
                !percent || st[c].total == st'[c].total || NoHeight(st, st', c, pk))
  {
    var o, o' := Options(false, ignoreHidden), Options(true, ignoreHidden);
    var k, k' := PointInOrders(series, ignoreHidden, m, i);
    PlaceOfPoint(a, series, o, k);
    PlaceOfPoint(b, series, o', k');
    MirrorPlaced(Rescaled(a, series, o).stacks, Cleared(a.stacks), Forward(series, ignoreHidden), k,
                 Rescaled(b, series, o').stacks, Cleared(b.stacks), Backward(series, ignoreHidden), k',
                 UsePercentage(series, ignoreHidden));
  }

  // ---------- Totals in both orders ----------

  /** Without paired points the total of a stack is the same in both orders, after any histories. */
  lemma {:induction false} UnpairedOrders(a: AxisState, b: AxisState, series: seq<SeriesData>, ignoreHidden: bool,
                                          c: Cell)
    requires AllValid(series) && DistinctIndexes(series)
    requires a.prev.Keys <= a.stacks.Keys && b.prev.Keys <= b.stacks.Keys
    requires NonePaired(Forward(series, ignoreHidden), c)
    ensures TotalIn(Rescaled(a, series, Options(false, ignoreHidden)).stacks, c) ==
            TotalIn(Rescaled(b, series, Options(true, ignoreHidden)).stacks, c)
  {
    var es, es' := Forward(series, ignoreHidden), Backward(series, ignoreHidden);
    BothOrders(series, ignoreHidden);
    ReverseKeepsKinds(Parts(series, ignoreHidden), c);
    ReverseKeepsSums(Parts(series, ignoreHidden), c);
    RescaledTotal(a, series, Options(false, ignoreHidden), c);
    RescaledTotal(b, series, Options(true, ignoreHidden), c);
    UnpairedAmount(Stale(a.stacks.Keys * PairCells(c)), es, c);
    UnpairedAmount(Stale(b.stacks.Keys * PairCells(c)), es', c);
  }

  /** The sum of the values that the last wipe leaves over, on an axis where these cells are there before. */
  function LeftOver(cells: set<Cell>, es: seq<Entry>, c: Cell): real {
    SumAbs(es[Wiped(Stale(cells), es, c)..], c)
  }

  lemma {:induction false} HoldsBackward(series: seq<SeriesData>, ignoreHidden: bool, c: Cell)
    requires AllValid(series) && Holds(Forward(series, ignoreHidden), c)
    ensures Holds(Backward(series, ignoreHidden), c)
  {
    var es, parts := Forward(series, ignoreHidden), Parts(series, ignoreHidden);
    BothOrders(series, ignoreHidden);
    var i :| 0 <= i < |es| && es[i].cell == c;
    assert Reverse(Reverse(parts)) == parts;
    var i' := SameEntries(Reverse(parts), i);
  }

  /**
   The total of a pair of percent stacks is the same in both orders if and only if the values that come after
   the last wiping undefined y have the same sum in both.
   */
  lemma {:induction false} PairedOrders(a: AxisState, b: AxisState, series: seq<SeriesData>, ignoreHidden: bool,
                                        c: Cell)
    requires AllValid(series) && DistinctIndexes(series)
    requires a.prev.Keys <= a.stacks.Keys && b.prev.Keys <= b.stacks.Keys
    requires AllPaired(Forward(series, ignoreHidden), c) && Holds(Forward(series, ignoreHidden), c)
    ensures TotalIn(Rescaled(a, series, Options(false, ignoreHidden)).stacks, c) ==
            TotalIn(Rescaled(b, series, Options(true, ignoreHidden)).stacks, c) <==>
            LeftOver(a.stacks.Keys * PairCells(c), Forward(series, ignoreHidden), c) ==
            LeftOver(b.stacks.Keys * PairCells(c), Backward(series, ignoreHidden), c)
  {
    var es, es' := Forward(series, ignoreHidden), Backward(series, ignoreHidden);
    BothOrders(series, ignoreHidden);
    ReverseKeepsKinds(Parts(series, ignoreHidden), c);
    HoldsBackward(series, ignoreHidden, c);
    OrderTotal(a, series, Options(false, ignoreHidden), c);
    OrderTotal(b, series, Options(true, ignoreHidden), c);
  }

  lemma {:induction false} OrderTotal(a: AxisState, series: seq<SeriesData>, o: Options, c: Cell)
    requires AllValid(series) && DistinctIndexes(series) && a.prev.Keys <= a.stacks.Keys
    requires AllPaired(BuiltEntries(series, o), c) && Holds(BuiltEntries(series, o), c)
    ensures TotalIn(Rescaled(a, series, o).stacks, c)
            == LeftOver(a.stacks.Keys * PairCells(c), BuiltEntries(series, o), c)
  {
    var es, cells := BuiltEntries(series, o), a.stacks.Keys * PairCells(c);
    RescaledTotal(a, series, o, c);
    PairedTotal(cells, es, c);
    KeptAfterWipe(Stale(cells), es, c);
  }

  /** Without an undefined y nothing is wiped, and the order does not matter. */
  lemma {:induction false} DefinedOrders(cells: set<Cell>, cells': set<Cell>, series: seq<SeriesData>,
                                         ignoreHidden: bool, c: Cell)
    requires AllValid(series) && NoneUndefined(Forward(series, ignoreHidden), c)
    ensures LeftOver(cells, Forward(series, ignoreHidden), c) == LeftOver(cells', Backward(series, ignoreHidden), c)
  {
    var es, es' := Forward(series, ignoreHidden), Backward(series, ignoreHidden);
    BothOrders(series, ignoreHidden);
    ReverseKeepsKinds(Parts(series, ignoreHidden), c);
    ReverseKeepsSums(Parts(series, ignoreHidden), c);
    KeptAfterWipe(Stale(cells), es, c);
    KeptAfterWipe(Stale(cells'), es', c);
    PairSumIsSumAbs(Stale(cells), es, c);
    PairSumIsSumAbs(Stale(cells'), es', c);
  }

  /** A rebuild in either order gives the stack the same total, after whatever histories. */
  ghost predicate AnyOrder(series: seq<SeriesData>, ignoreHidden: bool, c: Cell)
    requires AllValid(series) && DistinctIndexes(series)
  {
    && AnyHistory(series, Options(false, ignoreHidden), c) && AnyHistory(series, Options(true, ignoreHidden), c)
    && TotalAfter([], series, Options(false, ignoreHidden), c) == TotalAfter([], series, Options(true, ignoreHidden), c)
  }

  /** From the series alone: when order and history have no influence on the total of a pair of percent stacks. */
  lemma {:induction false} PairedAnyOrder(series: seq<SeriesData>, ignoreHidden: bool, c: Cell)
    requires AllValid(series) && DistinctIndexes(series)
    requires AllPaired(Forward(series, ignoreHidden), c) && Holds(Forward(series, ignoreHidden), c)
    ensures AnyOrder(series, ignoreHidden, c) <==>
              && !StaleWipe(Forward(series, ignoreHidden), c) && !StaleWipe(Backward(series, ignoreHidden), c)
              && LeftOver({}, Forward(series, ignoreHidden), c) == LeftOver({}, Backward(series, ignoreHidden), c)
  {
    BothOrders(series, ignoreHidden);
    ReverseKeepsKinds(Parts(series, ignoreHidden), c);
    HoldsBackward(series, ignoreHidden, c);
    PairedHistory(series, Options(false, ignoreHidden), c);
    PairedHistory(series, Options(true, ignoreHidden), c);
    PairedOrders(Run([]), Run([]), series, ignoreHidden, c);
    assert Run([]).stacks.Keys * PairCells(c) == {};
  }

  lemma {:induction false} TwoTotals(a: Entry, b: Entry)
    requires a == Column(0, Num(-3.0)).EntryAt(0) && b == Column(1, Undefined).EntryAt(0)
    ensures TotalFrom({}, [a, b], Pair(false)) == 0.0 && TotalFrom({}, [b, a], Pair(false)) == 3.0
  {
    TwoEntries(Stale({}), map[], a, b);
    TwoEntries(Stale({}), map[], b, a);
  }

  /** Percent columns -3 and undefined at one x total 0 in the given order and 3 in the opposite one. */
  lemma {:induction false} OrderChangesTotal(series: seq<SeriesData>)
    requires series == [Column(0, Num(-3.0)), Column(1, Undefined)]
    ensures AllValid(series) && DistinctIndexes(series)
    ensures TotalAfter([], series, Options(false, true), Pair(false)) == 0.0
    ensures TotalAfter([], series, Options(true, true), Pair(false)) == 3.0
  {
    TwoColumns(series);
    TwoTotals(series[0].EntryAt(0), series[1].EntryAt(0));
    assert Run([]).stacks.Keys * PairCells(Pair(false)) == {};
    TotalAfterIs([], series, Options(false, true), Pair(false));
    TotalAfterIs([], series, Options(true, true), Pair(false));
  }

  lemma {:induction false} TwoColumns(series: seq<SeriesData>)
    requires series == [Column(0, Num(-3.0)), Column(1, Undefined)]
    ensures AllValid(series) && DistinctIndexes(series)
    ensures Forward(series, true) == [series[0].EntryAt(0), series[1].EntryAt(0)]
    ensures Backward(series, true) == [series[1].EntryAt(0), series[0].EntryAt(0)]
  {
    var a, b := series[0].Entries(true), series[1].Entries(true);
    BothOrders(series, true);
    assert Parts(series, true) == [a] + [b] && Reverse(Parts(series, true)) == [b] + [a];
    FlattenConcat([a], [b]);
    FlattenConcat([b], [a]);
    FlattenOne(a);
    FlattenOne(b);
  }
}
