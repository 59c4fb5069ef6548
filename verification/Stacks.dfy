/**
 The stacks of one value axis as plain values: what `setStackedPoints`, `setPercentStacks`,
 `buildStacks`, `getStacks` and the stack part of `setScale` do to them, and what the points
 later find there.

 A `total` of `null` and a `cum` that is still missing are represented by 0.0, which is what
 every reader of these two fields makes of them.
 */
module Stacks {
  import opened JsValues
  import opened Sequences

  /** The `stacking` option; any truthy value other than 'percent' behaves like 'normal'. */
  datatype Stacking = Off | Normal | Percent

  /** Where a point is stacked: `stacks[(negative ? '-' : '') + key][x]`. */
  datatype Cell = Cell(negative: bool, key: string, x: real)

  /** The property name `series.index + ',' + i`. */
  datatype PointKey = PointKey(series: nat, point: nat)

  datatype Interval = Interval(lo: real, hi: real)

  datatype Item = Item(total: real, cum: real, points: map<PointKey, Interval>)

  type StackMap = map<Cell, Item>

  /** What stacking reads of a series. */
  datatype SeriesData = SeriesData(
    index: nat, key: string, stacking: Stacking, visible: bool, negStacks: bool,
    threshold: JsNumber, xs: seq<real>, ys: seq<JsNumber>)
  {
    predicate Valid() {
      |xs| == |ys|
    }

    /** The negation of the early return of setStackedPoints. */
    predicate Active(ignoreHidden: bool) {
      stacking != Off && (visible || !ignoreHidden)
    }

    function CellOf(x: real, y: JsNumber): Cell {
      Cell(negStacks && Less(y, threshold), key, x)
    }

    function EntryAt(i: nat): Entry
      requires Valid() && i < |xs|
    {
      Entry(CellOf(xs[i], ys[i]), PointKey(index, i), ys[i], stacking == Percent, negStacks)
    }

    function Entries(ignoreHidden: bool): seq<Entry>
      requires Valid()
    {
      if Active(ignoreHidden) then seq(|xs|, i requires 0 <= i < |xs| => EntryAt(i)) else []
    }
  }

  /** One point on its way into the stacks. */
  datatype Entry = Entry(cell: Cell, pk: PointKey, y: JsNumber, percent: bool, negStacks: bool)

  function Opposite(c: Cell): Cell {
    c.(negative := !c.negative)
  }

  /** The item a point is added to: present, restored from the old stacks, or new. */
  function Opened(st: StackMap, prev: StackMap, c: Cell): Item {
    if c in st then st[c]
    else if c in prev then prev[c].(total := 0.0)
    else Item(0.0, 0.0, map[])
  }

  /** `Math.max(a, b) + Math.abs(y) || 0`: NaN, from an undefined y, is replaced by 0. */
  function PairTotal(a: real, b: real, y: JsNumber): real {
    if y.Undefined? then 0.0 else Max(a, b) + Abs(y.OrZero())
  }

  /** One iteration of the loop of setStackedPoints. */
  function AddEntry(st: StackMap, prev: StackMap, e: Entry): StackMap {
    var item := Opened(st, prev, e.cell);
    var hi := item.cum + e.y.OrZero();
    var points := item.points[e.pk := Interval(item.cum, hi)];
    var other := Opposite(e.cell);
    if e.percent && e.negStacks && other in st then
      var t := PairTotal(st[other].total, item.total, e.y);
      st[e.cell := Item(t, hi, points)][other := st[other].(total := t)]
    else
      var amount := if e.percent then Abs(e.y.OrZero()) else e.y.OrZero();
      st[e.cell := Item(item.total + amount, hi, points)]
  }

  function AddEntries(st: StackMap, prev: StackMap, es: seq<Entry>): StackMap {
    if es == [] then st
    else AddEntry(AddEntries(st, prev, es[..|es| - 1]), prev, es[|es| - 1])
  }

  /** The `stackedYData` of the loop: the height of its stack right after each point. */
  function StackedY(st: StackMap, prev: StackMap, es: seq<Entry>): map<nat, real> {
    if es == [] then map[]
    else
      var n := |es| - 1;
      StackedY(st, prev, es[..n])[n := AddEntry(AddEntries(st, prev, es[..n]), prev, es[n])[es[n].cell].cum]
  }

  datatype AxisState = AxisState(stacks: StackMap, prev: StackMap)

  /** setStackedPoints of one series: the old stacks are dropped after the first active one. */
  function StackSeries(a: AxisState, s: SeriesData, ignoreHidden: bool): AxisState
    requires s.Valid()
  {
    if s.Active(ignoreHidden)
    then AxisState(AddEntries(a.stacks, a.prev, s.Entries(ignoreHidden)), map[])
    else a
  }

  predicate AllValid(order: seq<SeriesData>) {
    forall i :: 0 <= i < |order| ==> order[i].Valid()
  }

  function StackAll(a: AxisState, order: seq<SeriesData>, ignoreHidden: bool): AxisState
    requires AllValid(order)
  {
    if order == [] then a
    else StackSeries(StackAll(a, order[..|order| - 1], ignoreHidden), order[|order| - 1], ignoreHidden)
  }

  function BuildOrder(series: seq<SeriesData>, reversedStacks: bool): seq<SeriesData> {
    if reversedStacks then Reverse(series) else series
  }

  /** Does a series look for one of its points at this place in setPercentStacks? */
  predicate OwnedBy(s: SeriesData, c: Cell, pk: PointKey) {
    pk.series == s.index && c.key == s.key && pk.point < |s.xs| && s.xs[pk.point] == c.x
  }

  predicate Owned(series: seq<SeriesData>, c: Cell, pk: PointKey) {
    exists i :: 0 <= i < |series| && OwnedBy(series[i], c, pk)
  }

  function ToPercent(i: Interval, total: real): Interval {
    var factor := if total != 0.0 then 100.0 / total else 0.0;
    Interval(i.lo * factor, i.hi * factor)
  }

  /** One iteration of the loop of setPercentStacks. */
  function ScaleOne(st: StackMap, c: Cell, pk: PointKey): StackMap {
    if c in st && pk in st[c].points
    then st[c := st[c].(points := st[c].points[pk := ToPercent(st[c].points[pk], st[c].total)])]
    else st
  }

  function ScaleCell(s: SeriesData, negative: bool, i: nat): Cell
    requires i < |s.xs|
  {
    Cell(negative, s.key, s.xs[i])
  }

  /** One pass of setPercentStacks, which runs from the last point down to point i. */
  function ScaleDown(st: StackMap, s: SeriesData, negative: bool, i: nat): StackMap
    requires i <= |s.xs|
    decreases |s.xs| - i
  {
    if i == |s.xs| then st
    else ScaleOne(ScaleDown(st, s, negative, i + 1), ScaleCell(s, negative, i), PointKey(s.index, i))
  }

  /** `stackedYData` after that pass. */
  function PercentY(st: StackMap, s: SeriesData, negative: bool, i: nat, y: map<nat, real>): map<nat, real>
    requires i <= |s.xs|
    decreases |s.xs| - i
  {
    if i == |s.xs| then y
    else
      var y', r := PercentY(st, s, negative, i + 1, y), ScaleDown(st, s, negative, i + 1);
      var c, pk := ScaleCell(s, negative, i), PointKey(s.index, i);
      if c in r && pk in r[c].points then y'[i := ToPercent(r[c].points[pk], r[c].total).hi] else y'
  }

  /** setPercentStacks: the positive stacks, then the negative ones. */
  function PercentSeries(st: StackMap, s: SeriesData): StackMap {
    ScaleDown(ScaleDown(st, s, false, 0), s, true, 0)
  }

  function PercentAll(st: StackMap, series: seq<SeriesData>): StackMap {
    if series == [] then st
    else PercentSeries(PercentAll(st, series[..|series| - 1]), series[|series| - 1])
  }

  /** Every point that some series looks for is scaled to percent, once. */
  function Scaled(st: StackMap, series: seq<SeriesData>): StackMap {
    map c | c in st ::
      st[c].(points := map pk | pk in st[c].points ::
                 if Owned(series, c, pk) then ToPercent(st[c].points[pk], st[c].total)
                 else st[c].points[pk])
  }

  /** The flag that the active percent series leave behind. */
  predicate UsePercentage(series: seq<SeriesData>, ignoreHidden: bool) {
    series != [] &&
    var n := |series| - 1;
    UsePercentage(series[..n], ignoreHidden) || (series[n].Active(ignoreHidden) && series[n].stacking == Percent)
  }

  /** The options of the axis and the chart that stacking reads. */
  datatype Options = Options(reversedStacks: bool, ignoreHidden: bool)

  function BuildStacks(a: AxisState, series: seq<SeriesData>, o: Options): AxisState
    requires AllValid(series)
  {
    var b := StackAll(a, BuildOrder(series, o.reversedStacks), o.ignoreHidden);
    if UsePercentage(series, o.ignoreHidden) then b.(stacks := PercentAll(b.stacks, series)) else b
  }

  function Cleared(st: StackMap): StackMap {
    map c | c in st :: st[c].(total := 0.0, cum := 0.0)
  }

  function Refilled(st: StackMap): StackMap {
    map c | c in st :: st[c].(cum := st[c].total)
  }

  /** What translate takes from the stacks for one point. */
  datatype Placed =
    | NotStacked          // no such stack: the point keeps its own y
    | NoEntry             // reading the extremes of a missing entry throws
    | Placed(yBottom: real, yValue: real, total: real, percentage: real)

  /** `pick(threshold, axis.min)` */
  function Pick(threshold: JsNumber, axisMin: real): real {
    if threshold.Num? then threshold.v else axisMin
  }

  /** The stack lookup in translate for point i, whose current value is y. */
  function PlaceInStack(st: StackMap, s: SeriesData, i: nat, y: JsNumber, axisMin: real): Placed
    requires i < |s.xs|
  {
    var c, pk := s.CellOf(s.xs[i], y), PointKey(s.index, i);
    if s.stacking == Off || !s.visible || c !in st then NotStacked
    else if pk !in st[c].points then NoEntry
    else
      var p, total := st[c].points[pk], st[c].total;
      Placed(if p.lo == 0.0 then Pick(s.threshold, axisMin) else p.lo, p.hi, total,
             if total != 0.0 then y.OrZero() / total * 100.0 else 0.0)
  }

  /**
   What happens to an axis between two looks at its stacks, with the series as they are then. In a
   run the old stacks hold the very items of the current ones, so an update reaches both.
   */
  datatype Op =
    | GetStacks(hasVisibleSeries: bool)
    | SetScale(dirty: bool, series: seq<SeriesData>, options: Options)

  predicate ValidOp(op: Op) {
    op.SetScale? ==> AllValid(op.series) && DistinctIndexes(op.series)
  }

  predicate DistinctIndexes(series: seq<SeriesData>) {
    forall i, j :: 0 <= i < j < |series| ==> series[i].index != series[j].index
  }

  function Apply(a: AxisState, op: Op): AxisState
    requires ValidOp(op)
  {
    match op
    case GetStacks(visible) => if visible then a.(prev := a.stacks) else a
    case SetScale(dirty, series, o) =>
      if dirty then BuildStacks(AxisState(Cleared(a.stacks), Cleared(a.prev)), series, o)
      else AxisState(Refilled(a.prev), Refilled(a.prev))
  }

  predicate ValidOps(ops: seq<Op>) {
    forall i :: 0 <= i < |ops| ==> ValidOp(ops[i])
  }

  /** Any run from a new axis. */
  function Run(ops: seq<Op>): AxisState
    requires ValidOps(ops)
  {
    if ops == [] then AxisState(map[], map[])
    else Apply(Run(ops[..|ops| - 1]), ops[|ops| - 1])
  }
}
