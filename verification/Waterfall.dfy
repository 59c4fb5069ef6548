/**
 The waterfall series. Its running balance is computed twice, by processData, which writes sums
 over its own input, and by translate, which reads the balance back from the stacks of the axis.

 Bars are given by the values they span: pixel rounding and minimal lengths are left out.

 A condition that is bound to a name, as in `var ok := P(); ok`, means P(). The verifier takes it as one fact
 instead of splitting it into its parts.
 */
module Waterfall {
  import opened JsValues
  import opened Stacks
  import opened StackTheorems
  import opened StackRuns

  datatype Kind = Ordinary | Sum | Intermediate

  /** An entry of yData. */
  datatype YValue = Number(v: real) | NoValue | SumMark | IntermediateMark {
    /** What an entry adds to a sum. */
    function Amount(): real {
      if Number? then v else 0.0
    }
  }

  /** The options of a point; `y` is a number or null. */
  datatype PointOptions = PointOptions(kind: Kind, x: real, y: YValue)

  function ToYData(pt: PointOptions): YValue {
    match pt.kind
    case Sum => if pt.x == 0.0 then NoValue else SumMark
    case Intermediate => if pt.x == 0.0 then NoValue else IntermediateMark
    case Ordinary => pt.y
  }

  // ---------- The balance ----------

  /** `points && points[i] ? points[i] : {}` */
  function FlagAt(flags: seq<Kind>, i: nat): Kind {
    if i < |flags| then flags[i] else Ordinary
  }

  function RoleAt(ys: seq<YValue>, flags: seq<Kind>, i: nat): Kind
    requires i < |ys|
  {
    if ys[i] == SumMark || FlagAt(flags, i) == Sum then Sum
    else if ys[i] == IntermediateMark || FlagAt(flags, i) == Intermediate then Intermediate
    else Ordinary
  }

  /** The threshold plus all ordinary values before n. */
  function Balance(ys: seq<YValue>, flags: seq<Kind>, threshold: real, n: nat): real
    requires n <= |ys|
  {
    if n == 0 then threshold
    else
      Balance(ys, flags, threshold, n - 1) + if RoleAt(ys, flags, n - 1) == Ordinary then ys[n - 1].Amount() else 0.0
  }

  /** Sum points hold the balance, all other entries stay. */
  function Rewritten(ys: seq<YValue>, flags: seq<Kind>, threshold: real): (r: seq<YValue>)
    ensures |r| == |ys|
  {
    seq(|ys|, i requires 0 <= i < |ys| =>
      if RoleAt(ys, flags, i) == Ordinary then ys[i] else Number(Balance(ys, flags, threshold, i)))
  }

  /** The entries while the loop of processData is at n. */
  function RewrittenTo(ys: seq<YValue>, flags: seq<Kind>, threshold: real, n: nat): (r: seq<YValue>)
    requires n <= |ys|
    ensures |r| == |ys|
    ensures forall k :: n <= k < |ys| ==> r[k] == ys[k]
  {
    if n == 0 then ys
    else
      var r := RewrittenTo(ys, flags, threshold, n - 1);
      if RoleAt(ys, flags, n - 1) == Ordinary then r else r[n - 1 := Number(Balance(ys, flags, threshold, n - 1))]
  }

  lemma {:induction false} RewrittenToAt(ys: seq<YValue>, flags: seq<Kind>, threshold: real, n: nat, k: nat)
    requires k < n <= |ys|
    ensures RewrittenTo(ys, flags, threshold, n)[k] == Rewritten(ys, flags, threshold)[k]
  {
    if k < n - 1 {
      RewrittenToAt(ys, flags, threshold, n - 1, k);
    }
  }

  lemma {:induction false} RewrittenAll(ys: seq<YValue>, flags: seq<Kind>, threshold: real)
    ensures RewrittenTo(ys, flags, threshold, |ys|) == Rewritten(ys, flags, threshold)
  {
    forall k | 0 <= k < |ys|
      ensures RewrittenTo(ys, flags, threshold, |ys|)[k] == Rewritten(ys, flags, threshold)[k]
    {
      RewrittenToAt(ys, flags, threshold, |ys|, k);
    }
  }

  /** The balance stays between these bounds over all prefixes up to n. */
  predicate Bounds(ys: seq<YValue>, flags: seq<Kind>, threshold: real, n: nat, min: real, max: real)
    requires n <= |ys|
  {
    forall i :: 0 <= i <= n ==> min <= Balance(ys, flags, threshold, i) <= max
  }

  /** The extremes of the balance over all prefixes. */
  predicate Extremes(ys: seq<YValue>, flags: seq<Kind>, threshold: real, n: nat, min: real, max: real)
    requires n <= |ys|
  {
    && Bounds(ys, flags, threshold, n, min, max)
    && (exists i :: 0 <= i <= n && Balance(ys, flags, threshold, i) == min)
    && (exists i :: 0 <= i <= n && Balance(ys, flags, threshold, i) == max)
  }

  lemma {:induction false} ExtremesStep(ys: seq<YValue>, flags: seq<Kind>, threshold: real, n: nat, min: real,
                                        max: real)
    requires n < |ys| && Extremes(ys, flags, threshold, n, min, max)
    ensures var b := Balance(ys, flags, threshold, n + 1);
            Extremes(ys, flags, threshold, n + 1, Min(b, min), Max(b, max))
  {
    var b := Balance(ys, flags, threshold, n + 1);
    var i :| 0 <= i <= n && Balance(ys, flags, threshold, i) == min;
    var j :| 0 <= j <= n && Balance(ys, flags, threshold, j) == max;
    assert Balance(ys, flags, threshold, if b < min then n + 1 else i) == Min(b, min);
    assert Balance(ys, flags, threshold, if max < b then n + 1 else j) == Max(b, max);
  }

  class Series {
    const yData: array<YValue>
    const threshold: JsNumber
    var points: seq<Kind>  // flags of the points; empty before they are generated
    var dataMin: real
    var dataMax: real

    constructor (yData: array<YValue>, threshold: JsNumber)
      ensures this.yData == yData && this.threshold == threshold && points == []
    {
      this.yData, this.threshold := yData, threshold;
      points, dataMin, dataMax := [], 0.0, 0.0;
    }

    /** The entry is rewritten or added to the sums. */
    method ProcessPoint(i: nat, sum: real, subSum: real) returns (sum': real, subSum': real)
      requires i < yData.Length
      modifies yData
      ensures var y, role := old(yData[i]), RoleAt(old(yData[..]), points, i);
              && yData[..] == old(yData[..])[i :=
                   if role == Ordinary then y else if role == Sum then Number(sum) else Number(subSum)]
              && sum' == (if role == Ordinary then sum + y.Amount() else sum)
              && subSum' == (if role == Ordinary then subSum + y.Amount() else subSum)
    {
      sum', subSum' := sum, subSum;
      var y := yData[i];
      var flag := if i < |points| then points[i] else Ordinary;
      if y == SumMark || flag == Sum {
        yData[i] := Number(sum);
      } else if y == IntermediateMark || flag == Intermediate {
        yData[i] := Number(subSum);
      } else {
        sum' := sum + y.Amount();
        subSum' := subSum + y.Amount();
      }
    }

    /** The loop of processData is at i; ys are the entries before it. */
    ghost predicate ProcessedTo(ys: seq<YValue>, i: nat, sum: real, subSum: real, min: real, max: real)
      requires i <= |ys|
      reads this, yData
    {
      var t := threshold.OrZero();
      var done :=
        && sum == subSum == Balance(ys, points, t, i)
        && Extremes(ys, points, t, i, min, max)
        && yData[..] == RewrittenTo(ys, points, t, i);
      done
    }

    /** The body of the loop. */
    method ProcessStep(ghost ys: seq<YValue>, i: nat, sum: real, subSum: real, min: real, max: real)
      returns (sum': real, subSum': real, min': real, max': real)
      requires i < |ys| == yData.Length && ProcessedTo(ys, i, sum, subSum, min, max)
      modifies yData
      ensures ProcessedTo(ys, i + 1, sum', subSum', min', max')
    {
      ExtremesStep(ys, points, threshold.OrZero(), i, min, max);
      assert yData[..][i] == ys[i];
      sum', subSum' := ProcessPoint(i, sum, subSum);
      min', max' := Min(sum', min), Max(sum', max);
    }

    method ProcessData()
      modifies this`dataMin, this`dataMax, yData
      ensures yData[..] == Rewritten(old(yData[..]), points, threshold.OrZero())
      ensures Extremes(old(yData[..]), points, threshold.OrZero(), yData.Length, dataMin, dataMax)
    {
      ghost var ys := yData[..];
      var sum, subSum := threshold.OrZero(), threshold.OrZero();
      var min, max := sum, sum;
      assert Balance(ys, points, threshold.OrZero(), 0) == sum;
      var i := 0;
      while i < yData.Length
        modifies yData
        invariant 0 <= i <= yData.Length == |ys|
        invariant ProcessedTo(ys, i, sum, subSum, min, max)
      {
        sum, subSum, min, max := ProcessStep(ys, i, sum, subSum, min, max);
        i := i + 1;
      }
      RewrittenAll(ys, points, threshold.OrZero());
      dataMin, dataMax := min, max;
    }
  }

  // ---------- Running processData again ----------

  predicate PlainOptions(pts: seq<PointOptions>) {
    forall i :: 0 <= i < |pts| ==> pts[i].y.Number? || pts[i].y.NoValue?
  }

  function YDataOf(pts: seq<PointOptions>): (ys: seq<YValue>)
    ensures |ys| == |pts|
  {
    seq(|pts|, i requires 0 <= i < |pts| => ToYData(pts[i]))
  }

  function KindsOf(pts: seq<PointOptions>): (kinds: seq<Kind>)
    ensures |kinds| == |pts|
  {
    seq(|pts|, i requires 0 <= i < |pts| => pts[i].kind)
  }

  /** Sum points that are not written as markers: the ones at x 0. */
  predicate NoSumAtZero(pts: seq<PointOptions>) {
    forall i :: 0 <= i < |pts| && pts[i].kind != Ordinary ==> pts[i].x != 0.0
  }

  /** The balance is the same in the first run, on markers, and in later ones, on flags. */
  lemma {:induction false} SameBalance(pts: seq<PointOptions>, threshold: real, n: nat)
    requires PlainOptions(pts) && n <= |pts|
    ensures var ys := YDataOf(pts);
            Balance(Rewritten(ys, [], threshold), KindsOf(pts), threshold, n) == Balance(ys, [], threshold, n)
  {
    if n > 0 {
      SameBalance(pts, threshold, n - 1);
    }
  }

  /**
   Running processData again leaves yData as it is, if and only if no sum point is at x 0. The
   balance, and with it the extremes, stay in any case.
   */
  lemma {:induction false} ProcessAgain(pts: seq<PointOptions>, threshold: real)
    requires PlainOptions(pts)
    ensures var ys := Rewritten(YDataOf(pts), [], threshold);
            Rewritten(ys, KindsOf(pts), threshold) == ys <==> NoSumAtZero(pts)
  {
    var ys := Rewritten(YDataOf(pts), [], threshold);
    var ys' := Rewritten(ys, KindsOf(pts), threshold);
    forall i | 0 <= i < |pts|
      ensures ys'[i] == ys[i] <==> (pts[i].kind != Ordinary ==> pts[i].x != 0.0)
    {
      SameBalance(pts, threshold, i);
    }
    if NoSumAtZero(pts) {
      assert forall i :: 0 <= i < |pts| ==> ys'[i] == ys[i];
    }
  }

  /** A sum point at x 0 has no value in the first run and the threshold in the second. */
  lemma {:induction false} SumAtZeroChanges()
    ensures var ys := Rewritten(YDataOf([PointOptions(Sum, 0.0, NoValue)]), [], 5.0);
            ys == [NoValue] && Rewritten(ys, KindsOf([PointOptions(Sum, 0.0, NoValue)]), 5.0) == [Number(5.0)]
  {
    var ys := YDataOf([PointOptions(Sum, 0.0, NoValue)]);
    assert RoleAt(ys, [], 0) == Ordinary;
    assert RoleAt([NoValue], KindsOf([PointOptions(Sum, 0.0, NoValue)]), 0) == Sum;
  }

  lemma {:induction false} SameExtremes(pts: seq<PointOptions>, threshold: real, min: real, max: real)
    requires PlainOptions(pts)
    ensures var ys := YDataOf(pts);
            Extremes(ys, [], threshold, |ys|, min, max) <==>
            Extremes(Rewritten(ys, [], threshold), KindsOf(pts), threshold, |ys|, min, max)
  {
    var ys := YDataOf(pts);
    forall i | 0 <= i <= |ys|
      ensures Balance(Rewritten(ys, [], threshold), KindsOf(pts), threshold, i) == Balance(ys, [], threshold, i)
    {
      SameBalance(pts, threshold, i);
    }
  }

  // ---------- The bars ----------

  /** The values that a bar spans. */
  datatype Bar = Bar(lo: real, hi: real)

  function Span(a: real, b: real): Bar {
    Bar(Min(a, b), Max(a, b))
  }

  /** What stacking sees of a processed waterfall series: x is the index of the point. */
  predicate IsWaterfall(s: SeriesData, ys: seq<YValue>) {
    && s.Valid() && |s.xs| == |ys| && s.stacking == Normal && s.visible && s.negStacks && !s.threshold.Undefined?
    && forall i :: 0 <= i < |ys| ==> s.xs[i] == i as real && s.ys[i] == Processed(ys[i])
  }

  function Processed(y: YValue): JsNumber {
    if y.Number? then Num(y.v) else Null
  }

  /** `getStack(i).points[index + ',' + i]` and the total of that stack. */
  predicate StandsAlone(st: StackMap, s: SeriesData) {
    s.Valid() &&
    forall i :: 0 <= i < |s.xs| ==>
      var e := s.EntryAt(i);
      && e.cell in st && e.pk in st[e.cell].points
      && st[e.cell].points[e.pk] == Interval(0.0, e.y.OrZero()) && st[e.cell].total == e.y.OrZero()
  }

  /** The height of the column that translate of the column series draws for a point. */
  function ColumnHeight(st: StackMap, s: SeriesData, i: nat, axisMin: real): real
    requires s.Valid() && i < |s.xs|
  {
    match PlaceInStack(st, s, i, s.ys[i], axisMin)
    case Placed(yBottom, yValue, _, _) => Abs(yValue - yBottom)
    case _ => 0.0
  }

  /** The level of the last intermediate sum before point n: where its bar ended. */
  function PreviousIntermediate(ys: seq<YValue>, kinds: seq<Kind>, threshold: real, n: nat): real
    requires n <= |ys| == |kinds|
  {
    if n == 0 then threshold
    else if kinds[n - 1] == Intermediate then ys[n - 1].Amount()
    else PreviousIntermediate(ys, kinds, threshold, n - 1)
  }

  /**
   The bar of each point: ordinary ones lie at the balance that processData keeps, sums end at their own entry,
   which processData has written.
   */
  function BarAt(ys: seq<YValue>, kinds: seq<Kind>, threshold: JsNumber, axisMin: real, i: nat): Bar
    requires i < |ys| == |kinds|
  {
    var t := threshold.OrZero();
    var b := Balance(ys, kinds, t, i);
    match kinds[i]
    case Sum => Span(0.0, ys[i].Amount())
    case Intermediate => Span(PreviousIntermediate(ys, kinds, t, i), ys[i].Amount())
    case Ordinary =>
      var hi := Max(b, b + ys[i].Amount());
      Bar(hi - Abs(ys[i].Amount() - Pick(threshold, axisMin)), hi)
  }

  function Bars(ys: seq<YValue>, kinds: seq<Kind>, threshold: JsNumber, axisMin: real, n: nat): (bars: seq<Bar>)
    requires n <= |ys| == |kinds|
    ensures |bars| == n
    ensures forall i :: 0 <= i < n ==> bars[i] == BarAt(ys, kinds, threshold, axisMin, i)
  {
    if n == 0 then []
    else Bars(ys, kinds, threshold, axisMin, n - 1) + [BarAt(ys, kinds, threshold, axisMin, n - 1)]
  }

  /** The entries after processData: numbers and nulls; a sum point at x 0 is still null after the first run. */
  predicate Drawable(ys: seq<YValue>, kinds: seq<Kind>) {
    |ys| == |kinds| && forall i :: 0 <= i < |ys| ==> ys[i].Number? || ys[i].NoValue?
  }

  /** processData and the stacking of the axis have run. */
  predicate Ready(st: StackMap, s: SeriesData, ys: seq<YValue>, kinds: seq<Kind>) {
    var ready := IsWaterfall(s, ys) && StandsAlone(st, s) && Drawable(ys, kinds);
    ready
  }

  /** The body of the loop of translate, with the running values that it passes on. */
  method NextBar(st: StackMap, s: SeriesData, ghost ys: seq<YValue>, y: YValue, kinds: seq<Kind>, axisMin: real, i: nat,
                 previousY: real, previousIntermediate: real)
    returns (bar: Bar, nextY: real, nextIntermediate: real)
    requires Ready(st, s, ys, kinds)
    requires i < |ys| && y == ys[i]
    requires previousY == Balance(ys, kinds, s.threshold.OrZero(), i)
    requires previousIntermediate == PreviousIntermediate(ys, kinds, s.threshold.OrZero(), i)
    ensures bar == BarAt(ys, kinds, s.threshold, axisMin, i)
    ensures nextY == Balance(ys, kinds, s.threshold.OrZero(), i + 1)
    ensures nextIntermediate == PreviousIntermediate(ys, kinds, s.threshold.OrZero(), i + 1)
  {
    nextY, nextIntermediate := previousY, previousIntermediate;
    var e := s.EntryAt(i);
    assert e.pk == PointKey(s.index, i);
    var stack := st[e.cell];
    var stackPoint := stack.points[e.pk];
    var top := Max(previousY, previousY + y.Amount()) + stackPoint.lo;
    match kinds[i] {
      case Sum =>
        bar := Span(stackPoint.lo, stackPoint.hi);
      case Intermediate =>
        bar := Span(previousIntermediate, stackPoint.hi);
        nextIntermediate := stackPoint.hi;
      case Ordinary =>
        bar := Bar(top - ColumnHeight(st, s, i, axisMin), top);
        nextY := previousY + stack.total;
    }
  }

  /** translate of the waterfall series, on the stacks of the axis. */
  method Translate(st: StackMap, s: SeriesData, ys: seq<YValue>, kinds: seq<Kind>, axisMin: real)
    returns (bars: seq<Bar>)
    requires Ready(st, s, ys, kinds)
    ensures bars == Bars(ys, kinds, s.threshold, axisMin, |ys|)
  {
    bars := [];
    var previousY, previousIntermediate := s.threshold.OrZero(), s.threshold.OrZero();
    for i := 0 to |ys|
      invariant bars == Bars(ys, kinds, s.threshold, axisMin, i)
      invariant previousY == Balance(ys, kinds, s.threshold.OrZero(), i)
      invariant previousIntermediate == PreviousIntermediate(ys, kinds, s.threshold.OrZero(), i)
    {
      var bar;
      bar, previousY, previousIntermediate :=
        NextBar(st, s, ys, ys[i], kinds, axisMin, i, previousY, previousIntermediate);
      bars := bars + [bar];
    }
  }

  /** The bar reaches from the balance before its point to the balance after it. */
  predicate BarChains(ys: seq<YValue>, kinds: seq<Kind>, threshold: JsNumber, axisMin: real, i: nat)
    requires i < |ys| == |kinds|
  {
    BarAt(ys, kinds, threshold, axisMin, i) ==
    Span(Balance(ys, kinds, threshold.OrZero(), i), Balance(ys, kinds, threshold.OrZero(), i + 1))
  }

  /** Columns are drawn from 0, or from twice the value of the point. */
  predicate BaseFits(y: YValue, threshold: JsNumber, axisMin: real) {
    Pick(threshold, axisMin) == 0.0 || Pick(threshold, axisMin) == 2.0 * y.Amount()
  }

  /**
   All ordinary bars chain, each starting where the one before it ended, if and only if the base
   of the columns fits each of them; a threshold of 0 always does.
   */
  lemma {:induction false} BarsChain(ys: seq<YValue>, kinds: seq<Kind>, threshold: JsNumber, axisMin: real)
    requires Drawable(ys, kinds)
    ensures (forall i :: 0 <= i < |ys| && kinds[i] == Ordinary ==> BarChains(ys, kinds, threshold, axisMin, i)) <==>
            (forall i :: 0 <= i < |ys| && kinds[i] == Ordinary ==> BaseFits(ys[i], threshold, axisMin))
  {
    forall i | 0 <= i < |ys| && kinds[i] == Ordinary
      ensures BarChains(ys, kinds, threshold, axisMin, i) <==> BaseFits(ys[i], threshold, axisMin)
    {
      var t := threshold.OrZero();
      assert Balance(ys, kinds, t, i + 1) == Balance(ys, kinds, t, i) + ys[i].Amount();
    }
  }

  /** With a threshold of 5 the bar of a first value 3 spans 6 to 8, not 5 to 8. */
  lemma {:induction false} ThresholdBreaksChain(axisMin: real)
    ensures Drawable([Number(3.0)], [Ordinary])
    ensures BarAt([Number(3.0)], [Ordinary], Num(5.0), axisMin, 0) == Bar(6.0, 8.0)
    ensures !BarChains([Number(3.0)], [Ordinary], Num(5.0), axisMin, 0)
  {
    assert Balance([Number(3.0)], [Ordinary], 5.0, 1) == 8.0;
  }

  // ---------- Sums ----------

  /** Every sum point holds the balance of translate. */
  predicate SumsHold(ys: seq<YValue>, kinds: seq<Kind>, threshold: real) {
    && |ys| == |kinds|
    && forall i :: 0 <= i < |ys| && kinds[i] != Ordinary ==> ys[i].Amount() == Balance(ys, kinds, threshold, i)
  }

  /** The points are numbered by their x, as those of a category axis are. */
  predicate Numbered(pts: seq<PointOptions>) {
    forall i :: 0 <= i < |pts| ==> pts[i].x == i as real
  }

  /** The entries after the first run of processData. */
  function FirstRun(pts: seq<PointOptions>, threshold: real): (ys: seq<YValue>)
    ensures |ys| == |pts|
  {
    Rewritten(YDataOf(pts), [], threshold)
  }

  /** After the first run all sum points hold the balance, if and only if none is first or the threshold is 0. */
  lemma {:induction false} FirstRunHolds(pts: seq<PointOptions>, threshold: real)
    requires PlainOptions(pts) && Numbered(pts)
    ensures Drawable(FirstRun(pts, threshold), KindsOf(pts))
    ensures SumsHold(FirstRun(pts, threshold), KindsOf(pts), threshold) <==>
            (pts == [] || pts[0].kind == Ordinary || threshold == 0.0)
  {
    var ys, kinds := FirstRun(pts, threshold), KindsOf(pts);
    forall i | 0 <= i < |pts| && kinds[i] != Ordinary
      ensures ys[i].Amount() == if i == 0 then 0.0 else Balance(ys, kinds, threshold, i)
    {
      SameBalance(pts, threshold, i);
      assert pts[i].x == 0.0 <==> i == 0;
    }
    assert pts != [] ==> Balance(ys, kinds, threshold, 0) == threshold;
  }

  /** A first point that is a sum, with threshold 5: no bar at all instead of one from 0 to 5. */
  lemma {:induction false} FirstSumIsFlat(axisMin: real)
    ensures var ys := FirstRun([PointOptions(Sum, 0.0, NoValue)], 5.0);
            && BarAt(ys, [Sum], Num(5.0), axisMin, 0) == Bar(0.0, 0.0)
            && Balance(ys, [Sum], 5.0, 0) == 5.0
  {
    assert RoleAt(YDataOf([PointOptions(Sum, 0.0, NoValue)]), [], 0) == Ordinary;
    assert FirstRun([PointOptions(Sum, 0.0, NoValue)], 5.0)[0] == NoValue;
  }

  /** Point j is the last intermediate sum before point n. */
  predicate LastIntermediate(kinds: seq<Kind>, j: nat, n: nat) {
    j < n <= |kinds| && kinds[j] == Intermediate && forall k :: j < k < n ==> kinds[k] != Intermediate
  }

  predicate NoIntermediate(kinds: seq<Kind>, n: nat) {
    n <= |kinds| && forall k :: 0 <= k < n ==> kinds[k] != Intermediate
  }

  /** The level before point n is the entry of the last intermediate sum before it, or the threshold. */
  lemma {:induction false} LevelIs(ys: seq<YValue>, kinds: seq<Kind>, threshold: real, n: nat) returns (j: nat)
    requires n <= |ys| == |kinds|
    ensures var level := PreviousIntermediate(ys, kinds, threshold, n);
            || (LastIntermediate(kinds, j, n) && level == ys[j].Amount())
            || (j == 0 && NoIntermediate(kinds, n) && level == threshold)
  {
    if n == 0 {
      j := 0;
    } else if kinds[n - 1] == Intermediate {
      j := n - 1;
    } else {
      j := LevelIs(ys, kinds, threshold, n - 1);
    }
  }

  /** It is the balance before that sum: the bar of an intermediate sum begins where the one before it ended. */
  lemma {:induction false} IntermediateIsBalance(ys: seq<YValue>, kinds: seq<Kind>, threshold: real, n: nat)
    returns (j: nat)
    requires SumsHold(ys, kinds, threshold) && n <= |ys|
    ensures LastIntermediate(kinds, j, n) || (j == 0 && NoIntermediate(kinds, n))
    ensures PreviousIntermediate(ys, kinds, threshold, n) == Balance(ys, kinds, threshold, j)
  {
    j := LevelIs(ys, kinds, threshold, n);
    assert Balance(ys, kinds, threshold, 0) == threshold;
  }

  predicate Within(bar: Bar, min: real, max: real) {
    min <= bar.lo <= bar.hi <= max
  }

  /**
   Whether the bar fits between the extremes: sums are drawn from 0, and the column of an ordinary point is as
   high as its value is away from the base of the columns.
   */
  predicate Fits(ys: seq<YValue>, kinds: seq<Kind>, threshold: JsNumber, axisMin: real, min: real, max: real, i: nat)
    requires i < |ys| == |kinds|
  {
    match kinds[i]
    case Sum => min <= 0.0 <= max
    case Intermediate => true
    case Ordinary =>
      var before := Balance(ys, kinds, threshold.OrZero(), i);
      Abs(ys[i].Amount() - Pick(threshold, axisMin)) <= Max(before, before + ys[i].Amount()) - min
  }

  /**
   A bar lies within bounds of the balance, such as the extremes that processData records for the axis, if and
   only if it fits; with threshold 0 every bar does.
   */
  lemma {:induction false} BarsWithinExtremes(ys: seq<YValue>, kinds: seq<Kind>, threshold: JsNumber, axisMin: real,
                                              min: real, max: real, i: nat)
    requires i < |ys| && Drawable(ys, kinds)
    requires Bounds(ys, kinds, threshold.OrZero(), |ys|, min, max)
    requires SumsHold(ys, kinds, threshold.OrZero())
    ensures Within(BarAt(ys, kinds, threshold, axisMin, i), min, max) <==>
            Fits(ys, kinds, threshold, axisMin, min, max, i)
    ensures threshold == Num(0.0) ==> Fits(ys, kinds, threshold, axisMin, min, max, i)
  {
    var t := threshold.OrZero();
    var j := IntermediateIsBalance(ys, kinds, t, i);
    assert Balance(ys, kinds, t, 0) == t && min <= t <= max;
    assert min <= Balance(ys, kinds, t, i) <= max && min <= Balance(ys, kinds, t, j) <= max;
    assert min <= Balance(ys, kinds, t, i + 1) <= max;
    if kinds[i] == Ordinary {
      assert Balance(ys, kinds, t, i + 1) == Balance(ys, kinds, t, i) + ys[i].Amount();
    }
  }

  /** With threshold 5, a value of 3 and a sum: the balance goes from 5 to 8, and the sum is drawn from 0. */
  lemma {:induction false} SumLeavesExtremes(axisMin: real)
    ensures var ys, kinds := [Number(3.0), Number(8.0)], [Ordinary, Sum];
            && Extremes(ys, kinds, 5.0, 2, 5.0, 8.0) && SumsHold(ys, kinds, 5.0)
            && BarAt(ys, kinds, Num(5.0), axisMin, 1) == Bar(0.0, 8.0)
  {
    var ys, kinds := [Number(3.0), Number(8.0)], [Ordinary, Sum];
    assert Balance(ys, kinds, 5.0, 0) == 5.0;
    assert Balance(ys, kinds, 5.0, 1) == 8.0;
    assert Balance(ys, kinds, 5.0, 2) == 8.0;
  }

  /**
   A waterfall series that is alone with its stack key, in an axis without percent stacking,
   finds its own points in the stacks, whatever the axis went through.
   */
  lemma {:induction false} WaterfallStacks(a: AxisState, series: seq<SeriesData>, o: Options, m: nat, ys: seq<YValue>)
    requires AllValid(series) && DistinctIndexes(series) && a.prev.Keys <= a.stacks.Keys
    requires m < |series| && IsWaterfall(series[m], ys) && !UsePercentage(series, o.ignoreHidden)
    requires forall j :: 0 <= j < |series| && j != m ==> series[j].key != series[m].key
    ensures StandsAlone(Rescaled(a, series, o).stacks, series[m])
  {
    forall i | 0 <= i < |ys|
      ensures var st, e := Rescaled(a, series, o).stacks, series[m].EntryAt(i);
              && e.cell in st && e.pk in st[e.cell].points
              && st[e.cell].points[e.pk] == Interval(0.0, e.y.OrZero()) && st[e.cell].total == e.y.OrZero()
    {
      var es, k := BuiltEntries(series, o), PointPosition(series, o, m, i);
      PointAt(series, o, m, i);
      PlaceOfPoint(a, series, o, k);
      AloneInCell(series, o, m, ys, i);
      AloneSum(Cleared(a.stacks), es, k);
    }
  }

  lemma {:induction false} AloneSum(before: StackMap, es: seq<Entry>, k: nat)
    requires k < |es| && forall n :: 0 <= n < |es| && n != k ==> !SamePair(es[n].cell, es[k].cell)
    ensures RawInterval(es, k) == Interval(0.0, es[k].y.OrZero()) && SumAt(es, es[k].cell) == es[k].y.OrZero()
    ensures !es[k].percent ==> Uniform(es, es[k].cell) && TotalOf(before, es, es[k].cell) == es[k].y.OrZero()
  {
    if !es[k].percent {
      PlainAmount(es, es[k].cell);
    }
    assert es[..0] == [] && es[..|es|] == es;
    SumSkips(es, 0, k, es[k].cell);
    SumSkips(es, k + 1, |es|, es[k].cell);
    SumAtPrefix(es, k, es[k].cell);
  }

  /** No other stacked point shares key and x with a point of the waterfall series. */
  lemma {:induction false} AloneInCell(series: seq<SeriesData>, o: Options, m: nat, ys: seq<YValue>, i: nat)
    requires AllValid(series) && DistinctIndexes(series)
    requires m < |series| && IsWaterfall(series[m], ys) && i < |ys|
    requires forall j :: 0 <= j < |series| && j != m ==> series[j].key != series[m].key
    ensures var es, k := BuiltEntries(series, o), PointPosition(series, o, m, i);
            && k < |es| && es[k] == series[m].EntryAt(i)
            && forall n :: 0 <= n < |es| && n != k ==> !SamePair(es[n].cell, es[k].cell)
  {
    var es, k := BuiltEntries(series, o), PointPosition(series, o, m, i);
    var order := BuildOrder(series, o.reversedStacks);
    PointAt(series, o, m, i);
    forall n | 0 <= n < |es| && n != k
      ensures !SamePair(es[n].cell, es[k].cell)
    {
      var j, i' := EntrySource(Parts(order, o.ignoreHidden), n);
      var m' := if o.reversedStacks then |series| - 1 - j else j;
      assert order[j] == series[m'] && es[n] == series[m'].EntryAt(i');
    }
  }

  // ---------- From the options to the bars ----------

  /**
   The balance of the options: the threshold, and then each ordinary point adds its value, while sums add
   nothing.
   */
  lemma {:induction false} OptionsBalance(pts: seq<PointOptions>, threshold: real, n: nat)
    requires PlainOptions(pts) && n < |pts|
    ensures Balance(YDataOf(pts), [], threshold, 0) == threshold
    ensures var y := pts[n].y;
            Balance(YDataOf(pts), [], threshold, n + 1) - Balance(YDataOf(pts), [], threshold, n) ==
            if pts[n].kind == Ordinary && y.Number? then y.v else 0.0
  {
  }

  /** The balance that the options have before point n, with threshold 0. */
  function Before(pts: seq<PointOptions>, n: nat): real
    requires n <= |pts|
  {
    Balance(YDataOf(pts), [], 0.0, n)
  }

  /**
   The bar that the options ask for: from one balance to the next, from 0 to the balance, or from the last
   intermediate sum, if there is one, to the balance.
   */
  predicate Asked(bar: Bar, pts: seq<PointOptions>, i: nat)
    requires i < |pts|
  {
    match pts[i].kind
    case Sum => bar == Span(0.0, Before(pts, i))
    case Intermediate =>
      && (NoIntermediate(KindsOf(pts), i) ==> bar == Span(0.0, Before(pts, i)))
      && (forall j :: 0 <= j < i && LastIntermediate(KindsOf(pts), j, i) ==>
            bar == Span(Before(pts, j), Before(pts, i)))
    case Ordinary => bar == Span(Before(pts, i), Before(pts, i + 1))
  }

  lemma {:induction false} AskedAt(pts: seq<PointOptions>, axisMin: real, i: nat)
    requires PlainOptions(pts) && Numbered(pts) && i < |pts|
    ensures var ys, kinds := FirstRun(pts, 0.0), KindsOf(pts);
            && Drawable(ys, kinds) && SumsHold(ys, kinds, 0.0)
            && Asked(BarAt(ys, kinds, Num(0.0), axisMin, i), pts, i)
  {
    var ys, kinds := FirstRun(pts, 0.0), KindsOf(pts);
    FirstRunHolds(pts, 0.0);
    SameBalance(pts, 0.0, i);
    SameBalance(pts, 0.0, i + 1);
    assert Balance(ys, kinds, 0.0, i + 1) ==
           Balance(ys, kinds, 0.0, i) + if kinds[i] == Ordinary then ys[i].Amount() else 0.0;
    var j := IntermediateIsBalance(ys, kinds, 0.0, i);
    SameBalance(pts, 0.0, j);
    assert forall j' :: LastIntermediate(kinds, j', i) && LastIntermediate(kinds, j, i) ==> j' == j;
    assert Before(pts, 0) == 0.0;
  }

  /**
   From the options of the points to the bars, with threshold 0: after processData, any run of the axis and a
   rebuild, translate can read the stacks, and each bar is the one that the options ask for and lies within the
   dataMin and dataMax of processData.
   */
  lemma {:induction false} OptionsToBars(ops: seq<Op>, series: seq<SeriesData>, o: Options, m: nat,
                                         pts: seq<PointOptions>, axisMin: real, min: real, max: real, i: nat)
    requires ValidOps(ops) && AllValid(series) && DistinctIndexes(series) && m < |series|
    requires PlainOptions(pts) && Numbered(pts) && i < |pts|
    requires IsWaterfall(series[m], FirstRun(pts, 0.0)) && series[m].threshold == Num(0.0)
    requires !UsePercentage(series, o.ignoreHidden)
    requires forall j :: 0 <= j < |series| && j != m ==> series[j].key != series[m].key
    requires Extremes(YDataOf(pts), [], 0.0, |pts|, min, max)
    ensures var ys, kinds := FirstRun(pts, 0.0), KindsOf(pts);
            && Ready(Rescaled(Run(ops), series, o).stacks, series[m], ys, kinds)
            && var bar := BarAt(ys, kinds, series[m].threshold, axisMin, i);
            && Asked(bar, pts, i)
            && Within(bar, min, max)
  {
    var ys, kinds := FirstRun(pts, 0.0), KindsOf(pts);
    OldStacksAreCurrent(ops);
    OldKeys(Run(ops));
    WaterfallStacks(Run(ops), series, o, m, ys);
    AskedAt(pts, axisMin, i);
    SameExtremes(pts, 0.0, min, max);
    BarsWithinExtremes(ys, kinds, Num(0.0), axisMin, min, max, i);
  }
}
