/**
 What the stacking loops establish, for any series and any number of points: the place of
 every point, the totals, and the percentages.
 */
module StackTheorems {
  import opened JsValues
  import opened Stacks

  // ---------- Sums over the points in build order ----------

  /** What the points in `es` contribute to the stack `c`. */
  function SumAt(es: seq<Entry>, c: Cell): real {
    if es == [] then 0.0
    else
      var e := es[|es| - 1];
      SumAt(es[..|es| - 1], c) + if e.cell == c then e.y.OrZero() else 0.0
  }

  predicate SamePair(a: Cell, b: Cell) {
    a.key == b.key && a.x == b.x
  }

  /** The sum of |y| over the points that share a stack key and an x with `c`. */
  function SumAbs(es: seq<Entry>, c: Cell): real {
    if es == [] then 0.0
    else
      var e := es[|es| - 1];
      SumAbs(es[..|es| - 1], c) + if SamePair(e.cell, c) then Abs(e.y.OrZero()) else 0.0
  }

  predicate Holds(es: seq<Entry>, c: Cell) {
    exists i :: 0 <= i < |es| && es[i].cell == c
  }

  predicate DistinctKeys(es: seq<Entry>) {
    forall i, j :: 0 <= i < j < |es| ==> es[i].pk != es[j].pk
  }

  /** Every total and cum is cleared, as in a new axis or after the reset in setScale. */
  predicate IsCleared(st: StackMap) {
    forall c :: c in st ==> st[c].total == 0.0 && st[c].cum == 0.0
  }

  lemma {:induction false} SumAtPrefix(es: seq<Entry>, k: nat, c: Cell)
    requires k < |es|
    ensures SumAt(es[..k + 1], c) == SumAt(es[..k], c) + if es[k].cell == c then es[k].y.OrZero() else 0.0
  {
    assert es[..k + 1][..k] == es[..k];
  }

  // ---------- Which stack a point goes to ----------

  /**
   Points of one series at one x are in one stack, except that a series with negative stacks puts those below
   its threshold, null being 0 and undefined never below, into the other one.
   */
  lemma {:induction false} SideOfPoint(s: SeriesData, i: nat, j: nat)
    requires s.Valid() && i < |s.xs| && j < |s.xs| && s.xs[i] == s.xs[j]
    ensures s.EntryAt(i).cell == s.EntryAt(j).cell || s.EntryAt(i).cell == Opposite(s.EntryAt(j).cell)
    ensures !s.negStacks ==> s.EntryAt(i).cell == s.EntryAt(j).cell
    ensures s.negStacks && s.threshold.Num? && s.ys[i].Num? && s.ys[j].Num? ==>
              (s.EntryAt(i).cell == s.EntryAt(j).cell <==>
               (s.ys[i].v < s.threshold.v <==> s.ys[j].v < s.threshold.v))
    ensures s.ys[i].Undefined? && s.ys[j] == Null ==>
              (s.EntryAt(i).cell == s.EntryAt(j).cell <==>
               !(s.negStacks && s.threshold.Num? && s.threshold.v > 0.0))
  {
  }

  // ---------- Where each point ends up ----------

  lemma {:induction false} CumIsSum(st: StackMap, es: seq<Entry>, c: Cell)
    requires IsCleared(st)
    ensures var r := AddEntries(st, map[], es);
            && (c in r <==> c in st || Holds(es, c))
            && (if c in r then r[c].cum == SumAt(es, c) else SumAt(es, c) == 0.0)
  {
    if es != [] {
      var init, e := es[..|es| - 1], es[|es| - 1];
      CumIsSum(st, init, c);
      assert es[|es| - 1].cell == e.cell;
      assert Holds(es, c) <==> Holds(init, c) || e.cell == c by {
        if i :| 0 <= i < |es| && es[i].cell == c { assert i < |init| ==> init[i].cell == c; }
        if i :| 0 <= i < |init| && init[i].cell == c { assert es[i].cell == c; }
      }
    }
  }

  /**
   Every point lies on top of what its stack held before it, and reaches as far as its value:
   the intervals of one stack start at 0, each one begins where the one before it ended, and
   the last one ends at `cum`.
   */
  lemma {:induction false} IntervalOfPoint(st: StackMap, es: seq<Entry>, k: nat)
    requires IsCleared(st) && DistinctKeys(es) && k < |es|
    ensures var r, e := AddEntries(st, map[], es), es[k];
            && e.cell in r && e.pk in r[e.cell].points
            && r[e.cell].points[e.pk] == Interval(SumAt(es[..k], e.cell), SumAt(es[..k + 1], e.cell))
            && r[e.cell].cum == SumAt(es, e.cell)
  {
    var init, last, e := es[..|es| - 1], es[|es| - 1], es[k];
    SumAtPrefix(es, k, e.cell);
    CumIsSum(st, es, e.cell);
    if k == |es| - 1 {
      assert es[..k] == init;
      CumIsSum(st, init, e.cell);
    } else {
      assert init[..k] == es[..k] && init[..k + 1] == es[..k + 1] && init[k] == e;
      IntervalOfPoint(st, init, k);
    }
  }

  /** Neighbours in one stack touch: nothing of `c` between entries j and k. */
  lemma {:induction false} NeighboursTouch(st: StackMap, es: seq<Entry>, j: nat, k: nat)
    requires IsCleared(st) && DistinctKeys(es) && j < k < |es|
    requires es[j].cell == es[k].cell
    requires forall i :: j < i < k ==> es[i].cell != es[k].cell
    ensures var r, c := AddEntries(st, map[], es), es[k].cell;
            && c in r && es[j].pk in r[c].points && es[k].pk in r[c].points
            && r[c].points[es[j].pk].hi == r[c].points[es[k].pk].lo
  {
    IntervalOfPoint(st, es, j);
    IntervalOfPoint(st, es, k);
    SumSkips(es, j + 1, k, es[k].cell);
  }

  lemma {:induction false} SumSkips(es: seq<Entry>, a: nat, b: nat, c: Cell)
    requires a <= b <= |es|
    requires forall i :: a <= i < b ==> es[i].cell != c
    ensures SumAt(es[..a], c) == SumAt(es[..b], c)
    decreases b
  {
    if a < b {
      SumSkips(es, a, b - 1, c);
      SumAtPrefix(es, b - 1, c);
    }
  }

  // ---------- Totals ----------

  predicate AllAtPair(es: seq<Entry>, c: Cell, percent: bool) {
    forall i :: 0 <= i < |es| && SamePair(es[i].cell, c) ==> es[i].percent == percent
  }

  /** Without percent stacking the total of a stack is the sum of its points. */
  lemma {:induction false} NormalTotal(st: StackMap, es: seq<Entry>, c: Cell)
    requires IsCleared(st) && AllAtPair(es, c, false)
    ensures var r := AddEntries(st, map[], es);
            c in r ==> r[c].total == r[c].cum == SumAt(es, c)
  {
    CumIsSum(st, es, c);
    if es != [] {
      var init := es[..|es| - 1];
      assert forall i :: 0 <= i < |init| ==> init[i] == es[i];
      NormalTotal(st, init, c);
      CumIsSum(st, init, c);
    }
  }

  predicate AllPaired(es: seq<Entry>, c: Cell) {
    forall i :: 0 <= i < |es| && SamePair(es[i].cell, c) ==> es[i].percent && es[i].negStacks
  }

  predicate NoneUndefined(es: seq<Entry>, c: Cell) {
    forall i :: 0 <= i < |es| && SamePair(es[i].cell, c) ==> !es[i].y.Undefined?
  }

  /**
   The total that percent stacking keeps for a pair of stacks: the sum of |y|, except that an
   undefined y throws it away once the other stack of the pair exists.
   */
  function PairSum(st: StackMap, es: seq<Entry>, c: Cell): real {
    if es == [] then 0.0
    else
      var init, e := es[..|es| - 1], es[|es| - 1];
      if !SamePair(e.cell, c) then PairSum(st, init, c)
      else if e.y.Undefined? && (Opposite(e.cell) in st || Holds(init, Opposite(e.cell))) then 0.0
      else PairSum(st, init, c) + Abs(e.y.OrZero())
  }

  /** Whichever stacks of the pair of `c` exist carry the total t. */
  predicate PairCarries(r: StackMap, c: Cell, t: real) {
    && (c in r ==> r[c].total == t)
    && (Opposite(c) in r ==> r[Opposite(c)].total == t)
    && (c !in r && Opposite(c) !in r ==> t == 0.0)
  }

  lemma {:induction false} PairStep(r: StackMap, e: Entry, t: real)
    requires e.percent && e.negStacks && t >= 0.0 && PairCarries(r, e.cell, t)
    ensures PairCarries(AddEntry(r, map[], e), e.cell,
              if Opposite(e.cell) in r && e.y.Undefined? then 0.0 else t + Abs(e.y.OrZero()))
  {
  }

  lemma {:induction false} OppositePair(r: StackMap, a: Cell, b: Cell, t: real)
    requires SamePair(a, b)
    ensures PairCarries(r, a, t) <==> PairCarries(r, b, t)
  {
    assert b == a || b == Opposite(a);
    assert Opposite(Opposite(a)) == a;
  }

  /** Paired stacks of a percent series carry the same total, through every interleaving. */
  lemma {:induction false} PercentTotals(st: StackMap, es: seq<Entry>, c: Cell)
    requires IsCleared(st) && AllPaired(es, c)
    ensures PairSum(st, es, c) >= 0.0
    ensures PairCarries(AddEntries(st, map[], es), c, PairSum(st, es, c))
  {
    if es != [] {
      var init, e := es[..|es| - 1], es[|es| - 1];
      assert forall i :: 0 <= i < |init| ==> init[i] == es[i];
      PercentTotals(st, init, c);
      var r := AddEntries(st, map[], init);
      if SamePair(e.cell, c) {
        CumIsSum(st, init, Opposite(e.cell));
        OppositePair(r, e.cell, c, PairSum(st, init, c));
        PairStep(r, e, PairSum(st, init, c));
        OppositePair(AddEntry(r, map[], e), e.cell, c, PairSum(st, es, c));
      }
    }
  }

  /** With no undefined y among them, the total is the sum of |y|. */
  lemma {:induction false} PairSumIsSumAbs(st: StackMap, es: seq<Entry>, c: Cell)
    requires NoneUndefined(es, c)
    ensures PairSum(st, es, c) == SumAbs(es, c)
  {
    if es != [] {
      assert forall i :: 0 <= i < |es| - 1 ==> es[..|es| - 1][i] == es[i];
      PairSumIsSumAbs(st, es[..|es| - 1], c);
    }
  }

  /** An undefined y that wipes a total: the other stack exists and something was added before. */
  predicate WipesAt(st: StackMap, es: seq<Entry>, c: Cell, k: nat)
    requires k < |es|
  {
    && SamePair(es[k].cell, c) && es[k].y.Undefined?
    && (Opposite(es[k].cell) in st || Holds(es[..k], Opposite(es[k].cell)))
    && exists j :: 0 <= j < k && SamePair(es[j].cell, c) && es[j].y.OrZero() != 0.0
  }

  predicate NothingWiped(st: StackMap, es: seq<Entry>, c: Cell) {
    forall k :: 0 <= k < |es| ==> !WipesAt(st, es, c, k)
  }

  lemma {:induction false} SumAbsPositive(es: seq<Entry>, c: Cell)
    ensures SumAbs(es, c) >= 0.0
    ensures SumAbs(es, c) > 0.0 <==>
            exists j :: 0 <= j < |es| && SamePair(es[j].cell, c) && es[j].y.OrZero() != 0.0
  {
    if es != [] {
      var init, e := es[..|es| - 1], es[|es| - 1];
      SumAbsPositive(init, c);
      if j :| 0 <= j < |init| && SamePair(init[j].cell, c) && init[j].y.OrZero() != 0.0 {
        assert es[j] == init[j];
      }
      if j :| 0 <= j < |es| && SamePair(es[j].cell, c) && es[j].y.OrZero() != 0.0 {
        assert j < |init| ==> init[j] == es[j];
      }
    }
  }

  /** The kept total is the sum of |y| if and only if no undefined y wiped it. */
  lemma {:induction false} PairSumExact(st: StackMap, es: seq<Entry>, c: Cell)
    ensures 0.0 <= PairSum(st, es, c) <= SumAbs(es, c)
    ensures PairSum(st, es, c) == SumAbs(es, c) <==> NothingWiped(st, es, c)
  {
    if es != [] {
      var n := |es| - 1;
      var init, e := es[..n], es[n];
      PairSumExact(st, init, c);
      SumAbsPositive(init, c);
      forall k | 0 <= k < n
        ensures WipesAt(st, init, c, k) == WipesAt(st, es, c, k)
      {
        assert init[..k] == es[..k];
        assert forall j :: 0 <= j < k ==> init[j] == es[j];
      }
      assert forall j :: 0 <= j < n ==> init[j] == es[j];
      assert WipesAt(st, es, c, n) <==>
             && SamePair(e.cell, c) && e.y.Undefined?
             && (Opposite(e.cell) in st || Holds(init, Opposite(e.cell))) && SumAbs(init, c) > 0.0;
    }
  }

  function Pair(negative: bool): Cell {
    Cell(negative, "sales", 0.0)
  }

  lemma {:induction false} TwoEntries(st: StackMap, prev: StackMap, a: Entry, b: Entry)
    ensures AddEntries(st, prev, [a, b]) == AddEntry(AddEntry(st, prev, a), prev, b)
    ensures forall c :: SumAbs([a, b], c) ==
              (if SamePair(a.cell, c) then Abs(a.y.OrZero()) else 0.0) +
              (if SamePair(b.cell, c) then Abs(b.y.OrZero()) else 0.0)
  {
    assert [a, b][..1] == [a] && [a][..0] == [];
    assert AddEntries(st, prev, [a]) == AddEntry(st, prev, a);
    assert forall c :: SumAbs([a], c) == if SamePair(a.cell, c) then Abs(a.y.OrZero()) else 0.0;
  }

  /** A value of -3 and an undefined one: both stacks carry the total 0 instead of 3. */
  lemma {:induction false} UndefinedWipes()
    ensures var es := [Entry(Pair(true), PointKey(0, 0), Num(-3.0), true, true),
                       Entry(Pair(false), PointKey(1, 0), Undefined, true, true)];
            var r := AddEntries(map[], map[], es);
            && AllPaired(es, Pair(false)) && SumAbs(es, Pair(false)) == 3.0
            && Pair(true) in r && Pair(false) in r && r[Pair(true)].total == r[Pair(false)].total == 0.0
  {
    TwoEntries(map[], map[], Entry(Pair(true), PointKey(0, 0), Num(-3.0), true, true),
               Entry(Pair(false), PointKey(1, 0), Undefined, true, true));
  }

  /** An undefined y of the pair. */
  predicate UndefinedAt(es: seq<Entry>, c: Cell, k: nat)
    requires k < |es|
  {
    SamePair(es[k].cell, c) && es[k].y.Undefined?
  }

  /** The number of points up to the last undefined y that wipes the total of the pair. */
  function Wiped(st: StackMap, es: seq<Entry>, c: Cell): (w: nat)
    ensures w <= |es|
  {
    if es == [] then 0
    else
      var n := |es| - 1;
      if UndefinedAt(es, c, n) && (Opposite(es[n].cell) in st || Holds(es[..n], Opposite(es[n].cell))) then n + 1
      else Wiped(st, es[..n], c)
  }

  /** The total that is kept is the sum of |y| over the points after that. */
  lemma {:induction false} KeptAfterWipe(st: StackMap, es: seq<Entry>, c: Cell)
    ensures PairSum(st, es, c) == SumAbs(es[Wiped(st, es, c)..], c)
  {
    if es != [] {
      var n, w := |es| - 1, Wiped(st, es, c);
      KeptAfterWipe(st, es[..n], c);
      if w <= n {
        assert es[w..][..n - w] == es[..n][w..];
      }
    }
  }

  // ---------- Totals of stacks that do not look at each other ----------

  function TotalIn(st: StackMap, c: Cell): real {
    if c in st then st[c].total else 0.0
  }

  /** No point of the pair looks at the other stack. */
  predicate NonePaired(es: seq<Entry>, c: Cell) {
    forall i :: 0 <= i < |es| && SamePair(es[i].cell, c) ==> !(es[i].percent && es[i].negStacks)
  }

  function AmountSum(es: seq<Entry>, c: Cell): real {
    if es == [] then 0.0
    else
      var e := es[|es| - 1];
      AmountSum(es[..|es| - 1], c) +
      if e.cell != c then 0.0 else if e.percent then Abs(e.y.OrZero()) else e.y.OrZero()
  }

  lemma {:induction false} UnpairedAmount(st: StackMap, es: seq<Entry>, c: Cell)
    requires IsCleared(st) && NonePaired(es, c)
    ensures TotalIn(AddEntries(st, map[], es), c) == AmountSum(es, c)
  {
    if es != [] {
      var init := es[..|es| - 1];
      assert forall i :: 0 <= i < |init| ==> init[i] == es[i];
      UnpairedAmount(st, init, c);
    }
  }

  /** Without percent stacking that is the sum of the points. */
  lemma {:induction false} PlainAmount(es: seq<Entry>, c: Cell)
    requires AllAtPair(es, c, false)
    ensures NonePaired(es, c) && AmountSum(es, c) == SumAt(es, c)
  {
    if es != [] {
      var init := es[..|es| - 1];
      assert forall i :: 0 <= i < |init| ==> init[i] == es[i];
      PlainAmount(init, c);
    }
  }

  /** At the pair either no point looks at the other stack, or every point does. */
  predicate Uniform(es: seq<Entry>, c: Cell) {
    NonePaired(es, c) || AllPaired(es, c)
  }

  /**
   The total of a stack that starts on cleared ones: the sum of what its points add or, where all look at the
   other stack, the sum of |y| over the points of the pair that come after the last wipe.
   */
  function TotalOf(before: StackMap, es: seq<Entry>, c: Cell): real {
    if NonePaired(es, c) then AmountSum(es, c) else SumAbs(es[Wiped(before, es, c)..], c)
  }

  lemma {:induction false} TotalIs(st: StackMap, es: seq<Entry>, c: Cell)
    requires IsCleared(st) && Uniform(es, c) && Holds(es, c)
    ensures var r := AddEntries(st, map[], es);
            c in r && r[c].total == TotalOf(st, es, c)
  {
    CumIsSum(st, es, c);
    if NonePaired(es, c) {
      UnpairedAmount(st, es, c);
    } else {
      PercentTotals(st, es, c);
      KeptAfterWipe(st, es, c);
    }
  }

  // ---------- Percentages ----------

  /** The point is on the side of its sign; with threshold 0 that is what the threshold decides. */
  predicate SideAgrees(e: Entry) {
    if e.cell.negative then e.y.OrZero() <= 0.0 else e.y.OrZero() >= 0.0
  }

  predicate SidesAgree(es: seq<Entry>, c: Cell) {
    forall i :: 0 <= i < |es| && SamePair(es[i].cell, c) ==> SideAgrees(es[i])
  }

  lemma {:induction false} SignedSum(es: seq<Entry>, c: Cell)
    requires !c.negative
    ensures SumAt(es, c) - SumAt(es, Opposite(c)) <= SumAbs(es, c)
    ensures SumAt(es, c) - SumAt(es, Opposite(c)) == SumAbs(es, c) <==> SidesAgree(es, c)
  {
    if es != [] {
      var n := |es| - 1;
      SignedSum(es[..n], c);
      assert forall i :: 0 <= i < n ==> es[..n][i] == es[i];
      assert SidesAgree(es, c) <==> SidesAgree(es[..n], c) && (SamePair(es[n].cell, c) ==> SideAgrees(es[n]));
      assert SamePair(es[n].cell, c) <==> es[n].cell == c || es[n].cell == Opposite(c);
    }
  }

  /** How far the stack `c` reaches once it is scaled to percent. */
  function Reach(r: StackMap, c: Cell): real {
    if c in r then ToPercent(Interval(0.0, r[c].cum), r[c].total).hi else 0.0
  }

  /** The reach of a pair of stacks, from the total they share and the sums they hold. */
  lemma {:induction false} SpanOfValues(r: StackMap, c: Cell, p: real, q: real, total: real)
    requires total != 0.0
    requires if c in r then r[c].total == total && r[c].cum == p else p == 0.0
    requires if Opposite(c) in r then r[Opposite(c)].total == total && r[Opposite(c)].cum == q else q == 0.0
    ensures Reach(r, c) - Reach(r, Opposite(c)) == 100.0 <==> p - q == total
  {
  }

  /** From the top of the positive stack of a pair to the bottom of the negative one. */
  function PairSpan(r: StackMap, c: Cell): real {
    Reach(r, c) - Reach(r, Opposite(c))
  }

  lemma {:induction false} SpanOfTotal(st: StackMap, es: seq<Entry>, c: Cell)
    requires IsCleared(st) && AllPaired(es, c)
    ensures PairSpan(AddEntries(st, map[], es), c) == 100.0 <==>
            SumAt(es, c) - SumAt(es, Opposite(c)) == PairSum(st, es, c) != 0.0
  {
    var r, total := AddEntries(st, map[], es), PairSum(st, es, c);
    PercentTotals(st, es, c);
    CumIsSum(st, es, c);
    CumIsSum(st, es, Opposite(c));
    if total == 0.0 {
      assert Reach(r, c) == Reach(r, Opposite(c)) == 0.0;
    } else {
      SpanOfValues(r, c, SumAt(es, c), SumAt(es, Opposite(c)), total);
    }
  }

  /**
   Top of the positive stack minus bottom of the negative one is exactly 100, if and only if the difference of
   the two sums is the total that was kept. When nothing was wiped, that is when every point is stacked on the
   side of its own sign; when every point is, it is when nothing was wiped.
   */
  lemma {:induction false} PercentSpan(st: StackMap, es: seq<Entry>, c: Cell)
    requires IsCleared(st) && AllPaired(es, c) && !c.negative
    ensures var spans := PairSpan(AddEntries(st, map[], es), c) == 100.0;
            && (spans <==> SumAt(es, c) - SumAt(es, Opposite(c)) == PairSum(st, es, c) != 0.0)
            && (SumAbs(es, c) != 0.0 && NothingWiped(st, es, c) ==> (spans <==> SidesAgree(es, c)))
            && (SumAbs(es, c) != 0.0 && SidesAgree(es, c) ==> (spans <==> NothingWiped(st, es, c)))
  {
    SpanOfTotal(st, es, c);
    PairSumExact(st, es, c);
    SignedSum(es, c);
  }

  /** With a threshold of 4 the values 3 and 5 land in different stacks, and these do not span 100. */
  lemma {:induction false} ThresholdBreaksSpan()
    ensures var es := [Entry(Pair(true), PointKey(0, 0), Num(3.0), true, true),
                       Entry(Pair(false), PointKey(1, 0), Num(5.0), true, true)];
            var r := AddEntries(map[], map[], es);
            && Less(Num(3.0), Num(4.0)) && !Less(Num(5.0), Num(4.0)) && AllPaired(es, Pair(false))
            && PairSpan(r, Pair(false)) != 100.0
  {
    var a := Entry(Pair(true), PointKey(0, 0), Num(3.0), true, true);
    var b := Entry(Pair(false), PointKey(1, 0), Num(5.0), true, true);
    TwoEntries(map[], map[], a, b);
    assert !SideAgrees([a, b][0]);
    PercentSpan(map[], [a, b], Pair(false));
  }

  // ---------- Scaling ----------

  predicate InPass(s: SeriesData, negative: bool, i: nat, c: Cell, pk: PointKey) {
    OwnedBy(s, c, pk) && c.negative == negative && i <= pk.point
  }

  /** The same stacks with the same totals, sums and points. */
  predicate SameShape(st: StackMap, r: StackMap) {
    && st.Keys == r.Keys
    && forall c :: c in st ==>
         r[c].total == st[c].total && r[c].cum == st[c].cum && r[c].points.Keys == st[c].points.Keys
  }

  lemma {:induction false} ScaleDownAt(st: StackMap, s: SeriesData, negative: bool, i: nat, c: Cell, pk: PointKey)
    requires i <= |s.xs| && c in st && pk in st[c].points
    ensures var r := ScaleDown(st, s, negative, i);
            && SameShape(st, r)
            && r[c].points[pk] ==
               if InPass(s, negative, i, c, pk) then ToPercent(st[c].points[pk], st[c].total) else st[c].points[pk]
    decreases |s.xs| - i
  {
    if i < |s.xs| {
      ScaleDownAt(st, s, negative, i + 1, c, pk);
    }
  }

  lemma {:induction false} ScaleDownShape(st: StackMap, s: SeriesData, negative: bool, i: nat)
    requires i <= |s.xs|
    ensures SameShape(st, ScaleDown(st, s, negative, i))
    decreases |s.xs| - i
  {
    if i < |s.xs| {
      ScaleDownShape(st, s, negative, i + 1);
    }
  }

  lemma {:induction false} PercentSeriesAt(st: StackMap, s: SeriesData, c: Cell, pk: PointKey)
    requires c in st && pk in st[c].points
    ensures var r := PercentSeries(st, s);
            && SameShape(st, r)
            && r[c].points[pk] ==
               if OwnedBy(s, c, pk) then ToPercent(st[c].points[pk], st[c].total) else st[c].points[pk]
  {
    ScaleDownAt(st, s, false, 0, c, pk);
    ScaleDownAt(ScaleDown(st, s, false, 0), s, true, 0, c, pk);
  }

  /** The entry of stackedYData for point k after one pass: scaled with its interval, if the pass meets one. */
  lemma {:induction false} PercentYAt(st: StackMap, s: SeriesData, negative: bool, i: nat, y: map<nat, real>, k: nat)
    requires i <= |s.xs| && k < |s.xs|
    ensures var y', c, pk := PercentY(st, s, negative, i, y), ScaleCell(s, negative, k), PointKey(s.index, k);
            if i <= k && c in st && pk in st[c].points
            then k in y' && y'[k] == ToPercent(st[c].points[pk], st[c].total).hi
            else (k in y' <==> k in y) && (k in y ==> y'[k] == y[k])
    decreases |s.xs| - i
  {
    if i < |s.xs| {
      PercentYAt(st, s, negative, i + 1, y, k);
      ScaleDownShape(st, s, negative, i + 1);
      var c, pk := ScaleCell(s, negative, i), PointKey(s.index, i);
      if c in st && pk in st[c].points {
        ScaleDownAt(st, s, negative, i + 1, c, pk);
      }
    }
  }

  /**
   After setPercentStacks the entry of a point in stackedYData is the upper end of its interval as it is
   recorded then, on the negative side if there is one on both; without an interval it is as before.
   */
  lemma {:induction false} PercentHeights(st: StackMap, s: SeriesData, y: map<nat, real>, k: nat)
    requires k < |s.xs|
    ensures var r, y' := PercentSeries(st, s),
                         PercentY(ScaleDown(st, s, false, 0), s, true, 0, PercentY(st, s, false, 0, y));
            var up, down, pk := Cell(false, s.key, s.xs[k]), Cell(true, s.key, s.xs[k]), PointKey(s.index, k);
            if down in r && pk in r[down].points then k in y' && y'[k] == r[down].points[pk].hi
            else if up in r && pk in r[up].points then k in y' && y'[k] == r[up].points[pk].hi
            else (k in y' <==> k in y) && (k in y ==> y'[k] == y[k])
  {
    var up, down, pk := Cell(false, s.key, s.xs[k]), Cell(true, s.key, s.xs[k]), PointKey(s.index, k);
    var half := ScaleDown(st, s, false, 0);
    PercentYAt(st, s, false, 0, y, k);
    PercentYAt(half, s, true, 0, PercentY(st, s, false, 0, y), k);
    ScaleDownShape(st, s, false, 0);
    ScaleDownShape(half, s, true, 0);
    if down in st && pk in st[down].points {
      PercentSeriesAt(st, s, down, pk);
      ScaleDownAt(st, s, false, 0, down, pk);
    }
    if up in st && pk in st[up].points {
      PercentSeriesAt(st, s, up, pk);
    }
  }

  lemma {:induction false} HeightKeys(st: StackMap, prev: StackMap, es: seq<Entry>, i: nat)
    ensures i in StackedY(st, prev, es) <==> i < |es|
  {
    if es != [] {
      HeightKeys(st, prev, es[..|es| - 1], i);
    }
  }

  /** setStackedPoints notes in stackedYData, for each of its points and no other, the upper end of its interval. */
  lemma {:induction false} StackedHeights(st: StackMap, prev: StackMap, es: seq<Entry>, k: nat)
    requires DistinctKeys(es)
    ensures k in StackedY(st, prev, es) <==> k < |es|
    ensures k < |es| ==>
              var r, e := AddEntries(st, prev, es), es[k];
              e.cell in r && e.pk in r[e.cell].points && StackedY(st, prev, es)[k] == r[e.cell].points[e.pk].hi
  {
    HeightKeys(st, prev, es, k);
    if k < |es| - 1 {
      StackedHeights(st, prev, es[..|es| - 1], k);
    }
  }

  lemma {:induction false} PercentAllShape(st: StackMap, series: seq<SeriesData>)
    ensures SameShape(st, PercentAll(st, series))
  {
    if series != [] {
      var n := |series| - 1;
      PercentAllShape(st, series[..n]);
      ScaleDownShape(PercentAll(st, series[..n]), series[n], false, 0);
      ScaleDownShape(ScaleDown(PercentAll(st, series[..n]), series[n], false, 0), series[n], true, 0);
    }
  }

  lemma {:induction false} PercentAllAt(st: StackMap, series: seq<SeriesData>, c: Cell, pk: PointKey)
    requires DistinctIndexes(series) && c in st && pk in st[c].points
    ensures var r := PercentAll(st, series);
            && SameShape(st, r)
            && r[c].points[pk] ==
               if Owned(series, c, pk) then ToPercent(st[c].points[pk], st[c].total) else st[c].points[pk]
  {
    PercentAllShape(st, series);
    if series != [] {
      var n := |series| - 1;
      PercentAllAt(st, series[..n], c, pk);
      PercentSeriesAt(PercentAll(st, series[..n]), series[n], c, pk);
      assert forall i :: 0 <= i < n ==> series[..n][i] == series[i];
      assert OwnedBy(series[n], c, pk) ==> !Owned(series[..n], c, pk);
    }
  }

  /** The passes of all series scale each point that belongs to a series exactly once. */
  lemma {:induction false} ScaledExactlyOnce(st: StackMap, series: seq<SeriesData>)
    requires DistinctIndexes(series)
    ensures PercentAll(st, series) == Scaled(st, series)
  {
    var r := PercentAll(st, series);
    PercentAllShape(st, series);
    forall c | c in st
      ensures r[c] == Scaled(st, series)[c]
    {
      forall pk | pk in st[c].points
        ensures r[c].points[pk] == Scaled(st, series)[c].points[pk]
      {
        PercentAllAt(st, series, c, pk);
      }
      assert r[c].points == Scaled(st, series)[c].points;
    }
  }

  predicate PercentAt(series: seq<SeriesData>, ignoreHidden: bool, i: nat)
    requires i < |series|
  {
    series[i].Active(ignoreHidden) && series[i].stacking == Percent
  }

  lemma {:induction false} UsePercentageIff(series: seq<SeriesData>, ignoreHidden: bool)
    ensures UsePercentage(series, ignoreHidden) <==> exists i :: 0 <= i < |series| && PercentAt(series, ignoreHidden, i)
  {
    if series != [] {
      var n := |series| - 1;
      UsePercentageIff(series[..n], ignoreHidden);
      assert forall i :: 0 <= i < n ==> PercentAt(series[..n], ignoreHidden, i) == PercentAt(series, ignoreHidden, i);
      assert UsePercentage(series, ignoreHidden) <==>
             UsePercentage(series[..n], ignoreHidden) || PercentAt(series, ignoreHidden, n);
    }
  }

  lemma {:induction false} UsePercentageInOrder(series: seq<SeriesData>, reversedStacks: bool, ignoreHidden: bool)
    ensures UsePercentage(BuildOrder(series, reversedStacks), ignoreHidden) == UsePercentage(series, ignoreHidden)
  {
    var order := BuildOrder(series, reversedStacks);
    UsePercentageIff(series, ignoreHidden);
    UsePercentageIff(order, ignoreHidden);
    if i :| 0 <= i < |series| && PercentAt(series, ignoreHidden, i) {
      assert PercentAt(order, ignoreHidden, if reversedStacks then |series| - 1 - i else i);
    }
    if i :| 0 <= i < |order| && PercentAt(order, ignoreHidden, i) {
      assert PercentAt(series, ignoreHidden, if reversedStacks then |series| - 1 - i else i);
    }
  }
}
