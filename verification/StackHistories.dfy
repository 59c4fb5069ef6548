/**
 What the history of an axis leaves behind: the cells of earlier builds stay in the stacks, cleared.
 Places and sums never depend on them. Totals may, and only through an undefined y.
 */
module StackHistories {
  import opened JsValues
  import opened Stacks
  import opened StackTheorems
  import opened StackRuns

  // ---------- Only the presence of the two cells matters ----------

  predicate CellAgrees(r: StackMap, r': StackMap, c: Cell) {
    (c in r <==> c in r') && (c in r ==> r[c].total == r'[c].total && r[c].cum == r'[c].cum)
  }

  /** Both stacks of the pair of c are there or not, with the same totals and sums. */
  predicate PairAgrees(r: StackMap, r': StackMap, c: Cell) {
    CellAgrees(r, r', c) && CellAgrees(r, r', Opposite(c))
  }

  lemma {:induction false} PairAgreesStep(r: StackMap, r': StackMap, e: Entry, c: Cell)
    requires PairAgrees(r, r', c)
    ensures PairAgrees(AddEntry(r, map[], e), AddEntry(r', map[], e), c)
  {
    if SamePair(e.cell, c) {
      assert e.cell == c || e.cell == Opposite(c);
      assert Opposite(Opposite(c)) == c;
    } else {
      assert e.cell != c && e.cell != Opposite(c) && Opposite(e.cell) != c && Opposite(e.cell) != Opposite(c);
    }
  }

  lemma {:induction false} PairStateOnly(st: StackMap, st': StackMap, es: seq<Entry>, c: Cell)
    requires PairAgrees(st, st', c)
    ensures PairAgrees(AddEntries(st, map[], es), AddEntries(st', map[], es), c)
  {
    if es != [] {
      var n := |es| - 1;
      PairStateOnly(st, st', es[..n], c);
      PairAgreesStep(AddEntries(st, map[], es[..n]), AddEntries(st', map[], es[..n]), es[n], c);
    }
  }

  /** Cells that earlier builds have left, cleared. */
  function Stale(cells: set<Cell>): StackMap {
    map c | c in cells :: Item(0.0, 0.0, map[])
  }

  function PairCells(c: Cell): set<Cell> {
    {c, Opposite(c)}
  }

  /** The total of c after the points are added to the given stale cells. */
  function TotalFrom(cells: set<Cell>, es: seq<Entry>, c: Cell): real {
    var r := AddEntries(Stale(cells), map[], es);
    if c in r then r[c].total else 0.0
  }

  /** The total of c after any run and a rebuild. */
  function TotalAfter(before: seq<Op>, series: seq<SeriesData>, o: Options, c: Cell): real
    requires ValidOps(before) && AllValid(series) && DistinctIndexes(series)
  {
    TotalIn(Rescaled(Run(before), series, o).stacks, c)
  }

  lemma {:induction false} RescaledTotal(a: AxisState, series: seq<SeriesData>, o: Options, c: Cell)
    requires AllValid(series) && DistinctIndexes(series) && a.prev.Keys <= a.stacks.Keys
    ensures TotalIn(Rescaled(a, series, o).stacks, c)
            == TotalFrom(a.stacks.Keys * PairCells(c), BuiltEntries(series, o), c)
    ensures c in Rescaled(a, series, o).stacks <==> c in a.stacks || Holds(BuiltEntries(series, o), c)
  {
    var es := BuiltEntries(series, o);
    RescaledIs(a, series, o);
    ReachUnscaled(Unscaled(a, series, o), series, c);
    CumIsSum(Cleared(a.stacks), es, c);
    PairStateOnly(Cleared(a.stacks), Stale(a.stacks.Keys * PairCells(c)), es, c);
  }

  /** Of its history a stack remembers at most which cells of its pair have been there. */
  lemma {:induction false} TotalAfterIs(before: seq<Op>, series: seq<SeriesData>, o: Options, c: Cell)
    requires ValidOps(before) && AllValid(series) && DistinctIndexes(series)
    ensures TotalAfter(before, series, o, c) ==
            TotalFrom(Run(before).stacks.Keys * PairCells(c), BuiltEntries(series, o), c)
  {
    OldStacksAreCurrent(before);
    OldKeys(Run(before));
    RescaledTotal(Run(before), series, o, c);
  }

  // ---------- Every combination of stale cells occurs ----------

  /** A column series with a point of 1 or -1 for each cell. */
  function Leaving(cells: seq<Cell>): SeriesData
    requires cells != []
  {
    SeriesData(0, cells[0].key, Normal, true, true, Num(0.0),
      seq(|cells|, i requires 0 <= i < |cells| => cells[i].x),
      seq(|cells|, i requires 0 <= i < |cells| => Num(if cells[i].negative then -1.0 else 1.0)))
  }

  lemma {:induction false} LeavingEntries(cells: seq<Cell>, c: Cell)
    requires cells != [] && forall i :: 0 <= i < |cells| ==> SamePair(cells[i], c)
    ensures var es := BuiltEntries([Leaving(cells)], Options(false, false));
            |es| == |cells| && forall i :: 0 <= i < |cells| ==> es[i].cell == cells[i]
  {
    var s := Leaving(cells);
    assert Parts([s], false) == [s.Entries(false)];
    FlattenOne(s.Entries(false));
  }

  lemma {:induction false} LeavesCells(cells: seq<Cell>, c: Cell) returns (before: seq<Op>)
    requires cells != [] && forall i :: 0 <= i < |cells| ==> SamePair(cells[i], c)
    ensures ValidOps(before)
    ensures forall d :: d in Run(before).stacks <==> d in cells
  {
    var s, o, none := Leaving(cells), Options(false, false), AxisState(map[], map[]);
    before := [SetScale(true, [s], o)];
    assert before[..0] == [];
    assert Run(before) == Rescaled(none, [s], o);
    LeavingEntries(cells, c);
    forall d: Cell
      ensures d in Run(before).stacks <==> d in cells
    {
      RescaledTotal(none, [s], o, d);
    }
  }

  lemma {:induction false} EveryStale(cells: set<Cell>, c: Cell) returns (before: seq<Op>)
    requires cells <= PairCells(c)
    ensures ValidOps(before) && Run(before).stacks.Keys * PairCells(c) == cells
  {
    if cells == {} {
      before := [];
    } else if cells == {c} {
      before := LeavesCells([c], c);
    } else if c !in cells {
      before := LeavesCells([Opposite(c)], c);
      assert cells == {Opposite(c)};
    } else {
      before := LeavesCells([c, Opposite(c)], c);
      assert cells == {c, Opposite(c)};
    }
  }

  // ---------- When all histories agree ----------

  /** A rebuild gives the stack the same total after every history of the axis. */
  ghost predicate AnyHistory(series: seq<SeriesData>, o: Options, c: Cell)
    requires AllValid(series) && DistinctIndexes(series)
  {
    forall before: seq<Op> | ValidOps(before) :: TotalAfter(before, series, o, c) == TotalAfter([], series, o, c)
  }

  ghost predicate AnyStale(es: seq<Entry>, c: Cell) {
    forall cells: set<Cell> | cells <= PairCells(c) :: TotalFrom(cells, es, c) == TotalFrom({}, es, c)
  }

  /** All histories agree if and only if the four combinations of stale cells give one total. */
  lemma {:induction false} HistoryMatters(series: seq<SeriesData>, o: Options, c: Cell)
    requires AllValid(series) && DistinctIndexes(series)
    ensures AnyHistory(series, o, c) <==> AnyStale(BuiltEntries(series, o), c)
  {
    var es := BuiltEntries(series, o);
    TotalAfterIs([], series, o, c);
    assert Run([]).stacks.Keys * PairCells(c) == {};
    if AnyHistory(series, o, c) {
      forall cells: set<Cell> | cells <= PairCells(c)
        ensures TotalFrom(cells, es, c) == TotalFrom({}, es, c)
      {
        var before := EveryStale(cells, c);
        TotalAfterIs(before, series, o, c);
      }
    }
    if AnyStale(es, c) {
      forall before: seq<Op> | ValidOps(before)
        ensures TotalAfter(before, series, o, c) == TotalAfter([], series, o, c)
      {
        TotalAfterIs(before, series, o, c);
      }
    }
  }

  // ---------- Stacks without paired points ----------

  lemma {:induction false} UnpairedHistory(series: seq<SeriesData>, o: Options, c: Cell)
    requires AllValid(series) && DistinctIndexes(series) && NonePaired(BuiltEntries(series, o), c)
    ensures AnyHistory(series, o, c)
  {
    var es := BuiltEntries(series, o);
    forall cells: set<Cell> | cells <= PairCells(c)
      ensures TotalFrom(cells, es, c) == TotalFrom({}, es, c)
    {
      UnpairedAmount(Stale(cells), es, c);
      UnpairedAmount(Stale({}), es, c);
    }
    HistoryMatters(series, o, c);
  }

  // ---------- Paired stacks ----------

  /** With more stale cells an undefined y wipes more often, and less is left. */
  lemma {:induction false} MoreStaleLess(st: StackMap, st': StackMap, es: seq<Entry>, c: Cell)
    requires forall d :: d in PairCells(c) && d in st ==> d in st'
    ensures 0.0 <= PairSum(st', es, c) <= PairSum(st, es, c)
  {
    PairSumExact(st, es, c);
    PairSumExact(st', es, c);
    if es != [] {
      var n := |es| - 1;
      MoreStaleLess(st, st', es[..n], c);
      assert SamePair(es[n].cell, c) ==> Opposite(es[n].cell) in PairCells(c) by {
        assert SamePair(es[n].cell, c) ==> es[n].cell == c || es[n].cell == Opposite(c);
        assert Opposite(Opposite(c)) == c;
      }
    }
  }

  /** On a new axis the value at j is still in the total at the end: no later undefined y finds the other stack. */
  predicate Survives(es: seq<Entry>, c: Cell, j: nat)
    requires j < |es|
  {
    && SamePair(es[j].cell, c) && es[j].y.OrZero() != 0.0
    && forall m :: j < m < |es| && UndefinedAt(es, c, m) ==> !Holds(es[..m], Opposite(es[m].cell))
  }

  /**
   A value that a new axis keeps but an undefined y after it throws away when both stacks are there from
   the start.
   */
  predicate StaleWipe(es: seq<Entry>, c: Cell) {
    exists j, k :: 0 <= j < k < |es| && UndefinedAt(es, c, k) && Survives(es, c, j)
  }

  lemma {:induction false} SurvivesStep(es: seq<Entry>, c: Cell, j: nat)
    requires j < |es| - 1
    ensures var n := |es| - 1;
            Survives(es, c, j) <==>
            Survives(es[..n], c, j) && !(UndefinedAt(es, c, n) && Holds(es[..n], Opposite(es[n].cell)))
  {
    var n := |es| - 1;
    forall m | j < m < n
      ensures UndefinedAt(es[..n], c, m) == UndefinedAt(es, c, m)
      ensures Holds(es[..n][..m], Opposite(es[..n][m].cell)) == Holds(es[..m], Opposite(es[m].cell))
    {
      assert es[..n][..m] == es[..m];
    }
  }

  /** Something is left on a new axis exactly when some value survives. */
  lemma {:induction false} LeftIsSurviving(es: seq<Entry>, c: Cell)
    ensures PairSum(map[], es, c) >= 0.0
    ensures PairSum(map[], es, c) > 0.0 <==> exists j :: 0 <= j < |es| && Survives(es, c, j)
  {
    if es != [] {
      var n := |es| - 1;
      LeftIsSurviving(es[..n], c);
      forall j | 0 <= j < n
        ensures Survives(es, c, j) <==>
                Survives(es[..n], c, j) && !(UndefinedAt(es, c, n) && Holds(es[..n], Opposite(es[n].cell)))
      {
        SurvivesStep(es, c, j);
      }
      assert Survives(es, c, n) <==> SamePair(es[n].cell, c) && es[n].y.OrZero() != 0.0;
    }
  }

  lemma {:induction false} StaleWipeStep(es: seq<Entry>, c: Cell)
    requires es != []
    ensures var n := |es| - 1;
            StaleWipe(es, c) <==>
            if !UndefinedAt(es, c, n) then StaleWipe(es[..n], c)
            else !Holds(es[..n], Opposite(es[n].cell)) && exists j :: 0 <= j < n && Survives(es[..n], c, j)
  {
    var n := |es| - 1;
    forall j | 0 <= j < n
      ensures Survives(es, c, j) <==>
              Survives(es[..n], c, j) && !(UndefinedAt(es, c, n) && Holds(es[..n], Opposite(es[n].cell)))
      ensures UndefinedAt(es[..n], c, j) == UndefinedAt(es, c, j)
    {
      SurvivesStep(es, c, j);
    }
    if StaleWipe(es, c) {
      var j, k :| 0 <= j < k < |es| && UndefinedAt(es, c, k) && Survives(es, c, j);
      assert Survives(es[..n], c, j);
    }
    if j :| 0 <= j < n && Survives(es, c, j) && UndefinedAt(es, c, n) {
      assert StaleWipe(es, c);
    }
  }

  /** New and used axes keep the same total if and only if there is no such value. */
  lemma {:induction false} StaleWipeExact(es: seq<Entry>, c: Cell)
    ensures PairSum(map[], es, c) == PairSum(Stale(PairCells(c)), es, c) <==> !StaleWipe(es, c)
  {
    if es != [] {
      var n := |es| - 1;
      StaleWipeExact(es[..n], c);
      StaleWipeStep(es, c);
      LeftIsSurviving(es[..n], c);
      assert SamePair(es[n].cell, c) ==> Opposite(es[n].cell) in PairCells(c) by {
        assert SamePair(es[n].cell, c) ==> es[n].cell == c || es[n].cell == Opposite(c);
        assert Opposite(Opposite(c)) == c;
      }
    }
  }

  lemma {:induction false} PairedTotal(cells: set<Cell>, es: seq<Entry>, c: Cell)
    requires AllPaired(es, c) && Holds(es, c)
    ensures TotalFrom(cells, es, c) == PairSum(Stale(cells), es, c)
  {
    PercentTotals(Stale(cells), es, c);
    CumIsSum(Stale(cells), es, c);
  }

  /**
   The total of a pair of percent stacks is the same after all histories of the axis, if and only if
   no value survives on a new axis that comes before an undefined y.
   */
  lemma {:induction false} PairedHistory(series: seq<SeriesData>, o: Options, c: Cell)
    requires AllValid(series) && DistinctIndexes(series)
    requires AllPaired(BuiltEntries(series, o), c) && Holds(BuiltEntries(series, o), c)
    ensures AnyHistory(series, o, c) <==> !StaleWipe(BuiltEntries(series, o), c)
  {
    var es := BuiltEntries(series, o);
    HistoryMatters(series, o, c);
    StaleWipeExact(es, c);
    forall cells: set<Cell> | cells <= PairCells(c)
      ensures TotalFrom(cells, es, c) == PairSum(Stale(cells), es, c)
      ensures PairSum(Stale(PairCells(c)), es, c) <= PairSum(Stale(cells), es, c) <= PairSum(map[], es, c)
    {
      PairedTotal(cells, es, c);
      MoreStaleLess(map[], Stale(cells), es, c);
      MoreStaleLess(Stale(cells), Stale(PairCells(c)), es, c);
    }
    assert Stale({}) == map[];
    if AnyStale(es, c) {
      assert TotalFrom(PairCells(c), es, c) == TotalFrom({}, es, c);
    }
  }

  // ---------- Rebuilding ----------

  /** Two builds have the same sum, total and place for a point. */
  predicate SameBuild(st: StackMap, st': StackMap, c: Cell, pk: PointKey) {
    && c in st && c in st' && pk in st[c].points && pk in st'[c].points
    && st[c].cum == st'[c].cum && st[c].total == st'[c].total && st[c].points[pk] == st'[c].points[pk]
  }

  /**
   A rebuild reproduces every point after any two runs, if and only if the totals of its stack agree. The sums
   agree in any case, and the places do on axes without percent stacking. Totals agree after all runs without
   paired points, and with them if no surviving value comes before an undefined y.
   */
  lemma {:induction false} RebuildReproduces(before: seq<Op>, other: seq<Op>, series: seq<SeriesData>, o: Options,
                                             k: nat)
    requires ValidOps(before) && ValidOps(other) && AllValid(series) && DistinctIndexes(series)
    requires k < |BuiltEntries(series, o)|
    ensures var st, st' := Rescaled(Run(before), series, o).stacks, Rescaled(Run(other), series, o).stacks;
            var es := BuiltEntries(series, o);
            var c, pk := es[k].cell, es[k].pk;
            && c in st && c in st' && pk in st[c].points && pk in st'[c].points && st[c].cum == st'[c].cum
            && (UsePercentage(series, o.ignoreHidden) || st[c].points[pk] == st'[c].points[pk])
            && (SameBuild(st, st', c, pk) <==> st[c].total == st'[c].total)
            && (NonePaired(es, c) || (AllPaired(es, c) && !StaleWipe(es, c)) ==> SameBuild(st, st', c, pk))
  {
    var es := BuiltEntries(series, o);
    OldStacksAreCurrent(before);
    OldStacksAreCurrent(other);
    OldKeys(Run(before));
    OldKeys(Run(other));
    PlaceOfPoint(Run(before), series, o, k);
    PlaceOfPoint(Run(other), series, o, k);
    assert Holds(es, es[k].cell);
    if NonePaired(es, es[k].cell) {
      UnpairedHistory(series, o, es[k].cell);
    } else if AllPaired(es, es[k].cell) && !StaleWipe(es, es[k].cell) {
      PairedHistory(series, o, es[k].cell);
    }
  }

  /** From the second rebuild of unchanged series on, the totals stay as they are. */
  lemma {:induction false} RedrawSettles(before: seq<Op>, series: seq<SeriesData>, o: Options, c: Cell)
    requires ValidOps(before) && AllValid(series) && DistinctIndexes(series)
    ensures var op := SetScale(true, series, o);
            && ValidOps(before + [op]) && ValidOps(before + [op] + [op])
            && TotalAfter(before + [op], series, o, c) == TotalAfter(before + [op] + [op], series, o, c)
  {
    var op := SetScale(true, series, o);
    var once, twice := before + [op], before + [op] + [op];
    assert once[..|before|] == before && twice[..|once|] == once;
    OldStacksAreCurrent(before);
    OldKeys(Run(before));
    OldStacksAreCurrent(once);
    OldKeys(Run(once));
    forall d: Cell
      ensures d in Run(once).stacks <==> d in Run(twice).stacks
    {
      RescaledTotal(Run(before), series, o, d);
      RescaledTotal(Run(once), series, o, d);
    }
    assert Run(once).stacks.Keys == Run(twice).stacks.Keys;
    TotalAfterIs(once, series, o, c);
    TotalAfterIs(twice, series, o, c);
  }

  // ---------- A redraw that changes a total ----------

  function Column(index: nat, y: JsNumber): SeriesData {
    SeriesData(index, "sales", Percent, true, true, Num(0.0), [0.0], [y])
  }

  lemma {:induction false} ThreeEntries(st: StackMap, a: Entry, b: Entry, d: Entry)
    ensures AddEntries(st, map[], [a, b, d]) == AddEntry(AddEntry(AddEntry(st, map[], a), map[], b), map[], d)
  {
    assert [a, b, d][..2] == [a, b];
    TwoEntries(st, map[], a, b);
  }

  lemma {:induction false} ThreeColumns(series: seq<SeriesData>, ys: seq<JsNumber>, o: Options)
    requires |ys| == 3 && series == [Column(0, ys[0]), Column(1, ys[1]), Column(2, ys[2])] && o == Options(false, true)
    ensures AllValid(series) && DistinctIndexes(series)
    ensures BuiltEntries(series, o) == [series[0].EntryAt(0), series[1].EntryAt(0), series[2].EntryAt(0)]
  {
    var a, b, d := series[0].Entries(true), series[1].Entries(true), series[2].Entries(true);
    assert Parts(series, true) == [a, b] + [d] && [a, b] == [a] + [b];
    FlattenConcat([a, b], [d]);
    FlattenConcat([a], [b]);
    FlattenOne(a);
    FlattenOne(b);
    FlattenOne(d);
  }

  lemma {:induction false} ThreeTotals(a: Entry, b: Entry, d: Entry)
    requires a == Column(0, Num(1.0)).EntryAt(0) && b == Column(1, Undefined).EntryAt(0)
    requires d == Column(2, Num(-2.0)).EntryAt(0)
    ensures a.cell == b.cell == Pair(false) && d.cell == Pair(true)
    ensures TotalFrom({}, [a, b, d], Pair(false)) == 3.0
    ensures TotalFrom(PairCells(Pair(false)), [a, b, d], Pair(false)) == 2.0
  {
    ThreeEntries(Stale({}), a, b, d);
    ThreeEntries(Stale(PairCells(Pair(false))), a, b, d);
  }

  /** After a rebuild the cells of its points are there. */
  lemma {:induction false} LeavesItsCells(series: seq<SeriesData>, o: Options, c: Cell)
    requires AllValid(series) && DistinctIndexes(series)
    requires Holds(BuiltEntries(series, o), c) && Holds(BuiltEntries(series, o), Opposite(c))
    ensures ValidOps([SetScale(true, series, o)])
    ensures Run([SetScale(true, series, o)]).stacks.Keys * PairCells(c) == PairCells(c)
  {
    var redraw, none := [SetScale(true, series, o)], AxisState(map[], map[]);
    assert redraw[..0] == [];
    assert Run(redraw) == Rescaled(none, series, o);
    RescaledTotal(none, series, o, c);
    RescaledTotal(none, series, o, Opposite(c));
  }

  /** Percent columns 1, undefined and -2 at one x: the first build totals 3, and redrawing the same data totals 2. */
  lemma {:induction false} RedrawChangesTotal(series: seq<SeriesData>, o: Options)
    requires series == [Column(0, Num(1.0)), Column(1, Undefined), Column(2, Num(-2.0))] && o == Options(false, true)
    ensures AllValid(series) && DistinctIndexes(series) && ValidOps([SetScale(true, series, o)])
    ensures TotalAfter([], series, o, Pair(false)) == 3.0
    ensures TotalAfter([SetScale(true, series, o)], series, o, Pair(false)) == 2.0
  {
    ThreeColumns(series, [Num(1.0), Undefined, Num(-2.0)], o);
    var es, c := BuiltEntries(series, o), Pair(false);
    ThreeTotals(es[0], es[1], es[2]);
    assert Holds(es, c) && Holds(es, Opposite(c));
    LeavesItsCells(series, o, c);
    TotalAfterIs([], series, o, c);
    assert Run([]).stacks.Keys * PairCells(c) == {};
    TotalAfterIs([SetScale(true, series, o)], series, o, c);
  }

  // ---------- Percent columns that do not span 100 ----------

  /** An undefined y comes after a value of the pair. */
  predicate UndefinedAfterValue(es: seq<Entry>, c: Cell) {
    exists j, k :: 0 <= j < k < |es| && SamePair(es[j].cell, c) && es[j].y.OrZero() != 0.0 && UndefinedAt(es, c, k)
  }

  lemma {:induction false} WipedOnFull(st: StackMap, es: seq<Entry>, c: Cell)
    requires !UndefinedAfterValue(es, c) || PairCells(c) <= st.Keys
    ensures NothingWiped(st, es, c) <==> !UndefinedAfterValue(es, c)
  {
    if j, k :| 0 <= j < k < |es| && SamePair(es[j].cell, c) && es[j].y.OrZero() != 0.0 && UndefinedAt(es, c, k) {
      assert es[k].cell == c || es[k].cell == Opposite(c);
      assert Opposite(Opposite(c)) == c;
      assert Opposite(es[k].cell) in st;
      assert WipesAt(st, es, c, k);
    } else {
      forall k | 0 <= k < |es|
        ensures !WipesAt(st, es, c, k)
      {
        assert UndefinedAt(es, c, k) <==> SamePair(es[k].cell, c) && es[k].y.Undefined?;
      }
    }
  }

  /** The pair spans 100 after a rebuild, whatever happened before. */
  ghost predicate AlwaysSpans(series: seq<SeriesData>, o: Options, c: Cell)
    requires AllValid(series) && DistinctIndexes(series)
  {
    forall before: seq<Op> | ValidOps(before) :: PairSpan(Rescaled(Run(before), series, o).stacks, c) == 100.0
  }

  /**
   From the series alone: percent columns with threshold 0 and some value span exactly 100 after every history,
   if and only if no undefined y comes after a value.
   */
  lemma {:induction false} PercentAlways(series: seq<SeriesData>, o: Options, c: Cell)
    requires AllValid(series) && DistinctIndexes(series)
    requires forall i :: 0 <= i < |series| ==> ZeroThreshold(series[i])
    requires AllPaired(BuiltEntries(series, o), c) && !c.negative && SumAbs(BuiltEntries(series, o), c) != 0.0
    ensures AlwaysSpans(series, o, c) <==> !UndefinedAfterValue(BuiltEntries(series, o), c)
  {
    var es := BuiltEntries(series, o);
    if UndefinedAfterValue(es, c) {
      var before := EveryStale(PairCells(c), c);
      assert forall d :: d in PairCells(c) ==> d in Run(before).stacks.Keys * PairCells(c);
      SpansAfter(before, series, o, c);
      WipedOnFull(Cleared(Run(before).stacks), es, c);
    } else {
      forall before: seq<Op> | ValidOps(before)
        ensures PairSpan(Rescaled(Run(before), series, o).stacks, c) == 100.0
      {
        SpansAfter(before, series, o, c);
        WipedOnFull(Cleared(Run(before).stacks), es, c);
      }
    }
  }

  lemma {:induction false} SpansAfter(before: seq<Op>, series: seq<SeriesData>, o: Options, c: Cell)
    requires ValidOps(before) && AllValid(series) && DistinctIndexes(series)
    requires forall i :: 0 <= i < |series| ==> ZeroThreshold(series[i])
    requires AllPaired(BuiltEntries(series, o), c) && !c.negative && SumAbs(BuiltEntries(series, o), c) != 0.0
    ensures PairSpan(Rescaled(Run(before), series, o).stacks, c) == 100.0 <==>
            NothingWiped(Cleared(Run(before).stacks), BuiltEntries(series, o), c)
  {
    OldStacksAreCurrent(before);
    OldKeys(Run(before));
    PercentColumns(Run(before), series, o, c);
  }

  lemma {:induction false} WideEntries(a: Entry, b: Entry, d: Entry)
    requires a == Column(0, Num(-2.0)).EntryAt(0) && b == Column(1, Undefined).EntryAt(0)
    requires d == Column(2, Num(1.0)).EntryAt(0)
    ensures var r := AddEntries(map[], map[], [a, b, d]);
            && r.Keys == PairCells(Pair(false)) && r[Pair(false)].total == r[Pair(true)].total == 1.0
            && r[Pair(false)].cum == 1.0 && r[Pair(true)].cum == -2.0
    ensures SumAbs([a, b, d], Pair(false)) == 3.0
  {
    ThreeEntries(map[], a, b, d);
    TwoEntries(map[], map[], a, b);
    assert [a, b, d][..2] == [a, b];
  }

  /** Percent columns -2, undefined and 1 at one x of a new axis: the total is 1 instead of 3, and they span 300. */
  lemma {:induction false} WipedSpan(series: seq<SeriesData>, o: Options)
    requires series == [Column(0, Num(-2.0)), Column(1, Undefined), Column(2, Num(1.0))] && o == Options(false, true)
    ensures AllValid(series) && DistinctIndexes(series)
    ensures var st := Rescaled(Run([]), series, o).stacks;
            && SumAbs(BuiltEntries(series, o), Pair(false)) == 3.0
            && TotalIn(st, Pair(false)) == 1.0 && PairSpan(st, Pair(false)) == 300.0
  {
    ThreeColumns(series, [Num(-2.0), Undefined, Num(1.0)], o);
    var es := BuiltEntries(series, o);
    WideEntries(es[0], es[1], es[2]);
    RescaledIs(Run([]), series, o);
    assert Cleared(Run([]).stacks) == map[];
    ReachUnscaled(Unscaled(Run([]), series, o), series, Pair(false));
    ReachUnscaled(Unscaled(Run([]), series, o), series, Pair(true));
  }
}
