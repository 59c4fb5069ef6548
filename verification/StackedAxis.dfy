/**
 The stacking code as it stands: series and stack items that are updated in place. Each method
 is proved to have the effect that the functions of module Stacks describe.

 The nested dictionaries `stacks[key][x]` are one map over cells: the inner dictionary of a key
 is created together with its first item, so it is there exactly when some item is.

 A condition that is bound to a name, as in `var ok := P(); ok`, means P(). The verifier takes it as one fact
 instead of splitting it into its parts.
 */
module StackedAxis {
  import opened JsValues
  import opened Stacks
  import opened StackTheorems
  import opened StackRuns

  class StackItem {
    const cell: Cell
    var total: real
    var cum: real
    var points: map<PointKey, Interval>

    constructor (cell: Cell)
      ensures this.cell == cell && View() == Item(0.0, 0.0, map[])
    {
      this.cell := cell;
      total, cum, points := 0.0, 0.0, map[];
    }

    function View(): Item
      reads this
    {
      Item(total, cum, points)
    }

    /** Records the point from the present height upwards. */
    method Record(total: real, pk: PointKey, amount: real) returns (cum: real)
      modifies this
      ensures View() == Item(total, cum, old(points)[pk := Interval(old(this.cum), cum)])
      ensures cum == old(this.cum) + amount
    {
      this.total := total;
      points := points[pk := Interval(this.cum, this.cum + amount)];
      this.cum := this.cum + amount;
      cum := this.cum;
    }

    /** Scales one recorded point to percent. */
    method Scale(pk: PointKey) returns (hi: real)
      requires pk in points
      modifies this`points
      ensures points == old(points)[pk := ToPercent(old(points)[pk], total)] && hi == points[pk].hi
    {
      var scaled := ToPercent(points[pk], total);
      points := points[pk := scaled];
      hi := scaled.hi;
    }
  }

  class Axis {
    var stacks: map<Cell, StackItem>
    var oldStacks: map<Cell, StackItem>
    var series: seq<Series>
    var usePercentage: bool
    var hasVisibleSeries: bool
    const reversedStacks: bool
    const ignoreHiddenSeries: bool

    ghost var items: set<StackItem>  // every item that was made for this axis
    ghost var state: AxisState       // the values that the stacks hold

    constructor (reversedStacks: bool, ignoreHiddenSeries: bool)
      ensures Consistent() && Shared() && state == AxisState(map[], map[]) && series == [] && items == {}
      ensures this.reversedStacks == reversedStacks && this.ignoreHiddenSeries == ignoreHiddenSeries
    {
      stacks, oldStacks, series := map[], map[], [];
      usePercentage, hasVisibleSeries := false, false;
      this.reversedStacks, this.ignoreHiddenSeries := reversedStacks, ignoreHiddenSeries;
      items, state := {}, AxisState(map[], map[]);
    }

    /**
     An item knows the cell it was made for, so different cells have different items. An old item
     is looked at only while its cell is not stacked again.
     */
    ghost predicate Consistent()
      reads this, items
    {
      var ok := ItemsMatch(); ok
    }

    ghost predicate CurrentMatch()
      reads this, items
    {
      && stacks.Keys == state.stacks.Keys && oldStacks.Keys == state.prev.Keys
      && (forall c :: c in stacks ==> stacks[c] in items && stacks[c].cell == c)
      && (forall c :: c in stacks ==> stacks[c].View() == state.stacks[c])
      && (forall c :: c in oldStacks ==> oldStacks[c] in items && oldStacks[c].cell == c)
    }

    ghost predicate ItemsMatch()
      reads this, items
    {
      && CurrentMatch()
      && (forall c :: c in oldStacks && c !in stacks ==> oldStacks[c].View() == state.prev[c])
    }

    /** The same, except for what an old item of the cell holds. */
    ghost predicate ConsistentBut(c: Cell)
      reads this, items
    {
      var ok := OthersMatch(c); ok
    }

    ghost predicate OthersMatch(c: Cell)
      reads this, items
    {
      && CurrentMatch()
      && (forall d :: d in oldStacks && d !in stacks && d != c ==> oldStacks[d].View() == state.prev[d])
    }

    /** The old stacks hold the very items of the current ones. */
    ghost predicate Shared()
      requires stacks.Keys == state.stacks.Keys && oldStacks.Keys == state.prev.Keys
      reads this
    {
      forall c :: c in oldStacks ==> c in stacks && oldStacks[c] == stacks[c] && state.prev[c] == state.stacks[c]
    }

    /** Stacking either drops the old stacks or, without an active series, changes no stack. */
    ghost predicate OldDropped(before: map<Cell, StackItem>, oldBefore: map<Cell, StackItem>)
      reads this
    {
      oldStacks == map[] || (stacks == before && oldStacks == oldBefore)
    }

    /** Puts an item, a new one or the old one of the cell, at a cell that has none. */
    method Insert(c: Cell, stack: StackItem)
      requires ConsistentBut(c) && c !in stacks && stack.cell == c
      modifies this`stacks, this`items, this`state
      ensures Consistent() && oldStacks == old(oldStacks) && items == old(items) + {stack}
      ensures stacks == old(stacks)[c := stack]
      ensures state == old(state).(stacks := old(state.stacks)[c := stack.View()])
    {
      items := items + {stack};
      stacks := stacks[c := stack];
      state := state.(stacks := state.stacks[c := stack.View()]);
      assert ItemsMatch();
    }

    /** A new item starts without a total, and an old one loses it. */
    method Place(c: Cell, stack: StackItem)
      requires Consistent() && c !in stacks && stack.cell == c
      modifies this`stacks, this`items, this`state, stack`total
      ensures Consistent() && oldStacks == old(oldStacks) && items == old(items) + {stack}
      ensures stacks == old(stacks)[c := stack]
      ensures state == old(state).(stacks := old(state.stacks)[c := Item(0.0, stack.cum, stack.points)])
    {
      stack.total := 0.0;
      assert OthersMatch(c);
      Insert(c, stack);
    }

    /** The end of setStackedPoints: the old stacks are not needed any more. */
    method DropOld(percent: bool)
      requires Consistent()
      modifies this`oldStacks, this`usePercentage, this`state
      ensures Consistent() && oldStacks == map[] && state == old(state).(prev := map[])
      ensures usePercentage == (old(usePercentage) || percent)
    {
      if percent {
        usePercentage := true;
      }
      oldStacks := map[];
      state := state.(prev := map[]);
      assert ItemsMatch();
    }

    /** The first half of the loop of setStackedPoints: the item of a cell, made if need be. */
    method Open(c: Cell) returns (stack: StackItem)
      requires Consistent()
      modifies this`stacks, this`items, this`state, if c in oldStacks then {oldStacks[c]} else {}
      ensures Consistent() && oldStacks == old(oldStacks) && fresh(items - old(items))
      ensures c in stacks && stack == stacks[c]
      ensures state == old(state).(stacks := old(state.stacks)[c := Opened(old(state.stacks), old(state.prev), c)])
    {
      if c in stacks {
        stack := stacks[c];
      } else if c in oldStacks {
        stack := oldStacks[c];
        Place(c, stack);
      } else {
        stack := new StackItem(c);
        Place(c, stack);
      }
    }

    /** Raises the total of the stack, or of both stacks of the pair, and records the point. */
    method Raise(stack: StackItem, e: Entry) returns (cum: real)
      requires Consistent() && e.cell in stacks && stack == stacks[e.cell]
      modifies items
      ensures forall d :: d in stacks ==>
                d in AddEntry(state.stacks, state.prev, e)
                    && stacks[d].View() == AddEntry(state.stacks, state.prev, e)[d]
      ensures forall d :: d in oldStacks && d !in stacks ==> oldStacks[d].View() == state.prev[d]
      ensures cum == stack.cum
    {
      var other := Opposite(e.cell);
      var total;
      if e.percent && e.negStacks && other in stacks {
        total := PairTotal(stacks[other].total, stack.total, e.y);
        stacks[other].total := total;
      } else {
        total := stack.total + if e.percent then Abs(e.y.OrZero()) else e.y.OrZero();
      }
      cum := stack.Record(total, e.pk, e.y.OrZero());
    }

    /** The second half: the point is put on top of its stack and the totals are raised. */
    method AddPoint(stack: StackItem, e: Entry) returns (cum: real)
      requires Consistent() && e.cell in stacks && stack == stacks[e.cell]
      modifies this`state, items
      ensures Consistent()
      ensures state == old(state).(stacks := AddEntry(old(state.stacks), old(state.prev), e))
      ensures cum == state.stacks[e.cell].cum
    {
      cum := Raise(stack, e);
      state := state.(stacks := AddEntry(state.stacks, state.prev, e));
      assert ItemsMatch();
    }

    /** Scales a point that is recorded at the cell. */
    method ScalePoint(c: Cell, pk: PointKey) returns (hi: Option<real>)
      requires Consistent()
      modifies this`state, items
      ensures Consistent() && state == old(state).(stacks := ScaleOne(old(state.stacks), c, pk))
      ensures hi == var st := old(state.stacks);
                    if c in st && pk in st[c].points then Some(ToPercent(st[c].points[pk], st[c].total).hi) else None
    {
      hi := None;
      if c in stacks && pk in stacks[c].points {
        var y := stacks[c].Scale(pk);
        hi := Some(y);
        state := state.(stacks := ScaleOne(state.stacks, c, pk));
        assert ItemsMatch();
      }
    }

    ghost predicate SeriesAre(data: seq<SeriesData>)
      reads this`series, series`visible, series`stacking, series`threshold, series`stackKey,
            series`processedXData, series`processedYData
    {
      |series| == |data| && forall i :: 0 <= i < |data| ==> series[i].Data() == data[i]
    }

    method StackNext(j: nat, ghost data: seq<SeriesData>)
      requires Consistent() && SeriesAre(data) && j < |data| && data[j].Valid()
      modifies this`stacks, this`oldStacks, this`usePercentage, this`items, this`state, items, series`stackedYData
      ensures Consistent() && fresh(items - old(items)) && SeriesAre(data)
      ensures state == StackSeries(old(state), data[j], ignoreHiddenSeries)
      ensures OldDropped(old(stacks), old(oldStacks))
      ensures usePercentage ==
              (old(usePercentage) || (data[j].Active(ignoreHiddenSeries) && data[j].stacking == Percent))
    {
      assert series[j].Data() == data[j];
      series[j].SetStackedPoints(this);
    }

    /** The given series, in this order, have been stacked on `before`. */
    ghost predicate Stacked(before: AxisState, order: seq<SeriesData>)
      requires AllValid(order)
      reads this
    {
      var done :=
        && state == StackAll(before, order, ignoreHiddenSeries)
        && usePercentage == UsePercentage(order, ignoreHiddenSeries);
      done
    }

    /** The first k series of the order have been stacked on `before`, and the objects hold the values. */
    ghost predicate InOrder(data: seq<SeriesData>, order: seq<SeriesData>, k: nat, before: AxisState,
                            start: map<Cell, StackItem>, oldStart: map<Cell, StackItem>)
      requires AllValid(order) && k <= |order|
      reads this, items, series`visible, series`stacking, series`threshold, series`stackKey,
            series`processedXData, series`processedYData
    {
      var inOrder :=
        Consistent() && SeriesAre(data) && Stacked(before, order[..k]) && OldDropped(start, oldStart);
      inOrder
    }

    /** One iteration of the first loop of buildStacks: series j is the k-th to be stacked. */
    method StackStep(j: nat, ghost data: seq<SeriesData>, ghost order: seq<SeriesData>, ghost k: nat,
                     ghost before: AxisState, ghost start: map<Cell, StackItem>, ghost oldStart: map<Cell, StackItem>)
      requires AllValid(order) && k < |order| && j < |data| && order[k] == data[j]
      requires InOrder(data, order, k, before, start, oldStart)
      modifies this`stacks, this`oldStacks, this`usePercentage, this`items, this`state, items, series`stackedYData
      ensures fresh(items - old(items)) && InOrder(data, order, k + 1, before, start, oldStart)
    {
      StackAllStep(before, order, ignoreHiddenSeries, k);
      StackNext(j, data);
    }

    /** The first loop of buildStacks. */
    method StackSeriesInOrder(ghost data: seq<SeriesData>)
      requires Consistent() && SeriesAre(data) && AllValid(data)
      modifies this`stacks, this`oldStacks, this`usePercentage, this`items, this`state, items, series`stackedYData
      ensures Consistent() && fresh(items - old(items)) && SeriesAre(data)
      ensures Stacked(old(state), BuildOrder(data, reversedStacks))
      ensures OldDropped(old(stacks), old(oldStacks))
    {
      usePercentage := false;
      var i := |series|;
      ghost var order, k, before := BuildOrder(data, reversedStacks), 0, state;
      ghost var start, oldStart := stacks, oldStacks;
      assert AllValid(order);
      while i > 0
        invariant 0 <= i <= |order| == |series| == |data| && k == |order| - i
        invariant fresh(items - old(items)) && InOrder(data, order, k, before, start, oldStart)
      {
        i := i - 1;
        StackStep(if reversedStacks then i else |series| - i - 1, data, order, k, before, start, oldStart);
        k := k + 1;
      }
      assert order[..k] == order;
    }

    /** The second loop of buildStacks. */
    method PercentSeriesInOrder(ghost data: seq<SeriesData>)
      requires Consistent() && SeriesAre(data) && AllValid(data)
      modifies this`state, items, series`stackedYData
      ensures Consistent() && SeriesAre(data)
      ensures state == old(state).(stacks := PercentAll(old(state.stacks), data))
    {
      ghost var before := state;
      for i := 0 to |series|
        invariant Consistent() && SeriesAre(data)
        invariant state == before.(stacks := PercentAll(before.stacks, data[..i]))
      {
        assert data[..i + 1][..i] == data[..i];
        assert series[i].Data() == data[i];
        series[i].SetPercentStacks(this);
      }
      assert data[..|series|] == data;
    }

    method BuildStacks(ghost data: seq<SeriesData>)
      requires Consistent() && SeriesAre(data) && AllValid(data)
      modifies this`stacks, this`oldStacks, this`usePercentage, this`items, this`state, items, series`stackedYData
      ensures Consistent() && fresh(items - old(items)) && SeriesAre(data)
      ensures state == Stacks.BuildStacks(old(state), data, Options(reversedStacks, ignoreHiddenSeries))
      ensures OldDropped(old(stacks), old(oldStacks))
    {
      StackSeriesInOrder(data);
      UsePercentageInOrder(data, reversedStacks, ignoreHiddenSeries);
      if usePercentage {
        PercentSeriesInOrder(data);
      }
    }

    /** The part of chart.getStacks that concerns this axis: both loops. */
    method GetStacks()
      requires Consistent() && Shared()
      modifies this`oldStacks, this`state, series`stackKey
      ensures Consistent() && Shared() && state == Apply(old(state), Op.GetStacks(hasVisibleSeries))
      ensures forall s :: s in series ==>
                s.stackKey == if s.Stacks(ignoreHiddenSeries) then s.Key() else old(s.stackKey)
    {
      if hasVisibleSeries {
        oldStacks := stacks;
        state := state.(prev := state.stacks);
      }
      ComposeKeys();
    }

    /** The second loop of getStacks. */
    method ComposeKeys()
      modifies series`stackKey
      ensures forall s :: s in series ==>
                s.stackKey == if s.Stacks(ignoreHiddenSeries) then s.Key() else old(s.stackKey)
    {
      for i := 0 to |series|
        invariant forall s :: s in series[..i] ==>
                    s.stackKey == if s.Stacks(ignoreHiddenSeries) then s.Key() else old(s.stackKey)
        invariant forall s :: s in series && s !in series[..i] ==> s.stackKey == old(s.stackKey)
      {
        if series[i].Stacks(ignoreHiddenSeries) {
          series[i].stackKey := series[i].Key();
        }
        assert forall s :: s in series[..i + 1] <==> s in series[..i] || s == series[i];
      }
      assert series[..|series|] == series;
    }

    /** The loops of setScale over all items, which clear them or set each sum to its total. */
    method UpdateItems(clear: bool)
      requires forall c :: c in stacks ==> stacks[c].cell == c
      modifies stacks.Values
      ensures forall c :: c in stacks ==>
                var was := old(stacks[c].View());
                stacks[c].View() == if clear then was.(total := 0.0, cum := 0.0) else was.(cum := was.total)
    {
      var todo := stacks.Keys;
      while todo != {}
        invariant todo <= stacks.Keys
        invariant forall c :: c in todo ==> stacks[c].View() == old(stacks[c].View())
        invariant forall c :: c in stacks && c !in todo ==>
                    var was := old(stacks[c].View());
                    stacks[c].View() == if clear then was.(total := 0.0, cum := 0.0) else was.(cum := was.total)
        decreases |todo|
      {
        var c :| c in todo;
        todo := todo - {c};
        if clear {
          stacks[c].total, stacks[c].cum := 0.0, 0.0;
        } else {
          stacks[c].cum := stacks[c].total;
        }
      }
    }

    /** The reset of all stacks at the start of setScale. */
    method ResetStacks()
      requires Consistent() && Shared()
      modifies this`state, items
      ensures Consistent() && Shared()
      ensures state == AxisState(Cleared(old(state.stacks)), Cleared(old(state.prev)))
    {
      UpdateItems(true);
      state := AxisState(Cleared(state.stacks), Cleared(state.prev));
      assert ItemsMatch();
    }

    /** The other branch: the old stacks come back, each with its sum set to its total. */
    method RestoreStacks()
      requires Consistent() && Shared()
      modifies this`stacks, this`state, items
      ensures Consistent() && Shared()
      ensures state == AxisState(Refilled(old(state.prev)), Refilled(old(state.prev)))
    {
      stacks := oldStacks;
      UpdateItems(false);
      state := AxisState(Refilled(state.prev), Refilled(state.prev));
      assert ItemsMatch();
    }

    /** The stack part of setScale; whether there is new data, or a new size, is its argument. */
    method SetScale(dirty: bool, ghost data: seq<SeriesData>)
      requires Consistent() && Shared() && SeriesAre(data) && AllValid(data) && DistinctIndexes(data)
      modifies this`stacks, this`oldStacks, this`usePercentage, this`items, this`state, items, series`stackedYData
      ensures Consistent() && Shared() && fresh(items - old(items))
      ensures state == Apply(old(state), Op.SetScale(dirty, data, Options(reversedStacks, ignoreHiddenSeries)))
    {
      if dirty {
        assert OldIsCurrent(state);
        ApplyKeepsOldCurrent(state, Op.SetScale(dirty, data, Options(reversedStacks, ignoreHiddenSeries)));
        ResetStacks();
        BuildStacks(data);
      } else {
        RestoreStacks();
      }
    }
  }

  class Series {
    const index: nat
    const kind: string            // the type of the series
    const negStacks: bool
    var stack: Option<string>     // the `stack` option
    var visible: bool
    var stacking: Stacking
    var threshold: JsNumber
    var stackKey: string
    var processedXData: seq<real>
    var processedYData: seq<JsNumber>
    var stackedYData: map<nat, real>

    function Data(): SeriesData
      reads this`visible, this`stacking, this`threshold, this`stackKey, this`processedXData, this`processedYData
    {
      SeriesData(index, stackKey, stacking, visible, negStacks, threshold, processedXData, processedYData)
    }

    /** Does getStacks compose the key of this series? */
    predicate Stacks(ignoreHidden: bool)
      reads this`visible, this`stacking
    {
      stacking != Off && (visible || !ignoreHidden)
    }

    /** `series.type + pick(series.options.stack, '')` */
    function Key(): string
      reads this`stack
    {
      kind + if stack.Some? then stack.value else ""
    }

    /** The body of the loop of setStackedPoints. */
    method StackPoint(axis: Axis, i: nat) returns (cum: real)
      requires axis.Consistent() && Data().Valid() && i < |processedXData|
      modifies axis`stacks, axis`items, axis`state, axis.items
      ensures axis.Consistent() && fresh(axis.items - old(axis.items)) && axis.oldStacks == old(axis.oldStacks)
      ensures axis.state ==
              old(axis.state).(stacks := AddEntry(old(axis.state.stacks), old(axis.state.prev), Data().EntryAt(i)))
      ensures cum == axis.state.stacks[Data().EntryAt(i).cell].cum
    {
      var x, y := processedXData[i], processedYData[i];
      var isNegative := negStacks && Less(y, threshold);
      var e := Entry(Cell(isNegative, stackKey, x), PointKey(index, i), y, stacking == Percent, negStacks);
      assert e == Data().EntryAt(i);
      OpenThenAdd(axis.state.stacks, axis.state.prev, e);
      var stack := axis.Open(e.cell);
      cum := axis.AddPoint(stack, e);
    }

    /** The first i points of the series have been stacked on `before`. */
    ghost predicate StackedTo(axis: Axis, before: AxisState, i: nat, stacked: map<nat, real>)
      requires Data().Valid() && Data().Active(axis.ignoreHiddenSeries) && i <= |processedXData|
      reads this, axis, axis.items
    {
      var es := Data().Entries(axis.ignoreHiddenSeries);
      var done :=
        && axis.Consistent()
        && axis.state == before.(stacks := AddEntries(before.stacks, before.prev, es[..i]))
        && stacked == StackedY(before.stacks, before.prev, es[..i]);
      done
    }

    /** One iteration of that loop. */
    method StackPointStep(axis: Axis, i: nat, stacked: map<nat, real>, ghost before: AxisState)
      returns (stacked': map<nat, real>)
      requires Data().Valid() && Data().Active(axis.ignoreHiddenSeries) && i < |processedXData|
      requires StackedTo(axis, before, i, stacked)
      modifies axis`stacks, axis`items, axis`state, axis.items
      ensures fresh(axis.items - old(axis.items)) && axis.oldStacks == old(axis.oldStacks)
      ensures StackedTo(axis, before, i + 1, stacked')
    {
      AddEntriesStep(before.stacks, before.prev, Data().Entries(axis.ignoreHiddenSeries), i);
      var cum := StackPoint(axis, i);
      stacked' := stacked[i := cum];
    }

    /** The loop of setStackedPoints. */
    method StackPoints(axis: Axis) returns (stacked: map<nat, real>)
      requires axis.Consistent() && Data().Valid() && Data().Active(axis.ignoreHiddenSeries)
      modifies axis`stacks, axis`items, axis`state, axis.items
      ensures axis.Consistent() && fresh(axis.items - old(axis.items)) && axis.oldStacks == old(axis.oldStacks)
      ensures var es, before := Data().Entries(axis.ignoreHiddenSeries), old(axis.state);
              && axis.state == before.(stacks := AddEntries(before.stacks, before.prev, es))
              && stacked == StackedY(before.stacks, before.prev, es)
    {
      stacked := map[];
      ghost var es := Data().Entries(axis.ignoreHiddenSeries);
      var i := 0;
      while i < |processedYData|
        invariant 0 <= i <= |processedYData| == |processedXData|
        invariant axis.oldStacks == old(axis.oldStacks) && fresh(axis.items - old(axis.items))
        invariant StackedTo(axis, old(axis.state), i, stacked)
      {
        stacked := StackPointStep(axis, i, stacked, old(axis.state));
        i := i + 1;
      }
      assert es[..i] == es;
    }

    method SetStackedPoints(axis: Axis)
      requires axis.Consistent() && Data().Valid()
      modifies this`stackedYData, axis`stacks, axis`oldStacks, axis`usePercentage, axis`items, axis`state, axis.items
      ensures axis.Consistent() && fresh(axis.items - old(axis.items)) && Data() == old(Data())
      ensures axis.state == StackSeries(old(axis.state), Data(), axis.ignoreHiddenSeries)
      ensures axis.OldDropped(old(axis.stacks), old(axis.oldStacks))
      ensures axis.usePercentage ==
              (old(axis.usePercentage) || (Data().Active(axis.ignoreHiddenSeries) && stacking == Percent))
      ensures stackedYData ==
              if Data().Active(axis.ignoreHiddenSeries)
              then StackedY(old(axis.state.stacks), old(axis.state.prev), Data().Entries(axis.ignoreHiddenSeries))
              else old(stackedYData)
    {
      if stacking == Off || (!visible && axis.ignoreHiddenSeries) {
        return;
      }
      var stacked := StackPoints(axis);
      stackedYData := stacked;
      axis.DropOld(stacking == Percent);
    }

    /** A pass of setPercentStacks has come down to point i. */
    ghost predicate ScaledTo(axis: Axis, before: AxisState, negative: bool, i: nat, stacked: map<nat, real>,
                             y: map<nat, real>)
      requires i <= |processedXData|
      reads this, axis, axis.items
    {
      var done :=
        && axis.Consistent()
        && axis.state == before.(stacks := ScaleDown(before.stacks, Data(), negative, i))
        && y == PercentY(before.stacks, Data(), negative, i, stacked);
      done
    }

    /** The body of the loop of setPercentStacks. */
    method ScaleStep(axis: Axis, negative: bool, i: nat, y: map<nat, real>, ghost before: AxisState,
                     ghost stacked: map<nat, real>)
      returns (y': map<nat, real>)
      requires i < |processedXData| && ScaledTo(axis, before, negative, i + 1, stacked, y)
      modifies axis`state, axis.items
      ensures ScaledTo(axis, before, negative, i, stacked, y')
    {
      var hi := axis.ScalePoint(Cell(negative, stackKey, processedXData[i]), PointKey(index, i));
      y' := if hi.Some? then y[i := hi.value] else y;
    }

    /** One pass of setPercentStacks, over the positive or the negative stacks. */
    method ScaleSide(axis: Axis, negative: bool, stacked: map<nat, real>) returns (y: map<nat, real>)
      requires axis.Consistent() && Data().Valid()
      modifies axis`state, axis.items
      ensures axis.Consistent()
      ensures axis.state == old(axis.state).(stacks := ScaleDown(old(axis.state.stacks), Data(), negative, 0))
      ensures y == PercentY(old(axis.state.stacks), Data(), negative, 0, stacked)
    {
      var i := |processedXData|;
      y := stacked;
      while i > 0
        invariant 0 <= i <= |processedXData|
        invariant ScaledTo(axis, old(axis.state), negative, i, stacked, y)
      {
        i := i - 1;
        y := ScaleStep(axis, negative, i, y, old(axis.state), stacked);
      }
    }

    method SetPercentStacks(axis: Axis)
      requires axis.Consistent() && Data().Valid()
      modifies this`stackedYData, axis`state, axis.items
      ensures axis.Consistent() && Data() == old(Data())
      ensures axis.state == old(axis.state).(stacks := PercentSeries(old(axis.state.stacks), Data()))
      ensures var st, s := old(axis.state.stacks), Data();
              var y := PercentY(st, s, false, 0, old(stackedYData));
              stackedYData == PercentY(ScaleDown(st, s, false, 0), s, true, 0, y)
    {
      var y := ScaleSide(axis, false, stackedYData);
      y := ScaleSide(axis, true, y);
      stackedYData := y;
    }
  }

  /** Series of one type with different stack options never share a stack, at any points; with the same they do. */
  lemma {:induction false} OptionSeparates(s: Series, t: Series, x: real, y: JsNumber, y': JsNumber)
    requires s.kind == t.kind && s.stackKey == s.Key() && t.stackKey == t.Key()
    requires s.stack.Some? && t.stack.Some?
    ensures s.stack != t.stack ==> s.Data().CellOf(x, y) != t.Data().CellOf(x, y')
    ensures s.stack == t.stack ==> s.stackKey == t.stackKey
  {
    assert s.Key()[|s.kind|..] == s.stack.value && t.Key()[|t.kind|..] == t.stack.value;
  }

  lemma {:induction false} StackAllStep(a: AxisState, order: seq<SeriesData>, ignoreHidden: bool, k: nat)
    requires AllValid(order) && k < |order|
    ensures StackAll(a, order[..k + 1], ignoreHidden) ==
            StackSeries(StackAll(a, order[..k], ignoreHidden), order[k], ignoreHidden)
    ensures UsePercentage(order[..k + 1], ignoreHidden) ==
            (UsePercentage(order[..k], ignoreHidden) || (order[k].Active(ignoreHidden) && order[k].stacking == Percent))
  {
    assert order[..k + 1][..k] == order[..k];
  }

  lemma {:induction false} OpenThenAdd(st: StackMap, prev: StackMap, e: Entry)
    ensures AddEntry(st[e.cell := Opened(st, prev, e.cell)], prev, e) == AddEntry(st, prev, e)
  {
  }

  lemma {:induction false} AddEntriesStep(st: StackMap, prev: StackMap, es: seq<Entry>, i: nat)
    requires i < |es|
    ensures StackedY(st, prev, es[..i + 1]) ==
            StackedY(st, prev, es[..i])[i := AddEntry(AddEntries(st, prev, es[..i]), prev, es[i])[es[i].cell].cum]
    ensures AddEntries(st, prev, es[..i + 1]) == AddEntry(AddEntries(st, prev, es[..i]), prev, es[i])
  {
    assert es[..i + 1][..i] == es[..i];
  }
}
