/**
 How column series share a category: the column that each series gets, and the width and offset
 of its columns.
 */
module ColumnGrouping {
  import opened JsValues

  /** What `getColumnMetrics` looks at in another series. */
  datatype Traits = Traits(kind: string, visible: bool, yLen: real, yPos: real, stacked: bool, grouped: bool,
                           stackKey: string)

  /** Column series of the same type on y axes that lie in the same place. */
  predicate Matches(self: Traits, other: Traits) {
    other.kind == self.kind && other.visible && self.yLen == other.yLen && self.yPos == other.yPos
  }

  /** The local variables of the loop; `column` keeps its value when a series gets no new one. */
  datatype Counter = Counter(groups: map<string, nat>, count: nat, column: Option<nat>)

  function Advance(k: Counter, other: Traits): Counter {
    if other.stacked then
      if other.stackKey in k.groups then k.(column := Some(k.groups[other.stackKey]))
      else Counter(k.groups[other.stackKey := k.count], k.count + 1, Some(k.count))
    else if other.grouped then Counter(k.groups, k.count + 1, Some(k.count))
    else k
  }

  function CounterAfter(self: Traits, all: seq<Traits>): Counter {
    if all == [] then Counter(map[], 0, None)
    else
      var k := CounterAfter(self, all[..|all| - 1]);
      if Matches(self, all[|all| - 1]) then Advance(k, all[|all| - 1]) else k
  }

  /** The column of series i. */
  function ColumnOf(self: Traits, all: seq<Traits>, i: nat): Option<nat>
    requires i < |all|
  {
    CounterAfter(self, all[..i + 1]).column
  }

  class Series {
    const traits: Traits
    var columnIndex: Option<nat>

    constructor (traits: Traits)
      ensures this.traits == traits && columnIndex == None
    {
      this.traits, columnIndex := traits, None;
    }
  }

  function TraitsOf(all: seq<Series>): (r: seq<Traits>)
    ensures |r| == |all|
  {
    seq(|all|, i requires 0 <= i < |all| => all[i].traits)
  }

  /** The loop over all series of the chart. */
  method AssignColumns(self: Series, all: seq<Series>) returns (columnCount: nat)
    requires forall i, j :: 0 <= i < j < |all| ==> all[i] != all[j]
    modifies all
    ensures columnCount == CounterAfter(self.traits, TraitsOf(all)).count
    ensures forall i :: 0 <= i < |all| ==>
              all[i].columnIndex ==
              if Matches(self.traits, all[i].traits) then ColumnOf(self.traits, TraitsOf(all), i)
              else old(all[i].columnIndex)
  {
    ghost var traits := TraitsOf(all);
    var stackGroups: map<string, nat> := map[];
    var columnIndex: Option<nat> := None;
    columnCount := 0;
    for i := 0 to |all|
      invariant Counter(stackGroups, columnCount, columnIndex) == CounterAfter(self.traits, traits[..i])
      invariant forall k :: i <= k < |all| ==> all[k].columnIndex == old(all[k].columnIndex)
      invariant forall k :: 0 <= k < i ==>
                  all[k].columnIndex ==
                  if Matches(self.traits, traits[k]) then ColumnOf(self.traits, traits, k) else old(all[k].columnIndex)
    {
      assert traits[..i + 1][..i] == traits[..i];
      var other := all[i].traits;
      if Matches(self.traits, other) {
        if other.stacked {
          if other.stackKey !in stackGroups {
            stackGroups := stackGroups[other.stackKey := columnCount];
            columnCount := columnCount + 1;
          }
          columnIndex := Some(stackGroups[other.stackKey]);
        } else if other.grouped {
          columnIndex := Some(columnCount);
          columnCount := columnCount + 1;
        }
        all[i].columnIndex := columnIndex;
      }
    }
    assert traits[..|all|] == traits;
  }

  // ---------- Who shares a column ----------

  /** A series of another type, a hidden one, and one whose y axis lies elsewhere take no column and change none. */
  lemma {:induction false} StrangersTakeNone(self: Traits, before: seq<Traits>, other: Traits, after: seq<Traits>)
    requires other.kind != self.kind || !other.visible || other.yLen != self.yLen || other.yPos != self.yPos
    ensures CounterAfter(self, before + [other] + after) == CounterAfter(self, before + after)
    ensures !Matches(self, other)
  {
    if after == [] {
      assert (before + [other] + after)[..|before|] == before && before + after == before;
    } else {
      var n := |after| - 1;
      StrangersTakeNone(self, before, other, after[..n]);
      assert (before + [other] + after)[..|before| + 1 + n] == before + [other] + after[..n];
      assert (before + after)[..|before| + n] == before + after[..n];
    }
  }

  /** A visible series of the type, with its y axis in the same place, takes one unless it opts out unstacked. */
  lemma {:induction false} OwnKindTakes(self: Traits, other: Traits)
    requires other.kind == self.kind && other.visible && other.yLen == self.yLen && other.yPos == self.yPos
    ensures CounterAfter(self, [other]).count == if other.stacked || other.grouped then 1 else 0
  {
    assert [other][..0] == [];
  }

  /** A matching series that gets a column of its own or that of its stack, and not just the last one given. */
  predicate Takes(self: Traits, other: Traits) {
    Matches(self, other) && (other.stacked || other.grouped)
  }

  predicate Together(a: Traits, b: Traits) {
    a.stacked && b.stacked && a.stackKey == b.stackKey
  }

  /** The counter knows the column of every stack key that occurred, and no other key. */
  lemma {:induction false} GroupsKnown(self: Traits, all: seq<Traits>, i: nat)
    requires i < |all| && Takes(self, all[i])
    ensures var k, c := CounterAfter(self, all), ColumnOf(self, all, i);
            && c.Some? && c.value < k.count
            && (all[i].stacked ==> all[i].stackKey in k.groups && k.groups[all[i].stackKey] == c.value)
    decreases |all|
  {
    var n := |all| - 1;
    if i == n {
      assert all[..i + 1] == all;
    } else {
      assert all[..n][i] == all[i] && all[..n][..i + 1] == all[..i + 1];
      GroupsKnown(self, all[..n], i);
    }
    GroupsBounded(self, all);
  }

  predicate Bounded(k: Counter) {
    forall key :: key in k.groups ==> k.groups[key] < k.count
  }

  lemma {:induction false} GroupsBounded(self: Traits, all: seq<Traits>)
    ensures Bounded(CounterAfter(self, all))
  {
    if all != [] {
      GroupsBounded(self, all[..|all| - 1]);
    }
  }

  /** A stack key is known only from a matching stacked series. */
  lemma {:induction false} GroupsOrigin(self: Traits, all: seq<Traits>, key: string) returns (i: nat)
    requires key in CounterAfter(self, all).groups
    ensures i < |all| && Matches(self, all[i]) && all[i].stacked && all[i].stackKey == key
    ensures ColumnOf(self, all, i) == Some(CounterAfter(self, all).groups[key])
  {
    var n := |all| - 1;
    if key in CounterAfter(self, all[..n]).groups {
      i := GroupsOrigin(self, all[..n], key);
      assert all[..n][..i + 1] == all[..i + 1];
    } else {
      i := n;
      assert all[..n + 1] == all;
    }
  }

  lemma {:induction false} ColumnOfPrefix(self: Traits, all: seq<Traits>, n: nat, i: nat)
    requires i < n <= |all|
    ensures ColumnOf(self, all[..n], i) == ColumnOf(self, all, i)
  {
    assert all[..n][..i + 1] == all[..i + 1];
  }

  lemma {:induction false} TakersShare(self: Traits, all: seq<Traits>, i: nat, j: nat)
    requires i < j < |all| && Takes(self, all[i]) && Takes(self, all[j])
    ensures ColumnOf(self, all, i) == ColumnOf(self, all, j) <==> Together(all[i], all[j])
    decreases j
  {
    var before := all[..j];
    var k := CounterAfter(self, before);
    assert all[..j + 1][..j] == before;
    GroupsKnown(self, before, i);
    ColumnOfPrefix(self, all, j, i);
    if all[j].stacked && all[j].stackKey in k.groups {
      var o := GroupsOrigin(self, before, all[j].stackKey);
      ColumnOfPrefix(self, all, j, o);
      if o < i {
        TakersShare(self, all, o, i);
      } else if i < o {
        TakersShare(self, all, i, o);
      }
    }
  }

  /** The last series up to i that takes a column. */
  function Taker(self: Traits, all: seq<Traits>, i: nat): (t: Option<nat>)
    requires i < |all|
    ensures t.Some? ==> t.value <= i && Takes(self, all[t.value])
    ensures forall j :: (if t.Some? then t.value < j else 0 <= j) && j <= i ==> !Takes(self, all[j])
  {
    if Takes(self, all[i]) then Some(i) else if i == 0 then None else Taker(self, all, i - 1)
  }

  /** A series with `grouping: false` that is not stacked repeats the column that was given last. */
  lemma {:induction false} ColumnOfTaker(self: Traits, all: seq<Traits>, i: nat)
    requires i < |all|
    ensures var t := Taker(self, all, i);
            ColumnOf(self, all, i) == if t.Some? then ColumnOf(self, all, t.value) else None
  {
    var before := all[..i];
    assert all[..i + 1][..i] == before;
    if !Takes(self, all[i]) {
      assert CounterAfter(self, all[..i + 1]).column == CounterAfter(self, before).column;
      if i > 0 {
        ColumnOfTaker(self, all, i - 1);
      }
    }
  }

  /**
   Two series share a column exactly when they have it from the same series, or from two that are stacked under
   the same key. A series that is grouped or stacked has it from itself.
   */
  lemma {:induction false} SharedColumn(self: Traits, all: seq<Traits>, i: nat, j: nat)
    requires i < j < |all| && Matches(self, all[i]) && Matches(self, all[j])
    ensures var s, t := Taker(self, all, i), Taker(self, all, j);
            ColumnOf(self, all, i) == ColumnOf(self, all, j) <==>
            s == t || (s.Some? && t.Some? && Together(all[s.value], all[t.value]))
  {
    ColumnOfTaker(self, all, i);
    ColumnOfTaker(self, all, j);
    var s, t := Taker(self, all, i), Taker(self, all, j);
    if s.Some? {
      GroupsKnown(self, all[..s.value + 1], s.value);
      assert all[..s.value + 1][..s.value + 1] == all[..s.value + 1];
      assert t.Some? && s.value <= t.value;
      if s.value < t.value {
        TakersShare(self, all, s.value, t.value);
      }
    } else if t.Some? {
      GroupsKnown(self, all[..t.value + 1], t.value);
      assert all[..t.value + 1][..t.value + 1] == all[..t.value + 1];
    }
  }

  /** The columns are numbered without a gap. */
  lemma {:induction false} ColumnsUsed(self: Traits, all: seq<Traits>, c: nat) returns (i: nat)
    requires c < CounterAfter(self, all).count
    ensures i < |all| && Takes(self, all[i]) && ColumnOf(self, all, i) == Some(c)
  {
    var n := |all| - 1;
    if c < CounterAfter(self, all[..n]).count {
      i := ColumnsUsed(self, all[..n], c);
      ColumnOfPrefix(self, all, n, i);
    } else {
      i := n;
      assert all[..n + 1] == all;
    }
  }

  predicate SomeTakes(self: Traits, all: seq<Traits>) {
    exists i :: 0 <= i < |all| && Takes(self, all[i])
  }

  /** There is a column exactly when some matching series takes one. */
  lemma {:induction false} ColumnsExist(self: Traits, all: seq<Traits>)
    ensures CounterAfter(self, all).count > 0 <==> SomeTakes(self, all)
  {
    if CounterAfter(self, all).count > 0 {
      var i := ColumnsUsed(self, all, 0);
    }
    if i :| 0 <= i < |all| && Takes(self, all[i]) {
      GroupsKnown(self, all, i);
    }
  }

  /** A hidden column series that is alone has no column. */
  lemma {:induction false} HiddenAlone(self: Traits)
    requires !self.visible
    ensures CounterAfter(self, [self]).count == 0 && !SomeTakes(self, [self])
  {
    assert [self][..0] == [];
  }

  // ---------- Width and offset ----------

  /** The options and the axis of a series, as far as its columns depend on them. */
  datatype Layout = Layout(
    categoryWidth: real, groupPadding: real, pointPadding: real, pointWidth: Option<real>, reversed: bool)

  datatype Metrics = Metrics(width: real, offset: real)

  /** What the group padding leaves of the category for all columns. */
  function GroupWidth(l: Layout): real {
    l.categoryWidth - 2.0 * (l.categoryWidth * l.groupPadding)
  }

  /** The width of one column with its padding. */
  function Slot(l: Layout, columnCount: nat): real
    requires columnCount > 0
  {
    GroupWidth(l) / columnCount as real
  }

  function ColumnMetrics(l: Layout, columnIndex: Option<nat>, columnCount: nat): Metrics
    requires columnCount > 0
  {
    var groupPadding := l.categoryWidth * l.groupPadding;
    var slot := Slot(l, columnCount);
    var pointPadding := if l.pointWidth.Some? then (slot - l.pointWidth.value) / 2.0 else slot * l.pointPadding;
    var width := if l.pointWidth.Some? then l.pointWidth.value else slot - 2.0 * pointPadding;
    var index := if columnIndex.Some? then columnIndex.value else 0;
    var colIndex := if l.reversed then columnCount - index else index;
    var shift := groupPadding + colIndex as real * slot - l.categoryWidth / 2.0;
    Metrics(width, pointPadding + shift * if l.reversed then -1.0 else 1.0)
  }

  /**
   The whole operation: count the columns, record each series' own, and measure them. Hidden series are measured
   as well. None stands for metrics that are not finite: when no series takes a column, the source divides by 0.
   */
  method GetColumnMetrics(self: Series, all: seq<Series>, l: Layout) returns (m: Option<Metrics>)
    requires forall i, j :: 0 <= i < j < |all| ==> all[i] != all[j]
    requires self in all
    modifies all
    ensures !self.traits.grouped ==>
              && (forall s :: s in all ==> s.columnIndex == old(s.columnIndex))
              && m == Some(ColumnMetrics(l, self.columnIndex, 1))
    ensures self.traits.grouped ==>
              forall i :: 0 <= i < |all| ==>
                all[i].columnIndex ==
                if Matches(self.traits, all[i].traits) then ColumnOf(self.traits, TraitsOf(all), i)
                else old(all[i].columnIndex)
    ensures self.traits.grouped ==>
              var count := CounterAfter(self.traits, TraitsOf(all)).count;
              && (count > 0 <==> SomeTakes(self.traits, TraitsOf(all)))
              && m == if count > 0 then Some(ColumnMetrics(l, self.columnIndex, count)) else None
    ensures self.traits.visible ==> m.Some?
  {
    var columnCount := 1;
    if self.traits.grouped {
      columnCount := AssignColumns(self, all);
      ColumnsExist(self.traits, TraitsOf(all));
      ghost var i :| 0 <= i < |all| && all[i] == self;
      assert TraitsOf(all)[i] == self.traits;
    }
    m := if columnCount > 0 then Some(ColumnMetrics(l, self.columnIndex, columnCount)) else None;
  }

  /** The slot, the slots before column i and all slots together, with all that is needed of products. */
  lemma {:induction false} Geometry(l: Layout, i: nat, n: nat) returns (slot: real, before: real, whole: real)
    requires i < n
    ensures slot == Slot(l, n) && before == i as real * slot && whole == n as real * slot
    ensures whole == GroupWidth(l)
    ensures (n - i) as real * slot == whole - before
  {
    slot := Slot(l, n);
    before, whole := i as real * slot, n as real * slot;
    assert (n - i) as real == n as real - i as real;
  }

  /** The left edge of column i: the columns are centred in the category, on any axis. */
  lemma {:induction false} OffsetIs(l: Layout, i: nat, n: nat) returns (slot: real, before: real, whole: real)
    requires i < n
    ensures slot == Slot(l, n) && before == i as real * slot && whole == n as real * slot
    ensures whole == GroupWidth(l)
    ensures var m := ColumnMetrics(l, Some(i), n); m.offset == (slot - m.width) / 2.0 + before - whole / 2.0
  {
    slot, before, whole := Geometry(l, i, n);
  }

  /** Reversed and normal axes give the same columns. */
  lemma {:induction false} ReversedAxis(l: Layout, i: nat, n: nat)
    requires i < n
    ensures ColumnMetrics(l.(reversed := true), Some(i), n) == ColumnMetrics(l.(reversed := false), Some(i), n)
  {
    var a, b, c := OffsetIs(l.(reversed := true), i, n);
    var a', b', c' := OffsetIs(l.(reversed := false), i, n);
  }

  // ---------- Two series side by side ----------

  // Group padding, point padding and width are options of each series; the number of columns is common.

  lemma {:induction false} EdgeAlgebra(n: real, slot: real, width: real, i: real, group: real, offset: real)
    requires n * slot == group && offset == (slot - width) / 2.0 + i * slot - group / 2.0
    ensures 2.0 * n * offset + n * width == group * (2.0 * i + 1.0 - n)
  {
    assert n * offset == n * ((slot - width) / 2.0) + n * (i * slot) - n * (group / 2.0);
    assert n * (i * slot) == i * (n * slot);
    assert n * ((slot - width) / 2.0) == (n * slot - n * width) / 2.0;
  }

  /** The middle of column i does not depend on its width and its padding, nor on the direction of the axis. */
  lemma {:induction false} Middle(l: Layout, i: nat, n: nat)
    requires i < n
    ensures var m := ColumnMetrics(l, Some(i), n);
            2.0 * n as real * m.offset + n as real * m.width == GroupWidth(l) * (2 * i + 1 - n) as real
    ensures l.pointWidth.None? ==>
              n as real * ColumnMetrics(l, Some(i), n).width == GroupWidth(l) * (1.0 - 2.0 * l.pointPadding)
  {
    var slot, before, whole := OffsetIs(l, i, n);
    var m := ColumnMetrics(l, Some(i), n);
    EdgeAlgebra(n as real, slot, m.width, i as real, whole, m.offset);
    assert (2 * i + 1 - n) as real == 2.0 * i as real + 1.0 - n as real;
    if l.pointWidth.None? {
      assert n as real * (slot * l.pointPadding) == whole * l.pointPadding;
    }
  }

  /** Column i of a series ends before column j of another one begins. */
  predicate Apart(l: Layout, l': Layout, i: nat, j: nat, n: nat)
    requires n > 0
  {
    var a, b := ColumnMetrics(l, Some(i), n), ColumnMetrics(l', Some(j), n);
    a.offset + a.width <= b.offset
  }

  lemma {:induction false} Compare(n: real, right: real, left: real)
    requires n > 0.0
    ensures right <= left <==> 2.0 * n * right <= 2.0 * n * left
  {
    assert 2.0 * n * left - 2.0 * n * right == 2.0 * n * (left - right);
    if left - right < 0.0 {
      assert 2.0 * n * (left - right) < 0.0;
    } else {
      assert 2.0 * n * (left - right) >= 0.0;
    }
  }

  /** Ends and beginnings, times twice the number of columns. */
  lemma {:induction false} ApartAlgebra(n: real, offset: real, width: real, middle: real, offset': real, width': real,
                                        middle': real)
    requires n > 0.0 && 2.0 * n * offset + n * width == middle && 2.0 * n * offset' + n * width' == middle'
    ensures offset + width <= offset' <==> middle + n * width <= middle' - n * width'
  {
    Compare(n, offset + width, offset');
    assert 2.0 * n * (offset + width) == 2.0 * n * offset + 2.0 * (n * width);
  }

  lemma {:induction false} ApartIff(l: Layout, l': Layout, i: nat, j: nat, n: nat)
    requires i < n && j < n
    ensures var w, w' := ColumnMetrics(l, Some(i), n).width, ColumnMetrics(l', Some(j), n).width;
            Apart(l, l', i, j, n) <==>
            GroupWidth(l) * (2 * i + 1 - n) as real + n as real * w <=
            GroupWidth(l') * (2 * j + 1 - n) as real - n as real * w'
  {
    var a, b := ColumnMetrics(l, Some(i), n), ColumnMetrics(l', Some(j), n);
    Middle(l, i, n);
    Middle(l', j, n);
    ApartAlgebra(n as real, a.offset, a.width, GroupWidth(l) * (2 * i + 1 - n) as real,
                 b.offset, b.width, GroupWidth(l') * (2 * j + 1 - n) as real);
  }

  /** With explicit widths, two columns do not overlap exactly when both halves fit between their middles. */
  lemma {:induction false} ExplicitWidth(l: Layout, l': Layout, i: nat, j: nat, n: nat)
    requires i < n && j < n && l.pointWidth.Some? && l'.pointWidth.Some?
    ensures Apart(l, l', i, j, n) <==>
            n as real * (l.pointWidth.value + l'.pointWidth.value) <=
            GroupWidth(l') * (2 * j + 1 - n) as real - GroupWidth(l) * (2 * i + 1 - n) as real
  {
    ApartIff(l, l', i, j, n);
  }

  lemma {:induction false} PaddedEdges(group: real, middle: int, padding: real)
    ensures group * middle as real + group * (1.0 - 2.0 * padding) == group * ((middle + 1) as real - 2.0 * padding)
    ensures group * middle as real - group * (1.0 - 2.0 * padding) == group * ((middle - 1) as real + 2.0 * padding)
  {
    assert (middle + 1) as real == middle as real + 1.0 && (middle - 1) as real == middle as real - 1.0;
  }

  /** Without explicit widths they do not overlap exactly when the paddings of both series leave room. */
  lemma {:induction false} PaddedWidth(l: Layout, l': Layout, i: nat, j: nat, n: nat)
    requires i < n && j < n && l.pointWidth.None? && l'.pointWidth.None?
    ensures Apart(l, l', i, j, n) <==>
            GroupWidth(l) * ((2 * i + 2 - n) as real - 2.0 * l.pointPadding) <=
            GroupWidth(l') * ((2 * j - n) as real + 2.0 * l'.pointPadding)
  {
    ApartIff(l, l', i, j, n);
    Middle(l, i, n);
    Middle(l', j, n);
    PaddedEdges(GroupWidth(l), 2 * i + 1 - n, l.pointPadding);
    PaddedEdges(GroupWidth(l'), 2 * j + 1 - n, l'.pointPadding);
  }

  predicate Sensible(l: Layout) {
    && l.pointWidth.None? && l.categoryWidth >= 0.0
    && 0.0 <= l.groupPadding <= 0.5 && 0.0 <= l.pointPadding <= 0.5
  }

  /** A nonnegative part of at most a half, taken away twice. */
  lemma {:induction false} TwiceAway(x: real, part: real)
    requires x >= 0.0 && 0.0 <= part <= 0.5
    ensures 0.0 <= x - 2.0 * (x * part) <= x
  {
    assert x - 2.0 * (x * part) == x * (1.0 - 2.0 * part);
  }

  lemma {:induction false} Larger(a: real, b: real, f: real)
    requires a <= b && f >= 0.0
    ensures f * a <= f * b
  {
  }

  lemma {:induction false} FitsAlgebra(n: real, offset: real, width: real, group: real, middle: real, part: real)
    requires n > 0.0 && group >= 0.0 && 0.0 <= part <= 1.0 && 1.0 - n <= middle <= n - 1.0
    requires 2.0 * n * offset + n * width == group * middle && n * width == group * part
    ensures 0.0 <= width && -group / 2.0 <= offset && offset + width <= group / 2.0
  {
    Larger(0.0, part, group);
    Larger(middle + part, n, group);
    Larger(-n, middle - part, group);
    assert group * (middle + part) == group * middle + group * part;
    assert group * (middle - part) == group * middle - group * part;
    Compare(n, offset + width, group / 2.0);
    Compare(n, -group / 2.0, offset);
    Compare(n, 0.0, width);
  }

  /** With sensible paddings the columns stay within their category. */
  lemma {:induction false} ColumnsFit(l: Layout, i: nat, n: nat)
    requires i < n && Sensible(l)
    ensures var m := ColumnMetrics(l, Some(i), n);
            && 0.0 <= m.width
            && -l.categoryWidth / 2.0 <= m.offset && m.offset + m.width <= l.categoryWidth / 2.0
  {
    var m := ColumnMetrics(l, Some(i), n);
    TwiceAway(l.categoryWidth, l.groupPadding);
    Middle(l, i, n);
    FitsAlgebra(n as real, m.offset, m.width, GroupWidth(l), (2 * i + 1 - n) as real, 1.0 - 2.0 * l.pointPadding);
  }

  /** What point paddings take away only adds to the room between two columns. */
  lemma {:induction false} RoomAlgebra(group: real, group': real, end: real, start: real, p: real, p': real)
    requires group >= 0.0 && group' >= 0.0 && p >= 0.0 && p' >= 0.0 && group * end <= group' * start
    ensures group * (end - 2.0 * p) <= group' * (start + 2.0 * p')
  {
    Larger(end - 2.0 * p, end, group);
    Larger(start, start + 2.0 * p', group');
  }

  /** The group paddings of two series leave room between their slots i and j. */
  predicate SlotsApart(l: Layout, l': Layout, i: nat, j: nat, n: nat) {
    GroupWidth(l) * (2 * i + 2 - n) as real <= GroupWidth(l') * (2 * j - n) as real
  }

  lemma {:induction false} RoomBetween(l: Layout, l': Layout, i: nat, j: nat, n: nat)
    requires i < n && j < n && Sensible(l) && Sensible(l') && SlotsApart(l, l', i, j, n)
    ensures Apart(l, l', i, j, n)
  {
    TwiceAway(l.categoryWidth, l.groupPadding);
    TwiceAway(l'.categoryWidth, l'.groupPadding);
    RoomAlgebra(GroupWidth(l), GroupWidth(l'), (2 * i + 2 - n) as real, (2 * j - n) as real,
                l.pointPadding, l'.pointPadding);
    PaddedWidth(l, l', i, j, n);
  }

  /** Series with the same group width: different columns do not overlap, whatever their point paddings. */
  lemma {:induction false} ColumnsDisjoint(l: Layout, l': Layout, i: nat, j: nat, n: nat)
    requires i < j < n && Sensible(l) && Sensible(l') && GroupWidth(l) == GroupWidth(l')
    ensures Apart(l, l', i, j, n)
  {
    TwiceAway(l.categoryWidth, l.groupPadding);
    Larger((2 * i + 2 - n) as real, (2 * j - n) as real, GroupWidth(l));
    RoomBetween(l, l', i, j, n);
  }

  /** Two sensible series whose columns i and j do not overlap, whatever point paddings they are given. */
  ghost predicate AlwaysApart(l: Layout, l': Layout, i: nat, j: nat, n: nat)
    requires n > 0
  {
    forall p, p' | 0.0 <= p <= 0.5 && 0.0 <= p' <= 0.5 ::
      Apart(l.(pointPadding := p), l'.(pointPadding := p'), i, j, n)
  }

  lemma {:induction false} WithoutPointPadding(l: Layout, l': Layout, i: nat, j: nat, n: nat)
    requires i < n && j < n && Sensible(l) && Sensible(l')
    ensures Apart(l.(pointPadding := 0.0), l'.(pointPadding := 0.0), i, j, n) <==> SlotsApart(l, l', i, j, n)
  {
    PaddedWidth(l.(pointPadding := 0.0), l'.(pointPadding := 0.0), i, j, n);
  }

  /** That is so exactly when the group paddings leave room between the slots themselves. */
  lemma {:induction false} GroupsApart(l: Layout, l': Layout, i: nat, j: nat, n: nat)
    requires i < n && j < n && Sensible(l) && Sensible(l')
    ensures AlwaysApart(l, l', i, j, n) <==> SlotsApart(l, l', i, j, n)
  {
    WithoutPointPadding(l, l', i, j, n);
    forall p, p' | 0.0 <= p <= 0.5 && 0.0 <= p' <= 0.5
      ensures SlotsApart(l, l', i, j, n) ==> Apart(l.(pointPadding := p), l'.(pointPadding := p'), i, j, n)
    {
      if SlotsApart(l, l', i, j, n) {
        RoomBetween(l.(pointPadding := p), l'.(pointPadding := p'), i, j, n);
      }
    }
  }

  /** Two columns that are 6 wide in a category of 10 overlap. */
  lemma {:induction false} WideColumnsOverlap()
    ensures var l := Layout(10.0, 0.0, 0.0, Some(6.0), false); !Apart(l, l, 0, 1, 2)
  {
    var l := Layout(10.0, 0.0, 0.0, Some(6.0), false);
    ExplicitWidth(l, l, 0, 1, 2);
  }

  /** Group paddings of 0.2 and 0 in a category of 30 with three columns: columns 0 and 1 overlap. */
  lemma {:induction false} GroupPaddingsOverlap()
    ensures var l, l' := Layout(30.0, 0.2, 0.0, None, false), Layout(30.0, 0.0, 0.0, None, false);
            Sensible(l) && Sensible(l') && !Apart(l, l', 0, 1, 3)
  {
    var l, l' := Layout(30.0, 0.2, 0.0, None, false), Layout(30.0, 0.0, 0.0, None, false);
    PaddedWidth(l, l', 0, 1, 3);
  }
}
