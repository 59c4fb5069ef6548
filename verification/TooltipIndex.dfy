/**
 The table from pixels to points that `setTooltipPoints` builds for a series. It must answer
 like a search through all points: the nearest one, and the left one when two are equally near.
 */
module TooltipIndex {
  import opened JsValues
  import opened Sequences

  datatype Point = Point(x: real, clientX: real)

  /** The extremes of the x axis and its length in pixels. */
  datatype AxisRange = AxisRange(min: real, max: real, len: nat)

  predicate Inside(p: Point, axis: AxisRange) {
    axis.min <= p.x <= axis.max
  }

  /** Series with a line tooltip have sorted data; on a reversed axis the points are turned over. */
  predicate Sorted(points: seq<Point>, reversed: bool) {
    forall i, j :: 0 <= i < j < |points| ==>
      && points[i].clientX <= points[j].clientX
      && if reversed then points[i].x >= points[j].x else points[i].x <= points[j].x
  }

  /** Points within the extremes lie on the axis. */
  predicate OnAxis(points: seq<Point>, axis: AxisRange) {
    forall i :: 0 <= i < |points| && Inside(points[i], axis) ==> 0.0 <= points[i].clientX <= axis.len as real
  }

  function Concat(segments: seq<seq<Point>>): seq<Point> {
    if segments == [] then [] else Concat(segments[..|segments| - 1]) + segments[|segments| - 1]
  }

  function Points(segments: seq<seq<Point>>, reversed: bool): seq<Point> {
    if reversed then Reverse(Concat(segments)) else Concat(segments)
  }

  // ---------- The points of the segments ----------

  /** Place (s, i) is in the segments, and place (s', i') is a later one. */
  predicate Follows(segments: seq<seq<Point>>, s: nat, i: nat, s': nat, i': nat) {
    && s < |segments| && i < |segments[s]| && s' < |segments| && i' < |segments[s']|
    && (s < s' || (s == s' && i < i'))
  }

  /** The data are sorted; on a reversed axis, pixels run the other way. */
  predicate InOrder(segments: seq<seq<Point>>, reversed: bool) {
    forall s, i, s', i' | 0 <= s <= s' < |segments| && 0 <= i < |segments[s]| && 0 <= i' < |segments[s']| ::
      Follows(segments, s, i, s', i') ==>
        var p, q := segments[s][i], segments[s'][i'];
        p.x <= q.x && if reversed then p.clientX >= q.clientX else p.clientX <= q.clientX
  }

  predicate HasPoint(segments: seq<seq<Point>>, p: Point) {
    exists s, i :: 0 <= s < |segments| && 0 <= i < |segments[s]| && segments[s][i] == p
  }

  lemma {:induction false} ConcatSplit(segments: seq<seq<Point>>, s: nat)
    requires s < |segments|
    ensures |Concat(segments[..s])| + |segments[s]| <= |Concat(segments)|
    ensures forall i :: 0 <= i < |segments[s]| ==>
              Concat(segments)[|Concat(segments[..s])| + i] == segments[s][i]
    decreases |segments|
  {
    var n := |segments| - 1;
    if s < n {
      assert segments[..n][..s] == segments[..s];
      ConcatSplit(segments[..n], s);
    }
  }

  /** Where point k of all points comes from. */
  lemma {:induction false} ConcatSource(segments: seq<seq<Point>>, k: nat) returns (s: nat, i: nat)
    requires k < |Concat(segments)|
    ensures s < |segments| && i < |segments[s]| && Concat(segments)[k] == segments[s][i]
    ensures k == |Concat(segments[..s])| + i
    decreases |segments|
  {
    var n := |segments| - 1;
    var before := Concat(segments[..n]);
    if k < |before| {
      s, i := ConcatSource(segments[..n], k);
      assert segments[..n][..s] == segments[..s];
    } else {
      s, i := n, k - |before|;
    }
  }

  /** No point of any segment is lost, and none is made up. */
  lemma {:induction false} PointsAre(segments: seq<seq<Point>>, reversed: bool, p: Point)
    ensures p in Points(segments, reversed) <==> HasPoint(segments, p)
  {
    var all := Concat(segments);
    assert p in Points(segments, reversed) <==> p in all by {
      assert forall k :: 0 <= k < |all| ==> Reverse(all)[|all| - 1 - k] == all[k];
    }
    if k :| 0 <= k < |all| && all[k] == p {
      var s, i := ConcatSource(segments, k);
    }
    if s, i :| 0 <= s < |segments| && 0 <= i < |segments[s]| && segments[s][i] == p {
      ConcatSplit(segments, s);
      assert all[|Concat(segments[..s])| + i] == p;
    }
  }

  lemma {:induction false} OffsetGrows(segments: seq<seq<Point>>, s: nat, s': nat)
    requires s < s' <= |segments|
    ensures |Concat(segments[..s])| + |segments[s]| <= |Concat(segments[..s'])|
  {
    ConcatSplit(segments[..s'], s);
    assert segments[..s'][..s] == segments[..s];
  }

  /** Sorted segments give sorted points, from left to right, on both kinds of axes. */
  lemma {:induction false} PointsSorted(segments: seq<seq<Point>>, reversed: bool)
    requires InOrder(segments, reversed)
    ensures Sorted(Points(segments, reversed), reversed)
  {
    var all := Concat(segments);
    forall j, k | 0 <= j < k < |all|
      ensures all[j].x <= all[k].x
      ensures if reversed then all[j].clientX >= all[k].clientX else all[j].clientX <= all[k].clientX
    {
      var s, i := ConcatSource(segments, j);
      var s', i' := ConcatSource(segments, k);
      if s' < s {
        OffsetGrows(segments, s', s);
      }
      assert Follows(segments, s, i, s', i');
    }
  }

  /** The last pixel of point i: half way to the next point, kept on the axis. */
  function High(points: seq<Point>, i: nat, len: nat): (h: int)
    requires i < |points|
    ensures 0 <= h <= len
  {
    if i + 1 < |points| then
      var mid := ((points[i].clientX + points[i + 1].clientX) / 2.0).Floor;
      var right := if mid < 0 then 0 else mid;
      if right < len then right else len
    else len
  }

  // ---------- The search ----------

  function Distance(p: Point, pixel: nat): real {
    Abs(pixel as real - p.clientX)
  }

  /** The plain search: walk through the points and keep the nearest so far. */
  function Search(points: seq<Point>, axis: AxisRange, pixel: nat): Option<Point> {
    if points == [] then None
    else
      var best, p := Search(points[..|points| - 1], axis, pixel), points[|points| - 1];
      if !Inside(p, axis) then best
      else if best.None? || Distance(p, pixel) < Distance(best.value, pixel) then Some(p)
      else best
  }

  /** Of the points within the extremes p is nearest, and the leftmost among equally near ones. */
  predicate Nearest(points: seq<Point>, axis: AxisRange, pixel: nat, p: Point) {
    forall j :: 0 <= j < |points| && Inside(points[j], axis) ==>
      && Distance(p, pixel) <= Distance(points[j], pixel)
      && (Distance(p, pixel) == Distance(points[j], pixel) ==> p.clientX <= points[j].clientX)
  }

  /** One more point at the right: it takes over only when it is nearer. */
  lemma {:induction false} NearestStep(points: seq<Point>, axis: AxisRange, pixel: nat, best: Point)
    requires points != [] && Nearest(points[..|points| - 1], axis, pixel, best)
    requires best.clientX <= points[|points| - 1].clientX
    ensures var p := points[|points| - 1];
            Nearest(points, axis, pixel, if Inside(p, axis)
                && Distance(p, pixel) < Distance(best, pixel) then p else best)
  {
    assert forall j :: 0 <= j < |points| - 1 ==> points[..|points| - 1][j] == points[j];
  }

  /** The position of the point that the search finds. */
  lemma {:induction false} FoundAt(points: seq<Point>, reversed: bool, axis: AxisRange, pixel: nat) returns (m: nat)
    requires Sorted(points, reversed) && Search(points, axis, pixel).Some?
    ensures m < |points| && Search(points, axis, pixel) == Some(points[m]) && Inside(points[m], axis)
    ensures Nearest(points, axis, pixel, points[m])
  {
    var n := |points| - 1;
    var best := Search(points[..n], axis, pixel);
    if best.Some? {
      m := FoundAt(points[..n], reversed, axis, pixel);
      assert points[m].clientX <= points[n].clientX;
      NearestStep(points, axis, pixel, points[m]);
      if Inside(points[n], axis) && Distance(points[n], pixel) < Distance(points[m], pixel) {
        m := n;
      }
    } else {
      m := n;
      NoneFound(points[..n], axis, pixel);
      assert forall j :: 0 <= j < n ==> points[..n][j] == points[j];
    }
  }

  lemma {:induction false} NoneFound(points: seq<Point>, axis: AxisRange, pixel: nat)
    ensures Search(points, axis, pixel) == None <==> forall j :: 0 <= j < |points| ==> !Inside(points[j], axis)
  {
    if points != [] {
      var n := |points| - 1;
      NoneFound(points[..n], axis, pixel);
      assert forall j :: 0 <= j < n ==> points[..n][j] == points[j];
    }
  }

  lemma {:induction false} SearchIsNearest(points: seq<Point>, reversed: bool, axis: AxisRange, pixel: nat)
    requires Sorted(points, reversed)
    ensures var best := Search(points, axis, pixel);
            if best.Some?
            then best.value in points && Inside(best.value, axis) && Nearest(points, axis, pixel, best.value)
            else forall j :: 0 <= j < |points| ==> !Inside(points[j], axis)
  {
    NoneFound(points, axis, pixel);
    if Search(points, axis, pixel).Some? {
      var m := FoundAt(points, reversed, axis, pixel);
    }
  }

  // ---------- The table ----------

  /** Pixels after the last pixel of the point before, up to the last one of this point, are its own. */
  lemma {:induction false} OwnPixel(points: seq<Point>, reversed: bool, axis: AxisRange, k: nat, pixel: nat)
    requires Sorted(points, reversed) && OnAxis(points, axis)
    requires k < |points| && Inside(points[k], axis)
    requires k > 0 && Inside(points[k - 1], axis) ==> High(points, k - 1, axis.len) < pixel
    requires pixel <= High(points, k, axis.len)
    ensures Nearest(points, axis, pixel, points[k])
  {
    forall j | 0 <= j < |points| && Inside(points[j], axis)
      ensures Distance(points[k], pixel) <= Distance(points[j], pixel)
      ensures Distance(points[k], pixel) == Distance(points[j], pixel) ==> points[k].clientX <= points[j].clientX
    {
      if j < k {
        assert Inside(points[k - 1], axis);
        assert points[j].clientX <= points[k - 1].clientX <= points[k].clientX;
      } else if j > k {
        assert points[k].clientX <= points[k + 1].clientX <= points[j].clientX;
      }
    }
  }

  /** Points within the extremes follow each other, and so do their last pixels. */
  lemma {:induction false} HighGrows(points: seq<Point>, reversed: bool, axis: AxisRange, last: int, i: nat)
    requires Sorted(points, reversed) && -1 <= last < i < |points| && Inside(points[i], axis)
    requires last >= 0 ==> Inside(points[last], axis)
    requires forall j :: last < j < i ==> !Inside(points[j], axis)
    ensures last >= 0 ==> last == i - 1 && High(points, last, axis.len) <= High(points, i, axis.len)
  {
    if 0 <= last < i - 1 {
      assert Inside(points[i - 1], axis);
    }
  }

  /** The last point within the extremes, or -1. */
  function LastInside(points: seq<Point>, axis: AxisRange): (k: int)
    ensures -1 <= k < |points|
    ensures k >= 0 ==> Inside(points[k], axis)
    ensures forall j :: k < j < |points| ==> !Inside(points[j], axis)
  {
    if points == [] then -1
    else if Inside(points[|points| - 1], axis) then |points| - 1
    else LastInside(points[..|points| - 1], axis)
  }

  /** Every entry of the table is a point within the extremes that is nearest to its pixel. */
  predicate Answers(points: seq<Point>, axis: AxisRange, table: seq<Point>) {
    forall q :: 0 <= q < |table| ==>
      table[q] in points && Inside(table[q], axis) && Nearest(points, axis, q, table[q])
  }

  /** Further right, the nearest point is not further left. */
  lemma {:induction false} NearestGrows(points: seq<Point>, axis: AxisRange, q: nat, r: nat, p: Point, p': Point)
    requires q < r && p in points && p' in points && Inside(p, axis) && Inside(p', axis)
    requires Nearest(points, axis, q, p) && Nearest(points, axis, r, p')
    ensures p.clientX <= p'.clientX
  {
    var i :| 0 <= i < |points| && points[i] == p;
    var j :| 0 <= j < |points| && points[j] == p';
  }

  /** The first loop of setTooltipPoints, and the reversal. */
  method CollectPoints(segments: seq<seq<Point>>, reversed: bool) returns (points: seq<Point>)
    ensures points == Points(segments, reversed)
  {
    points := [];
    for s := 0 to |segments|
      invariant points == Concat(segments[..s])
    {
      assert segments[..s + 1][..s] == segments[..s];
      points := points + segments[s];
    }
    assert segments[..|segments|] == segments;
    if reversed {
      points := Reverse(points);
    }
  }

  /** The inner loop: point i takes the pixels from the first free one up to its last. */
  method AssignPixels(points: seq<Point>, reversed: bool, axis: AxisRange, i: nat, taken: seq<Point>)
    returns (table: seq<Point>)
    requires Sorted(points, reversed) && OnAxis(points, axis) && i < |points| && Inside(points[i], axis)
    requires Answers(points, axis, taken) && |taken| <= High(points, i, axis.len) + 1
    requires i > 0 && Inside(points[i - 1], axis) ==> |taken| == High(points, i - 1, axis.len) + 1
    ensures Answers(points, axis, table) && |table| == High(points, i, axis.len) + 1
  {
    table := taken;
    var low, high := |taken|, High(points, i, axis.len);
    while low <= high
      invariant |taken| <= |table| == low <= high + 1
      invariant Answers(points, axis, table)
    {
      OwnPixel(points, reversed, axis, i, low);
      table := table + [points[i]];
      low := low + 1;
    }
  }

  /** The points within the extremes lie on the axis. */
  predicate SegmentsOnAxis(segments: seq<seq<Point>>, axis: AxisRange) {
    forall s, i :: 0 <= s < |segments| && 0 <= i < |segments[s]| && axis.min <= segments[s][i].x <= axis.max ==>
      0.0 <= segments[s][i].clientX <= axis.len as real
  }

  /** The entry is a point of the segments within the extremes, and no other such point is nearer to its pixel. */
  predicate EntryOf(segments: seq<seq<Point>>, axis: AxisRange, pixel: nat, p: Point) {
    && HasPoint(segments, p) && axis.min <= p.x <= axis.max
    && forall s, i :: 0 <= s < |segments| && 0 <= i < |segments[s]| && axis.min <= segments[s][i].x <= axis.max ==>
         && Distance(p, pixel) <= Distance(segments[s][i], pixel)
         && (Distance(p, pixel) == Distance(segments[s][i], pixel) ==> p.clientX <= segments[s][i].clientX)
  }

  /** The point lies outside the extremes, at the right end of the axis. */
  predicate Beyond(p: Point, reversed: bool, axis: AxisRange) {
    if reversed then p.x < axis.min else p.x > axis.max
  }

  /** The middle between p and each point beyond the right end is not on the axis. */
  predicate FarFromBeyond(segments: seq<seq<Point>>, reversed: bool, axis: AxisRange, p: Point) {
    forall s, i :: 0 <= s < |segments| && 0 <= i < |segments[s]| && Beyond(segments[s][i], reversed, axis) ==>
      p.clientX + segments[s][i].clientX >= 2.0 * axis.len as real
  }

  /** Some point within the extremes takes all pixels to the end of the axis. */
  predicate Covered(segments: seq<seq<Point>>, reversed: bool, axis: AxisRange) {
    exists s, i :: 0 <= s < |segments| && 0 <= i < |segments[s]|
      && axis.min <= segments[s][i].x <= axis.max && FarFromBeyond(segments, reversed, axis, segments[s][i])
  }

  lemma {:induction false} PointsOnAxis(segments: seq<seq<Point>>, reversed: bool, axis: AxisRange)
    requires SegmentsOnAxis(segments, axis)
    ensures OnAxis(Points(segments, reversed), axis)
  {
    var points := Points(segments, reversed);
    forall k | 0 <= k < |points| && Inside(points[k], axis)
      ensures 0.0 <= points[k].clientX <= axis.len as real
    {
      PointsAre(segments, reversed, points[k]);
    }
  }

  lemma {:induction false} AnswerIsEntry(segments: seq<seq<Point>>, reversed: bool, axis: AxisRange, pixel: nat,
                                         p: Point)
    requires var points := Points(segments, reversed);
             p in points && Inside(p, axis) && Nearest(points, axis, pixel, p)
    ensures EntryOf(segments, axis, pixel, p)
  {
    var points := Points(segments, reversed);
    PointsAre(segments, reversed, p);
    forall s, i | 0 <= s < |segments| && 0 <= i < |segments[s]| && Inside(segments[s][i], axis)
      ensures Distance(p, pixel) <= Distance(segments[s][i], pixel)
      ensures Distance(p, pixel) == Distance(segments[s][i], pixel) ==> p.clientX <= segments[s][i].clientX
    {
      PointsAre(segments, reversed, segments[s][i]);
      var k :| 0 <= k < |points| && points[k] == segments[s][i];
    }
  }

  /** Behind the last point within the extremes there are exactly the points beyond the right end. */
  lemma {:induction false} BehindLast(points: seq<Point>, reversed: bool, axis: AxisRange, k: nat)
    requires Sorted(points, reversed) && LastInside(points, axis) >= 0 && k < |points|
    ensures Beyond(points[k], reversed, axis) <==> k > LastInside(points, axis)
  {
    var last := LastInside(points, axis);
    assert Inside(points[last], axis);
  }

  /** The same of a list of points. */
  predicate FarFrom(points: seq<Point>, reversed: bool, axis: AxisRange, p: Point) {
    forall q :: q in points && Beyond(q, reversed, axis) ==> p.clientX + q.clientX >= 2.0 * axis.len as real
  }

  lemma {:induction false} FarFromAll(segments: seq<seq<Point>>, reversed: bool, axis: AxisRange, p: Point)
    ensures FarFromBeyond(segments, reversed, axis, p) <==> FarFrom(Points(segments, reversed), reversed, axis, p)
  {
    forall q: Point
      ensures q in Points(segments, reversed) <==> HasPoint(segments, q)
    {
      PointsAre(segments, reversed, q);
    }
    if FarFrom(Points(segments, reversed), reversed, axis, p) {
      assert forall s, i :: 0 <= s < |segments| && 0 <= i < |segments[s]| ==> HasPoint(segments, segments[s][i]);
    }
  }

  /** Of all points within the extremes the last one is farthest from the points beyond. */
  lemma {:induction false} LastIsFarthest(points: seq<Point>, reversed: bool, axis: AxisRange, p: Point)
    requires Sorted(points, reversed) && OnAxis(points, axis) && p in points && Inside(p, axis)
    ensures var last := LastInside(points, axis);
            && last >= 0 && p.clientX <= points[last].clientX
            && (High(points, last, axis.len) == axis.len <==> FarFrom(points, reversed, axis, points[last]))
            && (FarFrom(points, reversed, axis, p) ==> FarFrom(points, reversed, axis, points[last]))
  {
    var last := LastInside(points, axis);
    var k :| 0 <= k < |points| && points[k] == p;
    assert k <= last;
    FullTable(points, reversed, axis);
    if last + 1 < |points| {
      BehindLast(points, reversed, axis, last + 1);
      forall q | q in points && Beyond(q, reversed, axis)
        ensures points[last + 1].clientX <= q.clientX
      {
        var j :| 0 <= j < |points| && points[j] == q;
        BehindLast(points, reversed, axis, j);
      }
    } else {
      forall q | q in points
        ensures !Beyond(q, reversed, axis)
      {
        var j :| 0 <= j < |points| && points[j] == q;
        BehindLast(points, reversed, axis, j);
      }
    }
  }

  /** From the segments alone: when the last range reaches the end of the axis. */
  lemma {:induction false} CoveredIff(segments: seq<seq<Point>>, reversed: bool, axis: AxisRange)
    requires InOrder(segments, reversed) && SegmentsOnAxis(segments, axis)
    ensures var points := Points(segments, reversed);
            var last := LastInside(points, axis);
            Covered(segments, reversed, axis) <==> last >= 0 && High(points, last, axis.len) == axis.len
  {
    var points := Points(segments, reversed);
    var last := LastInside(points, axis);
    PointsSorted(segments, reversed);
    PointsOnAxis(segments, reversed, axis);
    if Covered(segments, reversed, axis) {
      var s, i :| 0 <= s < |segments| && 0 <= i < |segments[s]|
                  && Inside(segments[s][i], axis) && FarFromBeyond(segments, reversed, axis, segments[s][i]);
      PointsAre(segments, reversed, segments[s][i]);
      FarFromAll(segments, reversed, axis, segments[s][i]);
      LastIsFarthest(points, reversed, axis, segments[s][i]);
    }
    if last >= 0 {
      PointsAre(segments, reversed, points[last]);
      FarFromAll(segments, reversed, axis, points[last]);
      LastIsFarthest(points, reversed, axis, points[last]);
    }
  }

  /** The loop over all points. */
  method FillTable(points: seq<Point>, reversed: bool, axis: AxisRange) returns (table: seq<Point>)
    requires Sorted(points, reversed) && OnAxis(points, axis)
    ensures var last := LastInside(points, axis);
            |table| == (if last >= 0 then High(points, last, axis.len) + 1 else 0)
    ensures Answers(points, axis, table)
  {
    table := [];
    ghost var last := -1;
    var i := 0;
    while i < |points|
      invariant 0 <= i <= |points| && -1 <= last < i
      invariant forall j :: last < j < i ==> !Inside(points[j], axis)
      invariant last >= 0 ==> Inside(points[last], axis)
      invariant |table| == if last >= 0 then High(points, last, axis.len) + 1 else 0
      invariant Answers(points, axis, table)
    {
      if Inside(points[i], axis) {
        HighGrows(points, reversed, axis, last, i);
        table := AssignPixels(points, reversed, axis, i, table);
        last := i;
      }
      i := i + 1;
    }
  }

  /**
   Each entry of the table is a nearest point of the segments, and what the search finds; entries go from left
   to right, and they cover the whole axis if and only if no point beyond its right end is too near to all those
   within the extremes.
   */
  method SetTooltipPoints(segments: seq<seq<Point>>, reversed: bool, axis: AxisRange) returns (table: seq<Point>)
    requires InOrder(segments, reversed) && SegmentsOnAxis(segments, axis)
    ensures forall q :: 0 <= q < |table| ==> EntryOf(segments, axis, q, table[q])
    ensures |table| == axis.len + 1 <==> Covered(segments, reversed, axis)
    ensures var points, last := Points(segments, reversed), LastInside(Points(segments, reversed), axis);
            |table| == (if last >= 0 then High(points, last, axis.len) + 1 else 0)
    ensures forall q, r :: 0 <= q < r < |table| ==> table[q].clientX <= table[r].clientX
    ensures forall q :: 0 <= q < |table| ==>
              var found := Search(Points(segments, reversed), axis, q);
              found.Some? && found.value.clientX == table[q].clientX
  {
    PointsSorted(segments, reversed);
    PointsOnAxis(segments, reversed, axis);
    CoveredIff(segments, reversed, axis);
    var points := CollectPoints(segments, reversed);
    table := FillTable(points, reversed, axis);
    forall q, r | 0 <= q < r < |table|
      ensures table[q].clientX <= table[r].clientX
    {
      NearestGrows(points, axis, q, r, table[q], table[r]);
    }
    forall q | 0 <= q < |table|
      ensures EntryOf(segments, axis, q, table[q])
      ensures var found := Search(points, axis, q); found.Some? && found.value.clientX == table[q].clientX
    {
      AnswerIsEntry(segments, reversed, axis, q, table[q]);
      TableIsSearch(points, reversed, axis, q, table[q]);
    }
  }

  lemma {:induction false} TableIsSearch(points: seq<Point>, reversed: bool, axis: AxisRange, pixel: nat, p: Point)
    requires Sorted(points, reversed) && p in points && Inside(p, axis) && Nearest(points, axis, pixel, p)
    ensures var found := Search(points, axis, pixel); found.Some? && found.value.clientX == p.clientX
  {
    SearchIsNearest(points, reversed, axis, pixel);
    var found := Search(points, axis, pixel);
    if found.Some? {
    }
  }

  /**
   The range of the last point within the extremes reaches the end of the axis if and only if it is the last
   point of all, or its outside neighbour is so far away that the middle between the two is not on the axis.
   */
  lemma {:induction false} FullTable(points: seq<Point>, reversed: bool, axis: AxisRange)
    requires axis.len > 0 || (Sorted(points, reversed) && OnAxis(points, axis))
    ensures var last := LastInside(points, axis);
            last >= 0 ==>
              (High(points, last, axis.len) == axis.len <==>
               (last == |points| - 1 || points[last].clientX + points[last + 1].clientX >= 2.0 * axis.len as real))
  {
    var last := LastInside(points, axis);
    if 0 <= last < |points| - 1 {
      var mid := (points[last].clientX + points[last + 1].clientX) / 2.0;
      assert mid.Floor >= axis.len <==> mid >= axis.len as real;
    }
  }

  /**
   On an axis from 0 to 5 with 2 pixels to the unit, a point at 0 and one outside at 6: the pixels from 0 to 6
   have an entry, those from 7 to 10 have none.
   */
  lemma {:induction false} PixelsWithout()
    ensures var points, axis := [Point(0.0, 0.0), Point(6.0, 12.0)], AxisRange(0.0, 5.0, 10);
            && Sorted(points, false) && OnAxis(points, axis)
            && (forall i :: 0 <= i < |points| ==> points[i].clientX == 2.0 * points[i].x)
            && LastInside(points, axis) == 0 && High(points, 0, axis.len) == 6
  {
    var points, axis := [Point(0.0, 0.0), Point(6.0, 12.0)], AxisRange(0.0, 5.0, 10);
    assert points[..1][0] == points[0];
    assert !Inside(points[1], axis) && Inside(points[0], axis);
    assert ((0.0 + 12.0) / 2.0).Floor == 6;
  }
}
