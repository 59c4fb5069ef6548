/**
 The outline of a 3D pie slice. `curveTo` splits an arc into cubic pieces of about a quarter turn
 at most; `arc3dPath` puts arcs and lines together.

 Numbers are reals. Of sine, cosine and pi nothing is used but that pi is positive.
 */
module ArcPath {
  import opened JsValues

  datatype Trig = Trig(pi: real, sin: real -> real, cos: real -> real, dFactor: real) {
    predicate Valid() {
      pi > 0.0
    }

    function Quarter(): real {
      pi / 2.0
    }
  }

  datatype Vec = Vec(x: real, y: real) {
    function Plus(v: Vec): Vec {
      Vec(x + v.x, y + v.y)
    }

    function Minus(v: Vec): Vec {
      Vec(x - v.x, y - v.y)
    }

    function Times(f: real): Vec {
      Vec(x * f, y * f)
    }
  }

  function OnEllipse(t: Trig, cx: real, cy: real, rx: real, ry: real, angle: real): Vec {
    Vec(cx + rx * t.cos(angle), cy + ry * t.sin(angle))
  }

  /** An ellipse, shifted by (dx, dy). */
  datatype Ellipse = Ellipse(cx: real, cy: real, rx: real, ry: real, dx: real, dy: real) {
    function At(t: Trig, angle: real): Vec {
      OnEllipse(t, cx, cy, rx, ry, angle).Plus(Vec(dx, dy))
    }

    /** The derivative of At, up to the factor of the pieces. */
    function Tangent(t: Trig, angle: real): Vec {
      Vec(-rx * t.sin(angle), ry * t.cos(angle))
    }
  }

  datatype Segment = MoveTo(p: Vec) | LineTo(p: Vec) | Cubic(c1: Vec, c2: Vec, p: Vec) | Close

  const TOLERANCE: real := 0.0001

  /** The last branch of curveTo: one piece for the whole arc. */
  function Piece(t: Trig, e: Ellipse, start: real, end: real): Segment {
    var arcAngle := end - start;
    Cubic(
      Vec(e.cx + e.rx * t.cos(start) - e.rx * t.dFactor * arcAngle * t.sin(start) + e.dx,
          e.cy + e.ry * t.sin(start) + e.ry * t.dFactor * arcAngle * t.cos(start) + e.dy),
      Vec(e.cx + e.rx * t.cos(end) + e.rx * t.dFactor * arcAngle * t.sin(end) + e.dx,
          e.cy + e.ry * t.sin(end) - e.ry * t.dFactor * arcAngle * t.cos(end) + e.dy),
      Vec(e.cx + e.rx * t.cos(end) + e.dx, e.cy + e.ry * t.sin(end) + e.dy))
  }

  /** A bound on the number of splits that an arc still needs. */
  function Splits(t: Trig, span: real): nat
    requires t.Valid()
  {
    if span <= TOLERANCE then 0 else ((span - TOLERANCE) / t.Quarter()).Floor
  }

  lemma {:induction false} SplitsDecrease(t: Trig, span: real)
    requires t.Valid() && span > t.Quarter() + TOLERANCE
    ensures Splits(t, t.Quarter()) < Splits(t, span)
    ensures Splits(t, span - t.Quarter()) < Splits(t, span)
  {
    var q := t.Quarter();
    assert (span - q - TOLERANCE) / q == (span - TOLERANCE) / q - 1.0;
    assert (span - TOLERANCE) / q > 1.0;
    if q > TOLERANCE {
      assert (q - TOLERANCE) / q < 1.0;
    }
  }

  function CurveTo(t: Trig, e: Ellipse, start: real, end: real): seq<Segment>
    requires t.Valid()
    decreases Splits(t, Abs(end - start))
  {
    var q := t.Quarter();
    if end > start && end - start > q + TOLERANCE then
      SplitsDecrease(t, end - start);
      CurveTo(t, e, start, start + q) + CurveTo(t, e, start + q, end)
    else if end < start && start - end > q + TOLERANCE then
      SplitsDecrease(t, start - end);
      CurveTo(t, e, start, start - q) + CurveTo(t, e, start - q, end)
    else [Piece(t, e, start, end)]
  }

  // ---------- The pieces ----------

  /** The number of pieces of an arc. */
  function Count(t: Trig, span: real): (n: nat)
    requires t.Valid()
    ensures n > 0 && span <= n as real * t.Quarter() + TOLERANCE
    ensures n > 1 ==> (n - 1) as real * t.Quarter() + TOLERANCE < span
    decreases Splits(t, span)
  {
    if span > t.Quarter() + TOLERANCE then
      SplitsDecrease(t, span);
      1 + Count(t, span - t.Quarter())
    else 1
  }

  /** Where piece k begins: k quarter turns from the start; the last piece stops at the end. */
  function Break(t: Trig, start: real, end: real, k: nat): real
    requires t.Valid() && k <= Count(t, Abs(end - start))
  {
    if k == Count(t, Abs(end - start)) then end
    else if end > start then start + k as real * t.Quarter()
    else start - k as real * t.Quarter()
  }

  /** One quarter turn further along the arc. */
  function Mid(t: Trig, start: real, end: real): real {
    if end > start then start + t.Quarter() else start - t.Quarter()
  }

  predicate Long(t: Trig, start: real, end: real) {
    Abs(end - start) > t.Quarter() + TOLERANCE
  }

  lemma {:induction false} BreakShifts(t: Trig, start: real, end: real, k: nat)
    requires t.Valid() && Long(t, start, end) && 1 <= k <= Count(t, Abs(end - start))
    ensures var mid := Mid(t, start, end);
            && Count(t, Abs(end - start)) == 1 + Count(t, Abs(end - mid))
            && Break(t, start, end, k) == Break(t, mid, end, k - 1)
            && Break(t, start, end, 1) == mid && Break(t, start, end, 0) == start
  {
    assert (k - 1) as real * t.Quarter() + t.Quarter() == k as real * t.Quarter();
  }

  /** The curve is its pieces between consecutive breaks. */
  lemma {:induction false} CurvePieces(t: Trig, e: Ellipse, start: real, end: real, k: nat)
    requires t.Valid() && k < Count(t, Abs(end - start))
    ensures |CurveTo(t, e, start, end)| == Count(t, Abs(end - start))
    ensures CurveTo(t, e, start, end)[k] == Piece(t, e, Break(t, start, end, k), Break(t, start, end, k + 1))
    decreases Splits(t, Abs(end - start))
  {
    if Long(t, start, end) {
      var mid := Mid(t, start, end);
      SplitsDecrease(t, Abs(end - start));
      BreakShifts(t, start, end, k + 1);
      CurvePieces(t, e, mid, end, if k == 0 then 0 else k - 1);
      if k > 0 {
        BreakShifts(t, start, end, k);
      }
    }
  }

  lemma {:induction false} BreakEnds(t: Trig, start: real, end: real)
    requires t.Valid()
    ensures Break(t, start, end, 0) == start && Break(t, start, end, Count(t, Abs(end - start))) == end
  {
  }

  /** How far break k is from the start. */
  lemma {:induction false} Progress(t: Trig, start: real, end: real, k: nat) returns (d: real)
    requires t.Valid() && k <= Count(t, Abs(end - start))
    ensures var n, span := Count(t, Abs(end - start)), Abs(end - start);
            && Break(t, start, end, k) == (if end > start then start + d else start - d)
            && d == if k == n then span else k as real * t.Quarter()
  {
    d := if k == Count(t, Abs(end - start)) then Abs(end - start) else k as real * t.Quarter();
  }

  /** Each piece turns in the direction of the whole arc, by a quarter turn and the tolerance at most. */
  lemma {:induction false} PieceSpan(t: Trig, start: real, end: real, k: nat)
    requires t.Valid() && k < Count(t, Abs(end - start))
    ensures var a, b := Break(t, start, end, k), Break(t, start, end, k + 1);
            && Abs(b - a) <= t.Quarter() + TOLERANCE
            && (end > start ==> b > a) && (end < start ==> b < a) && (end == start ==> b == a)
  {
    var q, n, span := t.Quarter(), Count(t, Abs(end - start)), Abs(end - start);
    var d := Progress(t, start, end, k);
    var d' := Progress(t, start, end, k + 1);
    NextMultiple(k, q);
    assert d' - d <= q + TOLERANCE && (d < d' || span == 0.0);
  }

  lemma {:induction false} NextMultiple(k: nat, q: real)
    ensures (k + 1) as real * q == k as real * q + q
  {
  }

  function SpanSum(t: Trig, start: real, end: real, k: nat): real
    requires t.Valid() && k <= Count(t, Abs(end - start))
  {
    if k == 0 then 0.0
    else SpanSum(t, start, end, k - 1) + (Break(t, start, end, k) - Break(t, start, end, k - 1))
  }

  /** The signed spans of the pieces add up to the span of the arc. */
  lemma {:induction false} SpansAddUp(t: Trig, start: real, end: real, k: nat)
    requires t.Valid() && k <= Count(t, Abs(end - start))
    ensures SpanSum(t, start, end, k) == Break(t, start, end, k) - start
    ensures k == Count(t, Abs(end - start)) ==> SpanSum(t, start, end, k) == end - start
  {
    if k == 0 {
      BreakEnds(t, start, end);
    } else {
      SpansAddUp(t, start, end, k - 1);
    }
  }

  /** Consecutive pieces meet without a kink: their handles are opposite, in proportion to their spans. */
  lemma {:induction false} SmoothJoint(t: Trig, e: Ellipse, a: real, b: real, c: real)
    ensures var p, q := Piece(t, e, a, b), Piece(t, e, b, c);
            && p.p.Minus(p.c2) == e.Tangent(t, b).Times(t.dFactor * (b - a))
            && q.c1.Minus(p.p) == e.Tangent(t, b).Times(t.dFactor * (c - b))
  {
    var x, y := e.cx + e.rx * t.cos(b) + e.dx, e.cy + e.ry * t.sin(b) + e.dy;
    Handle(x, e.rx, t.dFactor, b - a, t.sin(b));
    Handle(y, e.ry, t.dFactor, b - a, t.cos(b));
    Handle(x, e.rx, t.dFactor, c - b, t.sin(b));
    Handle(y, e.ry, t.dFactor, c - b, t.cos(b));
  }

  /** One coordinate of a handle. */
  lemma {:induction false} Handle(at: real, r: real, d: real, arc: real, f: real)
    ensures at - (at + r * d * arc * f) == -r * f * (d * arc)
    ensures at - (at - r * d * arc * f) == r * f * (d * arc)
    ensures (at - r * d * arc * f) - at == -r * f * (d * arc)
    ensures (at + r * d * arc * f) - at == r * f * (d * arc)
  {
    assert r * d * arc * f == r * (d * arc) * f;
    assert r * (d * arc) * f == r * f * (d * arc);
    assert -r * f * (d * arc) == -(r * f * (d * arc));
  }

  // ---------- Outlines ----------

  /** What a segment is meant to draw: an arc of a given ellipse between two angles, or something straight. */
  datatype Intent = Arc(e: Ellipse, start: real, end: real) | Straight

  /** A segment that does so, when the pen is at the beginning of its arc. */
  predicate Draws(t: Trig, pen: Vec, s: Segment, intent: Intent) {
    if s.Cubic? then
      && intent.Arc?
      && s == Piece(t, intent.e, intent.start, intent.end)
      && pen == intent.e.At(t, intent.start)
    else intent.Straight?
  }

  function After(pen: Vec, s: Segment): Vec {
    if s.Close? then pen else s.p
  }

  /** From the pen position on, every segment draws what is intended, beginning where the pen is. */
  predicate Joined(t: Trig, pen: Vec, path: seq<Segment>, intents: seq<Intent>)
    decreases |path|
  {
    && |path| == |intents|
    && (path == [] || (Draws(t, pen, path[0], intents[0]) && Joined(t, After(pen, path[0]), path[1..], intents[1..])))
  }

  /** The arcs that the pieces of a curve are meant to draw. */
  function CurveIntents(t: Trig, e: Ellipse, start: real, end: real): seq<Intent>
    requires t.Valid()
    decreases Splits(t, Abs(end - start))
  {
    if Long(t, start, end) then
      SplitsDecrease(t, Abs(end - start));
      [Arc(e, start, Mid(t, start, end))] + CurveIntents(t, e, Mid(t, start, end), end)
    else [Arc(e, start, end)]
  }

  /** They are those between consecutive breaks, all on the same ellipse. */
  lemma {:induction false} IntentAt(t: Trig, e: Ellipse, start: real, end: real, k: nat)
    requires t.Valid() && k < Count(t, Abs(end - start))
    ensures |CurveIntents(t, e, start, end)| == Count(t, Abs(end - start))
    ensures CurveIntents(t, e, start, end)[k] == Arc(e, Break(t, start, end, k), Break(t, start, end, k + 1))
    decreases Splits(t, Abs(end - start))
  {
    if Long(t, start, end) {
      var mid := Mid(t, start, end);
      SplitsDecrease(t, Abs(end - start));
      BreakShifts(t, start, end, k + 1);
      IntentAt(t, e, mid, end, if k == 0 then 0 else k - 1);
      if k > 0 {
        BreakShifts(t, start, end, k);
      }
    }
  }

  /** The pen after a path. */
  function Pen(pen: Vec, path: seq<Segment>): Vec {
    if path == [] then pen
    else if path[|path| - 1].Close? then Pen(pen, path[..|path| - 1])
    else path[|path| - 1].p
  }

  lemma {:induction false} JoinedConcat(t: Trig, pen: Vec, a: seq<Segment>, b: seq<Segment>, x: seq<Intent>,
                                        y: seq<Intent>)
    requires Joined(t, pen, a, x) && Joined(t, Pen(pen, a), b, y)
    ensures Joined(t, pen, a + b, x + y) && Pen(pen, a + b) == Pen(Pen(pen, a), b)
    decreases |a|
  {
    PenConcat(pen, a, b);
    if a == [] {
      assert a + b == b && x + y == y;
    } else {
      var next := After(pen, a[0]);
      assert [a[0]][..0] == [] && Pen(pen, [a[0]]) == next;
      assert a == [a[0]] + a[1..];
      PenConcat(pen, [a[0]], a[1..]);
      JoinedConcat(t, next, a[1..], b, x[1..], y);
      assert (a + b)[1..] == a[1..] + b && (x + y)[1..] == x[1..] + y;
    }
  }

  lemma {:induction false} PenConcat(pen: Vec, a: seq<Segment>, b: seq<Segment>)
    ensures Pen(pen, a + b) == Pen(Pen(pen, a), b)
  {
    if b == [] {
      assert a + b == a;
    } else {
      assert (a + b)[..|a + b| - 1] == a + b[..|b| - 1];
      PenConcat(pen, a, b[..|b| - 1]);
    }
  }

  /** A curve begins at the point of its start and ends at the point of its end. */
  lemma {:induction false} CurveJoined(t: Trig, e: Ellipse, start: real, end: real)
    requires t.Valid()
    ensures Joined(t, e.At(t, start), CurveTo(t, e, start, end), CurveIntents(t, e, start, end))
    ensures forall pen :: Pen(pen, CurveTo(t, e, start, end)) == e.At(t, end)
    decreases Splits(t, Abs(end - start))
  {
    if Long(t, start, end) {
      var mid := Mid(t, start, end);
      SplitsDecrease(t, Abs(end - start));
      CurveJoined(t, e, mid, end);
      OnePiece(t, e, start, mid);
      JoinedConcat(t, e.At(t, start), [Piece(t, e, start, mid)], CurveTo(t, e, mid, end),
                   [Arc(e, start, mid)], CurveIntents(t, e, mid, end));
      forall pen: Vec
        ensures Pen(pen, CurveTo(t, e, start, end)) == e.At(t, end)
      {
        PenConcat(pen, [Piece(t, e, start, mid)], CurveTo(t, e, mid, end));
      }
    } else {
      OnePiece(t, e, start, end);
    }
  }

  lemma {:induction false} OnePiece(t: Trig, e: Ellipse, start: real, end: real)
    ensures Joined(t, e.At(t, start), [Piece(t, e, start, end)], [Arc(e, start, end)])
    ensures forall pen :: Pen(pen, [Piece(t, e, start, end)]) == e.At(t, end)
  {
    assert [Piece(t, e, start, end)][1..] == [];
  }

  datatype Shape = Shape(x: real, y: real, start: real, end: real, r: real, innerR: real, depth: real, alpha: real,
                         beta: real)

  /** The angles and ellipses that arc3dPath derives from the shape. */
  datatype Geometry = Geometry(outer: Ellipse, inner: Ellipse, dx: real, dy: real, start: real, end: real,
                               start2: real, end2: real)

  function GeometryOf(t: Trig, s: Shape): Geometry {
    var start, end := s.start, s.end - 0.00001;
    var b, a := if s.beta > 0.0 then t.pi / 2.0 else 0.0, if s.alpha > 0.0 then 0.0 else t.pi / 2.0;
    Geometry(
      Ellipse(s.x, s.y, s.r * t.cos(s.beta), s.r * t.cos(s.alpha), 0.0, 0.0),
      Ellipse(s.x, s.y, s.innerR * t.cos(s.beta), s.innerR * t.cos(s.alpha), 0.0, 0.0),
      s.depth * t.sin(s.beta), s.depth * t.sin(s.alpha), start, end,
      if start > -b then start else if end > -b then -b else start,
      if end < t.pi - a then end else if start < t.pi - a then t.pi - a else end)
  }

  /**
   The slice as the shape describes it: points of both ellipses at an angle, the depth by which the faces behind
   are moved, and the part of the outer face that is seen: from -90 degrees or 0 on, depending on the tilt to the
   side, and up to 180 or 90 degrees, depending on the tilt to the front, if the slice reaches there.
   */
  lemma {:induction false} GeometryOfShape(t: Trig, s: Shape, angle: real)
    ensures var g := GeometryOf(t, s);
            && g.outer.At(t, angle) ==
               Vec(s.x + s.r * t.cos(s.beta) * t.cos(angle), s.y + s.r * t.cos(s.alpha) * t.sin(angle))
            && g.inner.At(t, angle) ==
               Vec(s.x + s.innerR * t.cos(s.beta) * t.cos(angle), s.y + s.innerR * t.cos(s.alpha) * t.sin(angle))
            && Behind(g, g.outer).At(t, angle).Minus(g.outer.At(t, angle)) ==
               Vec(s.depth * t.sin(s.beta), s.depth * t.sin(s.alpha))
            && g.start == s.start && g.end == s.end - 0.00001
    ensures var g := GeometryOf(t, s);
            var from, to := if s.beta > 0.0 then -t.pi / 2.0 else 0.0, if s.alpha > 0.0 then t.pi else t.pi / 2.0;
            && g.start2 == (if g.end > from then Max(g.start, from) else g.start)
            && g.end2 == (if g.start < to then Min(g.end, to) else g.end)
  {
  }

  function FlatPoint(t: Trig, e: Ellipse, angle: real): Vec {
    OnEllipse(t, e.cx, e.cy, e.rx, e.ry, angle)
  }

  function Top(t: Trig, g: Geometry): seq<Segment>
    requires t.Valid()
  {
    [MoveTo(FlatPoint(t, g.outer, g.start))]
    + CurveTo(t, g.outer, g.start, g.end)
    + [LineTo(FlatPoint(t, g.inner, g.end))]
    + CurveTo(t, g.inner, g.end, g.start)
    + [Close]
  }

  function Out(t: Trig, g: Geometry): seq<Segment>
    requires t.Valid()
  {
    [MoveTo(FlatPoint(t, g.outer, g.start2))]
    + CurveTo(t, g.outer, g.start2, g.end2)
    + [LineTo(FlatPoint(t, g.outer, g.end2).Plus(Vec(g.dx, g.dy)))]
    + CurveTo(t, g.outer.(dx := g.dx, dy := g.dy), g.end2, g.start2)
    + [Close]
  }

  function Inn(t: Trig, g: Geometry): seq<Segment>
    requires t.Valid()
  {
    [MoveTo(FlatPoint(t, g.inner, g.start))]
    + CurveTo(t, g.inner, g.start, g.end)
    + [LineTo(FlatPoint(t, g.inner, g.end).Plus(Vec(g.dx, g.dy)))]
    + CurveTo(t, g.inner.(dx := g.dx, dy := g.dy), g.end, g.start)
    + [Close]
  }

  /** What a face is meant to show: an arc of e, a line, the arc of f back, and a closing line. */
  function FaceIntents(t: Trig, e: Ellipse, f: Ellipse, start: real, end: real): seq<Intent>
    requires t.Valid()
  {
    [Straight] + CurveIntents(t, e, start, end) + [Straight] + CurveIntents(t, f, end, start) + [Straight]
  }

  /** Two arcs in opposite directions, with lines between them. */
  lemma {:induction false} OutlineJoined(t: Trig, pen: Vec, e: Ellipse, f: Ellipse, start: real, end: real)
    requires t.Valid()
    ensures var path := [MoveTo(e.At(t, start))] + CurveTo(t, e, start, end) + [LineTo(f.At(t, end))]
                        + CurveTo(t, f, end, start) + [Close];
            Joined(t, pen, path, FaceIntents(t, e, f, start, end)) && Pen(pen, path) == f.At(t, start)
  {
    var m, c, l, d, z := [MoveTo(e.At(t, start))], CurveTo(t, e, start, end), [LineTo(f.At(t, end))],
                         CurveTo(t, f, end, start), [Close];
    var line, arc, back := [Straight], CurveIntents(t, e, start, end), CurveIntents(t, f, end, start);
    CurveJoined(t, e, start, end);
    CurveJoined(t, f, end, start);
    JoinedConcat(t, pen, m, c, line, arc);
    JoinedConcat(t, pen, m + c, l, line + arc, line);
    JoinedConcat(t, pen, m + c + l, d, line + arc + line, back);
    JoinedConcat(t, pen, m + c + l + d, z, line + arc + line + back, line);
  }

  lemma {:induction false} PointsMatch(t: Trig, e: Ellipse, dx: real, dy: real, angle: real)
    requires e.dx == 0.0 && e.dy == 0.0
    ensures FlatPoint(t, e, angle) == e.At(t, angle)
    ensures FlatPoint(t, e, angle).Plus(Vec(dx, dy)) == e.(dx := dx, dy := dy).At(t, angle)
  {
    var f := e.(dx := dx, dy := dy);
    assert OnEllipse(t, f.cx, f.cy, f.rx, f.ry, angle) == FlatPoint(t, e, angle);
  }

  /** The face is drawn as intended, and the pen ends at `last`. */
  predicate FaceDrawn(t: Trig, pen: Vec, path: seq<Segment>, e: Ellipse, f: Ellipse, start: real, end: real, last: Vec)
    requires t.Valid()
  {
    Joined(t, pen, path, FaceIntents(t, e, f, start, end)) && Pen(pen, path) == last
  }

  /** The ellipse moved back by the depth. */
  function Behind(g: Geometry, e: Ellipse): Ellipse {
    e.(dx := g.dx, dy := g.dy)
  }

  /**
   The outlines of the top, outer and inner face are drawn without a gap, each piece on the ellipse of its face:
   the top on the outer and back on the inner one, the others on one ellipse and back on the same one behind. The
   top ends at the inner start, the others at the shifted start, from where the closing line goes back.
   */
  lemma {:induction false} FacesJoined(t: Trig, s: Shape, pen: Vec)
    requires t.Valid()
    ensures var g := GeometryOf(t, s);
            var depth := Vec(g.dx, g.dy);
            && FaceDrawn(t, pen, Top(t, g), g.outer, g.inner, g.start, g.end, FlatPoint(t, g.inner, g.start))
            && FaceDrawn(t, pen, Out(t, g), g.outer, Behind(g, g.outer), g.start2, g.end2,
                         FlatPoint(t, g.outer, g.start2).Plus(depth))
            && FaceDrawn(t, pen, Inn(t, g), g.inner, Behind(g, g.inner), g.start, g.end,
                         FlatPoint(t, g.inner, g.start).Plus(depth))
  {
    TopJoined(t, GeometryOf(t, s), pen);
    OutJoined(t, GeometryOf(t, s), pen);
    InnJoined(t, GeometryOf(t, s), pen);
  }

  predicate Flat(g: Geometry) {
    g.outer.dx == g.outer.dy == g.inner.dx == g.inner.dy == 0.0
  }

  lemma {:induction false} TopJoined(t: Trig, g: Geometry, pen: Vec)
    requires t.Valid() && Flat(g)
    ensures FaceDrawn(t, pen, Top(t, g), g.outer, g.inner, g.start, g.end, FlatPoint(t, g.inner, g.start))
  {
    OutlineJoined(t, pen, g.outer, g.inner, g.start, g.end);
    PointsMatch(t, g.outer, g.dx, g.dy, g.start);
    PointsMatch(t, g.inner, g.dx, g.dy, g.start);
    PointsMatch(t, g.inner, g.dx, g.dy, g.end);
  }

  lemma {:induction false} OutJoined(t: Trig, g: Geometry, pen: Vec)
    requires t.Valid() && Flat(g)
    ensures FaceDrawn(t, pen, Out(t, g), g.outer, Behind(g, g.outer), g.start2, g.end2,
                      FlatPoint(t, g.outer, g.start2).Plus(Vec(g.dx, g.dy)))
  {
    OutlineJoined(t, pen, g.outer, Behind(g, g.outer), g.start2, g.end2);
    PointsMatch(t, g.outer, g.dx, g.dy, g.start2);
    PointsMatch(t, g.outer, g.dx, g.dy, g.end2);
  }

  lemma {:induction false} InnJoined(t: Trig, g: Geometry, pen: Vec)
    requires t.Valid() && Flat(g)
    ensures FaceDrawn(t, pen, Inn(t, g), g.inner, Behind(g, g.inner), g.start, g.end,
                      FlatPoint(t, g.inner, g.start).Plus(Vec(g.dx, g.dy)))
  {
    OutlineJoined(t, pen, g.inner, Behind(g, g.inner), g.start, g.end);
    PointsMatch(t, g.inner, g.dx, g.dy, g.start);
    PointsMatch(t, g.inner, g.dx, g.dy, g.end);
  }
}
