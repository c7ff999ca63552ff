/** One outline of the track: for every waypoint of the closed loop a trimmed
    straight line and a quadratic corner arc, drawn in one style. The style is
    a type parameter because the outline builder only passes it through. */
module TrackOutline {
  import opened Geometry

  /** A drawing primitive. A Line has absolute endpoints; an Arc is the SVG
      path "M start q controlDelta endDelta", whose control point and end
      point are written relative to its start (section 8.3.7 of SVG 1.1). */
  datatype Primitive<S> =
    | Line(start: Point, end: Point, style: S)
    | Arc(start: Point, controlDelta: Point, endDelta: Point, style: S)

  /** The absolute control point of an arc. */
  function ArcControl<S>(a: Primitive<S>): Point
    requires a.Arc?
  {
    Add(a.start, a.controlDelta)
  }

  /** The absolute end point of an arc. */
  function ArcEnd<S>(a: Primitive<S>): Point
    requires a.Arc?
  {
    Add(a.start, a.endDelta)
  }

  /** The arc from p1 to p3 with control point p2, written with relative
      deltas; the absolute points are recovered exactly from it. */
  function MakeArc<S>(p1: Point, p2: Point, p3: Point, style: S): (a: Primitive<S>)
    ensures a.Arc? && a.start == p1 && a.style == style
    ensures ArcControl(a) == p2 && ArcEnd(a) == p3
  {
    Arc(p1, Sub(p2, p1), Sub(p3, p1), style)
  }

  /** The same primitive in another style. */
  function Restyle<S>(p: Primitive<S>, style: S): Primitive<S>
  {
    match p
    case Line(a, b, _) => Line(a, b, style)
    case Arc(a, c, e, _) => Arc(a, c, e, style)
  }

  /** What one pass of the outline loop emits for vertex i: the trimmed line
      from waypoint i to waypoint i + 1, then the arc from that line's end,
      bending at waypoint i + 1, to the start of the next trimmed line. */
  function Piece<S>(points: seq<Point>, radius: int, style: S, i: nat): seq<Primitive<S>>
    requires |points| > 0
  {
    var line := OffsetSegment(PointWrapped(points, i), PointWrapped(points, i + 1), radius);
    var next := OffsetSegment(PointWrapped(points, i + 1), PointWrapped(points, i + 2), radius);
    [Line(line.start, line.end, style), MakeArc(line.end, PointWrapped(points, i + 1), next.start, style)]
  }

  /** The primitives emitted by the first k passes of the loop. */
  function OutlinePrefix<S>(points: seq<Point>, radius: int, style: S, k: nat): seq<Primitive<S>>
    requires k <= |points|
  {
    if k == 0 then [] else OutlinePrefix(points, radius, style, k - 1) + Piece(points, radius, style, k - 1)
  }

  /** The whole outline: one pass per waypoint. */
  function Outline<S>(points: seq<Point>, radius: int, style: S): seq<Primitive<S>>
  {
    OutlinePrefix(points, radius, style, |points|)
  }

  /** Builds the outline by walking the loop once and appending a line and an
      arc per waypoint. */
  method MakeOutline<S>(points: seq<Point>, radius: int, style: S) returns (out: seq<Primitive<S>>)
    ensures out == Outline(points, radius, style)
  {
    out := [];
    var i := 0;
    while i < |points|
      invariant i <= |points|
      invariant out == OutlinePrefix(points, radius, style, i)
    {
      var line := OffsetSegment(PointWrapped(points, i), PointWrapped(points, i + 1), radius);
      out := out + [Line(line.start, line.end, style)];
      var arcStart := line.end;
      var arcControl := PointWrapped(points, i + 1);
      var arcEnd := OffsetSegment(PointWrapped(points, i + 1), PointWrapped(points, i + 2), radius).start;
      out := out + [MakeArc(arcStart, arcControl, arcEnd, style)];
      i := i + 1;
    }
  }

  /** The first k passes emit 2k primitives, and pass j's line and arc sit at
      positions 2j and 2j + 1. */
  lemma {:induction false} OutlinePrefixAt<S>(points: seq<Point>, radius: int, style: S, k: nat, j: nat)
    requires k <= |points| && j < k
    ensures |OutlinePrefix(points, radius, style, k)| == 2 * k
    ensures OutlinePrefix(points, radius, style, k)[2 * j] == Piece(points, radius, style, j)[0]
    ensures OutlinePrefix(points, radius, style, k)[2 * j + 1] == Piece(points, radius, style, j)[1]
  {
    if j < k - 1 {
      OutlinePrefixAt(points, radius, style, k - 1, j);
    } else if k > 1 {
      OutlinePrefixAt(points, radius, style, k - 1, 0);
    }
  }

  /** An outline over n waypoints holds exactly 2n primitives, lines at the
      even positions and arcs at the odd ones: n lines and n arcs, alternating,
      starting with a line. */
  lemma OutlineShape<S>(points: seq<Point>, radius: int, style: S)
    ensures |Outline(points, radius, style)| == 2 * |points|
    ensures forall k :: 0 <= k < 2 * |points| ==>
      (Outline(points, radius, style)[k].Line? <==> k % 2 == 0)
    ensures forall k :: 0 <= k < 2 * |points| ==> Outline(points, radius, style)[k].style == style
  {
    var n := |points|;
    if n > 0 {
      OutlinePrefixAt(points, radius, style, n, 0);
      forall k | 0 <= k < 2 * n
        ensures Outline(points, radius, style)[k].Line? <==> k % 2 == 0
        ensures Outline(points, radius, style)[k].style == style
      {
        OutlinePrefixAt(points, radius, style, n, k / 2);
      }
    }
  }

  /** Line i runs from waypoint i to the next waypoint round the loop, trimmed
      by the radius at both ends. */
  lemma LineAt<S>(points: seq<Point>, radius: int, style: S, i: nat)
    requires i < |points|
    ensures var seg := OffsetSegment(points[i], points[(i + 1) % |points|], radius);
      |Outline(points, radius, style)| == 2 * |points| &&
      Outline(points, radius, style)[2 * i] == Line(seg.start, seg.end, style)
  {
    OutlinePrefixAt(points, radius, style, |points|, i);
  }

  /** Continuity round the whole loop: arc i starts where line i ends, bends
      at the raw waypoint i + 1, and ends where the next line starts, the
      last arc joining the first line. */
  lemma ArcContinuity<S>(points: seq<Point>, radius: int, style: S, i: nat)
    requires i < |points|
    ensures var n := |points|; var out := Outline(points, radius, style);
      |out| == 2 * n &&
      out[2 * i].Line? && out[2 * i + 1].Arc? &&
      out[2 * i + 1].start == out[2 * i].end &&
      ArcControl(out[2 * i + 1]) == points[(i + 1) % n] &&
      ArcEnd(out[2 * i + 1]) == out[2 * ((i + 1) % n)].start
  {
    var n := |points|;
    var j := (i + 1) % n;
    OutlinePrefixAt(points, radius, style, n, i);
    OutlinePrefixAt(points, radius, style, n, j);
    if i + 1 < n {
      ModUnique(i + 1, n, 0, i + 1);
    } else {
      ModUnique(i + 1, n, 1, 0);
      PointWrappedPeriodic(points, 0);
      PointWrappedPeriodic(points, 1);
    }
  }

  /** The geometry of an outline does not depend on its style: drawing it in
      another style changes only the style of each primitive. */
  lemma OutlineRestyle<S>(points: seq<Point>, radius: int, style: S, other: S)
    ensures |Outline(points, radius, other)| == |Outline(points, radius, style)|
    ensures forall k :: 0 <= k < |Outline(points, radius, style)| ==>
      Outline(points, radius, other)[k] == Restyle(Outline(points, radius, style)[k], other)
  {
    var n := |points|;
    OutlineShape(points, radius, style);
    OutlineShape(points, radius, other);
    forall k | 0 <= k < 2 * n
      ensures Outline(points, radius, other)[k] == Restyle(Outline(points, radius, style)[k], other)
    {
      OutlinePrefixAt(points, radius, style, n, k / 2);
      OutlinePrefixAt(points, radius, other, n, k / 2);
    }
  }
}
