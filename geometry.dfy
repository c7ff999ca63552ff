/** Waypoints, segment directions, circular indexing and the axis-aligned
    segment trim that the outline builder is made of. Coordinates are exact
    reals: the program only adds, subtracts and compares them. */
module Geometry {

  /** A waypoint, or a displacement between two waypoints. */
  datatype Point = Point(x: real, y: real)

  function Add(p: Point, v: Point): Point
  {
    Point(p.x + v.x, p.y + v.y)
  }

  function Sub(p: Point, q: Point): Point
  {
    Point(p.x - q.x, p.y - q.y)
  }

  /** The four axis directions of a segment, with y growing downwards as on
      the drawing canvas, and Unknown for a diagonal or zero-length segment. */
  datatype Direction = Up | Down | Left | Right | Unknown

  function Opposite(d: Direction): Direction
  {
    match d
    case Up => Down
    case Down => Up
    case Left => Right
    case Right => Left
    case Unknown => Unknown
  }

  /** The two points differ in exactly one coordinate. */
  predicate AxisAligned(p1: Point, p2: Point)
  {
    (p1.x == p2.x) != (p1.y == p2.y)
  }

  /** Classifies the segment from p1 to p2 by exact comparisons; the tests
      are tried in the order Right, Left, Down, Up. */
  function LineDirection(p1: Point, p2: Point): (d: Direction)
    ensures d == Right <==> p1.x < p2.x && p1.y == p2.y
    ensures d == Left <==> p1.x > p2.x && p1.y == p2.y
    ensures d == Down <==> p1.x == p2.x && p1.y < p2.y
    ensures d == Up <==> p1.x == p2.x && p1.y > p2.y
    ensures d == Unknown <==> !AxisAligned(p1, p2)
    ensures d == Unknown <==> p1 == p2 || (p1.x != p2.x && p1.y != p2.y)
  {
    if p1.x < p2.x && p1.y == p2.y then Right
    else if p1.x > p2.x && p1.y == p2.y then Left
    else if p1.x == p2.x && p1.y < p2.y then Down
    else if p1.x == p2.x && p1.y > p2.y then Up
    else Unknown
  }

  /** Walking a segment backwards gives the opposite direction. */
  lemma LineDirectionReversed(p1: Point, p2: Point)
    ensures LineDirection(p2, p1) == Opposite(LineDirection(p1, p2))
  {
  }

  /** The waypoint at position i of the closed loop, counting round the loop
      as many times as needed. */
  function PointWrapped(points: seq<Point>, i: nat): (p: Point)
    requires |points| > 0
    ensures p in points
    ensures i < |points| ==> p == points[i]
  {
    points[i % |points|]
  }

  /** Going once round the loop brings back the same waypoint; with the
      in-range case of PointWrapped's contract this determines every value. */
  lemma PointWrappedPeriodic(points: seq<Point>, i: nat)
    requires |points| > 0
    ensures PointWrapped(points, i + |points|) == PointWrapped(points, i)
  {
    var n := |points|;
    ModUnique(i + n, n, i / n + 1, i % n);
  }

  /** Quotient and remainder are unique: a remainder in range found by any
      means is the one `%` gives. */
  lemma ModUnique(a: int, n: int, q: int, r: int)
    requires n > 0 && 0 <= r < n && a == q * n + r
    ensures a % n == r
  {
    var d := q - a / n;
    assert d * n == a % n - r;
    if d > 0 {
      assert false;
    } else if d < 0 {
      assert false;
    }
  }

  /** The displacement that pulls a segment's start forwards along its own
      direction by `offset`; zero for an Unknown segment. */
  function Step(d: Direction, offset: int): Point
  {
    if d == Up then Point(0.0, -(offset as real))
    else if d == Down then Point(0.0, offset as real)
    else if d == Left then Point(-(offset as real), 0.0)
    else if d == Right then Point(offset as real, 0.0)
    else Point(0.0, 0.0)
  }

  /** Signed distance travelled from p to q in direction d; zero for Unknown. */
  function Along(d: Direction, p: Point, q: Point): real
  {
    if d == Right then q.x - p.x
    else if d == Left then p.x - q.x
    else if d == Down then q.y - p.y
    else if d == Up then p.y - q.y
    else 0.0
  }

  /** p lies on the closed axis-parallel box spanned by a and b, which for an
      axis-aligned a, b is the segment between them. */
  predicate Between(p: Point, a: Point, b: Point)
  {
    (a.x <= p.x <= b.x || b.x <= p.x <= a.x) &&
    (a.y <= p.y <= b.y || b.y <= p.y <= a.y)
  }

  datatype Segment = Segment(start: Point, end: Point)

  /** The segment p1-p2 with both ends pulled inwards by `offset` along the
      segment's own axis. This is a trim, not a sideways offset. */
  function OffsetSegment(p1: Point, p2: Point, offset: int): (s: Segment)
    ensures LineDirection(p1, p2) == Unknown ==> s == Segment(p1, p2)
    ensures LineDirection(p1, p2) == Left || LineDirection(p1, p2) == Right ==>
      s.start.y == p1.y && s.end.y == p2.y
    ensures LineDirection(p1, p2) == Up || LineDirection(p1, p2) == Down ==>
      s.start.x == p1.x && s.end.x == p2.x
    ensures LineDirection(p1, p2) != Unknown ==>
      Along(LineDirection(p1, p2), p1, s.start) == offset as real &&
      Along(LineDirection(p1, p2), s.end, p2) == offset as real
  {
    var v := Step(LineDirection(p1, p2), offset);
    Segment(Add(p1, v), Sub(p2, v))
  }

  /** The trim written out per direction from the raw comparisons, so that a
      caller with concrete points gets both trimmed ends at once. */
  lemma OffsetSegmentByDirection(p1: Point, p2: Point, offset: int)
    ensures p1.x < p2.x && p1.y == p2.y
      ==> OffsetSegment(p1, p2, offset) == Segment(Point(p1.x + offset as real, p1.y), Point(p2.x - offset as real, p2.y))
    ensures p1.x > p2.x && p1.y == p2.y
      ==> OffsetSegment(p1, p2, offset) == Segment(Point(p1.x - offset as real, p1.y), Point(p2.x + offset as real, p2.y))
    ensures p1.x == p2.x && p1.y < p2.y
      ==> OffsetSegment(p1, p2, offset) == Segment(Point(p1.x, p1.y + offset as real), Point(p2.x, p2.y - offset as real))
    ensures p1.x == p2.x && p1.y > p2.y
      ==> OffsetSegment(p1, p2, offset) == Segment(Point(p1.x, p1.y - offset as real), Point(p2.x, p2.y + offset as real))
  {
  }

  /** The bottom edge of a 100 by 100 square trimmed by 10: it keeps its
      height and loses 10 at each end. */
  lemma OffsetSegmentExample()
    ensures OffsetSegment(Point(0.0, 0.0), Point(100.0, 0.0), 10)
      == Segment(Point(10.0, 0.0), Point(90.0, 0.0))
  {
    OffsetSegmentByDirection(Point(0.0, 0.0), Point(100.0, 0.0), 10);
  }

  /** A trim of at most half the segment's length keeps both new ends on the
      original segment, shortens it by exactly twice the trim, and keeps its
      direction unless the two ends meet. */
  lemma TrimStaysInside(p1: Point, p2: Point, offset: int)
    requires LineDirection(p1, p2) != Unknown
    requires 0 <= offset
    requires 2.0 * (offset as real) <= Along(LineDirection(p1, p2), p1, p2)
    ensures var s := OffsetSegment(p1, p2, offset);
      Between(s.start, p1, p2) && Between(s.end, p1, p2) &&
      Along(LineDirection(p1, p2), s.start, s.end)
        == Along(LineDirection(p1, p2), p1, p2) - 2.0 * (offset as real)
    ensures var s := OffsetSegment(p1, p2, offset);
      if 2.0 * (offset as real) < Along(LineDirection(p1, p2), p1, p2)
      then LineDirection(s.start, s.end) == LineDirection(p1, p2)
      else s.start == s.end
  {
  }
}
