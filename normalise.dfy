/** Normalisation of the waypoints before drawing: flip the y axis, then
    translate so that the smallest x and the smallest y both sit at the
    padding margin. The waypoint vector is changed in place. */
module Normalise {
  import opened Geometry

  /** Margin left between the canvas edge and the track (PADDING). */
  const Padding: int := 25

  /** Every point mirrored in the x axis. */
  function InvertedY(s: seq<Point>): seq<Point>
  {
    seq(|s|, i requires 0 <= i < |s| => Point(s[i].x, -s[i].y))
  }

  /** Every point moved by the same displacement (dx, dy). */
  function Translated(s: seq<Point>, dx: real, dy: real): seq<Point>
  {
    seq(|s|, i requires 0 <= i < |s| => Point(s[i].x + dx, s[i].y + dy))
  }

  /** The smallest x and the smallest y over the points, or (0, 0) when there
      are none. A later point replaces the running minimum only when strictly
      smaller. */
  function MinValues(s: seq<Point>): (real, real)
  {
    if |s| == 0 then (0.0, 0.0)
    else if |s| == 1 then (s[0].x, s[0].y)
    else
      var m := MinValues(s[..|s| - 1]);
      var last := s[|s| - 1];
      (if last.x < m.0 then last.x else m.0, if last.y < m.1 then last.y else m.1)
  }

  /** The minima are lower bounds of the coordinates that some point attains,
      and (0, 0) when there are no points. */
  lemma {:induction false} MinValuesBounds(s: seq<Point>)
    ensures |s| == 0 ==> MinValues(s) == (0.0, 0.0)
    ensures forall i :: 0 <= i < |s| ==> MinValues(s).0 <= s[i].x && MinValues(s).1 <= s[i].y
    ensures |s| > 0 ==> exists i :: 0 <= i < |s| && s[i].x == MinValues(s).0
    ensures |s| > 0 ==> exists i :: 0 <= i < |s| && s[i].y == MinValues(s).1
  {
    if |s| > 1 {
      var init := s[..|s| - 1];
      MinValuesBounds(init);
      assert forall i :: 0 <= i < |init| ==> s[i] == init[i];
    }
  }

  /** The waypoints after the whole normalisation pass. */
  function Corrected(s: seq<Point>, padding: int): seq<Point>
  {
    var flipped := InvertedY(s);
    var m := MinValues(flipped);
    Translated(flipped, -m.0 + padding as real, -m.1 + padding as real)
  }

  /** Negates the y coordinate of every waypoint and leaves x alone. */
  method InvertYValues(points: array<Point>)
    modifies points
    ensures points[..] == InvertedY(old(points[..]))
  {
    for i := 0 to points.Length
      invariant forall k :: 0 <= k < i ==> points[k] == Point(old(points[k]).x, -old(points[k]).y)
      invariant forall k :: i <= k < points.Length ==> points[k] == old(points[k])
    {
      points[i] := Point(points[i].x, -points[i].y);
    }
  }

  /** Scans the waypoints once for the smallest x and y, starting from the
      first point; (0, 0) for no points. */
  method FindMinValues(points: array<Point>) returns (minX: real, minY: real)
    ensures (minX, minY) == MinValues(points[..])
    ensures points.Length == 0 ==> minX == 0.0 && minY == 0.0
    ensures forall i :: 0 <= i < points.Length ==> minX <= points[i].x && minY <= points[i].y
    ensures points.Length > 0 ==> exists i :: 0 <= i < points.Length && points[i].x == minX
    ensures points.Length > 0 ==> exists i :: 0 <= i < points.Length && points[i].y == minY
  {
    MinValuesBounds(points[..]);
    if points.Length == 0 {
      return 0.0, 0.0;
    }
    minX, minY := points[0].x, points[0].y;
    for i := 0 to points.Length
      invariant (minX, minY) == MinValues(points[..if i == 0 then 1 else i])
    {
      if points[i].x < minX {
        minX := points[i].x;
      }
      if points[i].y < minY {
        minY := points[i].y;
      }
      assert points[..i + 1][..i] == points[..i];
    }
    assert points[..points.Length] == points[..];
  }

  /** Adds (dx, dy) to every waypoint. */
  method OffsetPoints(points: array<Point>, dx: real, dy: real)
    modifies points
    ensures points[..] == Translated(old(points[..]), dx, dy)
  {
    for i := 0 to points.Length
      invariant forall k :: 0 <= k < i ==> points[k] == Point(old(points[k]).x + dx, old(points[k]).y + dy)
      invariant forall k :: i <= k < points.Length ==> points[k] == old(points[k])
    {
      points[i] := Point(points[i].x + dx, points[i].y + dy);
    }
  }

  /** Flips y, finds the minima of the flipped points and moves them so that
      both minima become `padding`. */
  method CorrectPoints(points: array<Point>, padding: int)
    modifies points
    ensures points[..] == Corrected(old(points[..]), padding)
  {
    InvertYValues(points);
    ghost var flipped := points[..];
    var minX, minY := FindMinValues(points);
    OffsetPoints(points, -minX + padding as real, -minY + padding as real);
    assert points[..] == Translated(flipped, -minX + padding as real, -minY + padding as real);
  }

  /** Flipping twice gives back the original points. */
  lemma InvertedYInvolution(s: seq<Point>)
    ensures InvertedY(InvertedY(s)) == s
  {
  }

  /** Translating back by the opposite displacement undoes a translation. */
  lemma TranslatedInverse(s: seq<Point>, dx: real, dy: real)
    ensures Translated(Translated(s, dx, dy), -dx, -dy) == s
  {
  }

  /** Translating the points moves their minima by the same displacement. */
  lemma {:induction false} MinValuesTranslated(s: seq<Point>, dx: real, dy: real)
    requires |s| > 0
    ensures MinValues(Translated(s, dx, dy)) == (MinValues(s).0 + dx, MinValues(s).1 + dy)
  {
    var t := Translated(s, dx, dy);
    if |s| > 1 {
      var init := s[..|s| - 1];
      assert t[..|t| - 1] == Translated(init, dx, dy);
      MinValuesTranslated(init, dx, dy);
      assert t[|t| - 1] == Point(s[|s| - 1].x + dx, s[|s| - 1].y + dy);
    } else {
      assert t[0] == Point(s[0].x + dx, s[0].y + dy);
    }
  }

  /** After normalisation the number of waypoints is unchanged, no waypoint
      lies left of or above the padding margin, and some waypoint touches each
      margin. */
  lemma CorrectedMinimum(s: seq<Point>, padding: int)
    ensures |Corrected(s, padding)| == |s|
    ensures |s| > 0 ==> MinValues(Corrected(s, padding)) == (padding as real, padding as real)
    ensures forall i :: 0 <= i < |s| ==>
      Corrected(s, padding)[i].x >= padding as real && Corrected(s, padding)[i].y >= padding as real
  {
    var flipped := InvertedY(s);
    var m := MinValues(flipped);
    var c := Translated(flipped, -m.0 + padding as real, -m.1 + padding as real);
    assert c == Corrected(s, padding);
    if |s| > 0 {
      MinValuesTranslated(flipped, -m.0 + padding as real, -m.1 + padding as real);
      assert MinValues(c) == (padding as real, padding as real);
      MinValuesBounds(c);
    }
  }
}
