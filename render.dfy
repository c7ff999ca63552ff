/** The track drawing: the outline drawn three times over the normalised
    waypoints, and the program's top-level sequence. */
module Render {
  import opened Geometry
  import opened TrackOutline
  import Normalise

  /** Corner radius passed to every outline (TURN_RADIUS). */
  const TurnRadius: int := 10

  /** The three stroke styles, as opaque tokens: black outer edge, white
      track surface drawn over it, dashed red centerline on top. */
  datatype Style = OutsideTrack | InsideTrack | Centerline

  /** The document body: outside, inside and centerline outlines, in that
      order, all with the same radius. */
  function Track(points: seq<Point>): seq<Primitive<Style>>
  {
    Outline(points, TurnRadius, OutsideTrack)
      + Outline(points, TurnRadius, InsideTrack)
      + Outline(points, TurnRadius, Centerline)
  }

  /** Produces the primitives of the drawing by building the three outlines
      one after the other. Opening, writing and closing the file are not
      modelled. */
  method WriteSvg(points: seq<Point>) returns (doc: seq<Primitive<Style>>)
    ensures doc == Track(points)
  {
    var outside := MakeOutline(points, TurnRadius, OutsideTrack);
    var inside := MakeOutline(points, TurnRadius, InsideTrack);
    var centerline := MakeOutline(points, TurnRadius, Centerline);
    doc := outside + inside + centerline;
  }

  /** The drawing is three layers of 2n primitives each. The layers have the
      same geometry, primitive by primitive, and differ only in style. */
  lemma TrackLayers(points: seq<Point>)
    ensures var n := |points|; var doc := Track(points);
      |doc| == 6 * n &&
      (forall k :: 0 <= k < 2 * n ==>
        doc[k].style == OutsideTrack &&
        doc[2 * n + k] == Restyle(doc[k], InsideTrack) &&
        doc[4 * n + k] == Restyle(doc[k], Centerline))
  {
    var n := |points|;
    OutlineShape(points, TurnRadius, OutsideTrack);
    OutlineRestyle(points, TurnRadius, OutsideTrack, InsideTrack);
    OutlineRestyle(points, TurnRadius, OutsideTrack, Centerline);
    var a := Outline(points, TurnRadius, OutsideTrack);
    var b := Outline(points, TurnRadius, InsideTrack);
    var c := Outline(points, TurnRadius, Centerline);
    forall k | 0 <= k < 2 * n
      ensures Track(points)[2 * n + k] == b[k] && Track(points)[4 * n + k] == c[k] && Track(points)[k] == a[k]
    {
    }
  }

  /** The program's run once the waypoints are read: normalise them in place
      with the configured padding, then draw the track over them. */
  method GenerateTrack(points: array<Point>) returns (doc: seq<Primitive<Style>>)
    modifies points
    ensures points[..] == Normalise.Corrected(old(points[..]), Normalise.Padding)
    ensures doc == Track(points[..])
  {
    Normalise.CorrectPoints(points, Normalise.Padding);
    doc := WriteSvg(points[..]);
  }
}
