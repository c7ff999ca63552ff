# Track outline geometry of feb-track-generator

feb-track-generator reads the waypoints of a closed racetrack centerline, every
segment of which is horizontal or vertical, and draws the track as SVG. This
project models the part of `main.cpp` that does the geometry, and proves what
it promises:

- **Direction classifier** (`getLineDirection`): a segment is Right, Left, Down,
  Up or Unknown by exact comparisons (y grows downwards, as on the canvas).
- **Circular indexing** (`getPointWrapped`): waypoint `i mod n`.
- **Segment trim** (`getOffsetPoints`): both ends of a segment are pulled in by
  the radius along the segment's own axis. Unknown segments are not trimmed.
- **Outline builder** (`makeOutline`): one pass over the loop emits, per
  waypoint, a trimmed line and a quadratic corner arc. The arc starts at the
  line's end, bends at the raw next waypoint and ends at the next line's start.
  Arcs keep `makeArc`'s relative form: control point and end point are
  deltas from the start, as in the relative `q` command of section 8.3.7 of
  SVG 1.1.
- **Track renderer** (`writeSVG`): the outline drawn three times (outside,
  inside, centerline) with the same radius, so only the style differs.
- **Normalisation** (`invertYValues`, `findMinValues`, `offsetPoints`,
  `correctPoints`): flip y, then translate so that the minimum x and minimum y
  both equal the padding. These change the waypoint vector in place and are
  modelled as methods over an `array<Point>`.

Coordinates are exact `real`s. The program only adds, subtracts and compares
them. The radius and padding are `int`, as in the source. The drawing is a
sequence of `Line` and `Arc` primitives rather than SVG text. The style is a
type parameter that the outline builder passes through untouched. `Render`
instantiates it with the three style tokens.

Files: `geometry.dfy` (module `Geometry`), `outline.dfy` (`TrackOutline`),
`render.dfy` (`Render`), `normalise.dfy` (`Normalise`).

Three behaviours of the code are easy to mistake, and the model keeps them as written:

- `writeSVG` passes the same `TURN_RADIUS` to all three outlines. The outlines
  are not drawn at three different distances.
- The trim is along the segment, not a sideways offset.
- `makeOutline` does not reject short loops. It emits nothing for an empty
  loop, and it handles one or two waypoints like any other loop. The model has
  no precondition on the loop length.

## Model

| member | source | states |
|---|---|---|
| Geometry.LineDirection | main.cpp:36-48 | Right iff x1<x2 and y1==y2; Left iff x1>x2 and y1==y2; Down iff x1==x2 and y1<y2; Up iff x1==x2 and y1>y2; Unknown iff the points are equal or differ in both coordinates (not axis-aligned) |
| Geometry.LineDirectionReversed | main.cpp:36-48 | reversing a segment gives the opposite direction (Unknown stays Unknown) |
| Geometry.PointWrapped | main.cpp:50-53 | needs a non-empty loop; the result is a waypoint of the loop, and waypoint i itself when i is in range |
| Geometry.PointWrappedPeriodic | main.cpp:50-53 | index i + n gives the same waypoint as index i, so indexing is modulo the loop length |
| Geometry.OffsetSegment | main.cpp:55-78 | Unknown segment: returned unchanged; horizontal: both y unchanged; vertical: both x unchanged; otherwise the start moves exactly `offset` forwards from p1 and the end exactly `offset` back from p2, along the segment's direction |
| Geometry.OffsetSegmentByDirection | main.cpp:59-75 | for each of Right, Left, Down and Up, read off the raw coordinate comparisons, the trimmed segment is given outright: the start moves `offset` towards p2 and the end `offset` towards p1 on the segment's axis |
| Geometry.OffsetSegmentExample | main.cpp:59-75 | the segment (0, 0)-(100, 0) trimmed by 10 is (10, 0)-(90, 0) |
| Geometry.TrimStaysInside | main.cpp:59-75 | for 0 <= offset and 2*offset <= length, both trimmed ends lie on the original segment, the length drops by exactly 2*offset, and the direction is kept unless the ends meet |
| TrackOutline.MakeArc | main.cpp:91-100 | the arc starts at p1, and its relative control and end deltas added to the start give back p2 and p3 exactly |
| TrackOutline.MakeOutline | main.cpp:102-121 | the loop over i in 0..n appends line i then arc i, building exactly the outline (`Outline`) |
| TrackOutline.OutlinePrefixAt | main.cpp:106-119 | after k passes there are 2k primitives, and pass j's line and arc are at positions 2j and 2j+1 |
| TrackOutline.OutlineShape | main.cpp:106-119 | an outline over n waypoints has exactly 2n primitives, lines at even and arcs at odd positions (n of each, interleaved line then arc), all in the given style |
| TrackOutline.LineAt | main.cpp:107-111 | line i is the segment from waypoint i to waypoint (i+1) mod n, trimmed by the radius |
| TrackOutline.ArcContinuity | main.cpp:107-118 | arc i starts at line i's end, its control point is raw waypoint (i+1) mod n, and it ends at the start of line (i+1) mod n, including the wrap from the last waypoint to the first |
| TrackOutline.OutlineRestyle | main.cpp:102-121 | outlines with the same points and radius in two styles are equal primitive by primitive up to the style |
| Render.WriteSvg | main.cpp:139-143 | the document is the outside, then the inside, then the centerline outline, all with radius TURN_RADIUS |
| Render.TrackLayers | main.cpp:139-143 | the document has 6n primitives in three layers of 2n; layer 1 is in the outside style, and layers 2 and 3 are layer 1 primitive by primitive, restyled |
| Render.GenerateTrack | main.cpp:270-273 | the waypoints are normalised in place with PADDING, then the track is drawn over the normalised waypoints |
| Normalise.InvertYValues | main.cpp:197-206 | every y is negated and every x kept, in place |
| Normalise.InvertedYInvolution | main.cpp:203-205 | flipping y twice restores the waypoints |
| Normalise.FindMinValues | main.cpp:209-229 | (0, 0) for no points; otherwise minX and minY are at most every point's x and y and each is attained by some point; equal to `MinValues` |
| Normalise.MinValuesBounds | main.cpp:209-229 | the running-minimum definition gives (0, 0) for no points, lower bounds of all x and y, and values attained by some point |
| Normalise.OffsetPoints | main.cpp:232-243 | every point gets the same (dx, dy) added, in place |
| Normalise.TranslatedInverse | main.cpp:239-242 | translating by (-dx, -dy) undoes a translation by (dx, dy) |
| Normalise.MinValuesTranslated | main.cpp:209-243 | translating a non-empty set of points by (dx, dy) moves both minima by (dx, dy) |
| Normalise.CorrectPoints | main.cpp:245-255 | in place: flip y, take the minima of the flipped points, translate by (padding - minX, padding - minY) |
| Normalise.CorrectedMinimum | main.cpp:245-255 | normalisation keeps the number of points; for a non-empty vector the minimum x and minimum y are both exactly `padding`, and no point lies below it |

## Left out

- Reading waypoints from CSV (`readPointsFromCSV`) and from the console (`readPointsFromUserInput`): stream input and parse diagnostics.
- `printPoints`, the SVG header and footer, opening and closing the file, and the success and error messages in `writeSVG` and `main`: output plumbing. `WriteSvg` returns the primitives instead of writing them.
- The text that `makeLine` and `makeArc` produce, including how doubles are printed. `makeLine` is the `Line` constructor; `MakeArc` keeps the relative deltas.
- IEEE-754 rounding: coordinates are exact reals, so a sum that a double would round is exact here.
- The null-pointer returns at main.cpp:198, 211, 234 and 247: a Dafny `array` is never null, so the model has no null vector. The empty-vector return at main.cpp:211 is modelled: `FindMinValues` and `MinValues` give (0, 0). Its message "Invalid or empty input pointer." on the error stream (main.cpp:212) is not modelled.
- GenerateTrack: starts from a waypoint array that exists. When the CSV file cannot be opened, `readPointsFromCSV` returns null (main.cpp:159-162), `correctPoints` returns early, and `main` still passes the null vector to `writeSVG` (main.cpp:273), whose `makeOutline` dereferences it (main.cpp:106). That path is undefined behaviour in C++ and is not modelled.
- The style strings built by macros at main.cpp:18-26 are opaque tokens (`Render.Style`). `STARTLINE_STYLE` is never used and is not modelled.
- PointWrapped: takes a natural-number index. A negative `int` would be converted to an unsigned `size_t` before `%`; no caller passes one.
- Geometry.OffsetSegment: the offset is an unbounded integer. Negating `INT_MIN` is undefined in C++; that case is not modelled.
- TrackOutline.MakeOutline: loop indices are unbounded. The `size_t` index passed as an `int` to `getPointWrapped` is not modelled for loops of more than `INT_MAX - 2` waypoints.
