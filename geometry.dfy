/**
 * Integer rectangle geometry of the tiling engine. A located object's rectangle is
 * `(x, y, width, height)` with INCLUSIVE far corner `(x + width - 1, y + height - 1)`;
 * the polygon the engine builds from it is the ring through those four corners.
 */
module Geometry {
  import opened Wrappers

  datatype Point = Point(x: int, y: int)

  /** The rectangle of a LocatedObject (also used for regions). */
  datatype Box = Box(x: int, y: int, width: int, height: int)

  /** An `(x0, y0, x1, y1)` tuple with inclusive corners. */
  datatype XYXY = XYXY(x0: int, y0: int, x1: int, y1: int)

  function Min(a: int, b: int): int { if a <= b then a else b }
  function Max(a: int, b: int): int { if a >= b then a else b }

  /** The inclusive corners of a rectangle. */
  function ToXYXY(b: Box): (c: XYXY)
    ensures c.x0 == b.x && c.y0 == b.y
    ensures c.x1 - c.x0 + 1 == b.width && c.y1 - c.y0 + 1 == b.height
  {
    XYXY(b.x, b.y, b.x + b.width - 1, b.y + b.height - 1)
  }

  /** The closed ring through the four corners, starting and ending at the top-left one. */
  function Corners(b: Box): (ring: seq<Point>)
    ensures |ring| == 5 && ring[0] == ring[4] == Point(b.x, b.y)
    ensures ring[2] == Point(ToXYXY(b).x1, ToXYXY(b).y1)
    ensures forall i :: 0 <= i < 5 ==>
      (ring[i].x == b.x || ring[i].x == b.x + b.width - 1) &&
      (ring[i].y == b.y || ring[i].y == b.y + b.height - 1)
  {
    var c := ToXYXY(b);
    [Point(c.x0, c.y0), Point(c.x1, c.y0), Point(c.x1, c.y1), Point(c.x0, c.y1), Point(c.x0, c.y0)]
  }

  /** Smallest and largest coordinate covered by `start .. start + len - 1`, in either direction. */
  function Lo(start: int, len: int): int { Min(start, start + len - 1) }
  function Hi(start: int, len: int): int { Max(start, start + len - 1) }

  /** Whether a point lies in the closed rectangle spanned by the ring of `b`. */
  predicate Covers(b: Box, px: int, py: int)
  {
    Lo(b.x, b.width) <= px <= Hi(b.x, b.width) && Lo(b.y, b.height) <= py <= Hi(b.y, b.height)
  }

  /**
   * Bounds of the intersection of the two closed rectangles spanned by the corner rings
   * (shapely's `intersection(...).bounds`), or None when they do not meet.
   */
  function Intersection(a: Box, r: Box): (c: Option<XYXY>)
    ensures c.Some? <==> exists px, py :: Covers(a, px, py) && Covers(r, px, py)
    ensures c.Some? ==> c.value.x0 <= c.value.x1 && c.value.y0 <= c.value.y1
    ensures c.Some? ==> forall px, py ::
      (Covers(a, px, py) && Covers(r, px, py)) <==> (c.value.x0 <= px <= c.value.x1 && c.value.y0 <= py <= c.value.y1)
  {
    var x0 := Max(Lo(a.x, a.width), Lo(r.x, r.width));
    var x1 := Min(Hi(a.x, a.width), Hi(r.x, r.width));
    var y0 := Max(Lo(a.y, a.height), Lo(r.y, r.height));
    var y1 := Min(Hi(a.y, a.height), Hi(r.y, r.height));
    if x0 <= x1 && y0 <= y1 then
      assert Covers(a, x0, y0) && Covers(r, x0, y0);
      Some(XYXY(x0, y0, x1, y1))
    else
      None
  }

  /** Shifts every point of a ring. */
  function Translate(ring: seq<Point>, dx: int, dy: int): (r: seq<Point>)
    ensures |r| == |ring|
    ensures forall i :: 0 <= i < |ring| ==> r[i] == Point(ring[i].x + dx, ring[i].y + dy)
  {
    seq(|ring|, i requires 0 <= i < |ring| => Point(ring[i].x + dx, ring[i].y + dy))
  }

  /** Translating back undoes a translation. */
  lemma TranslateInverse(ring: seq<Point>, dx: int, dy: int)
    ensures Translate(Translate(ring, dx, dy), -dx, -dy) == ring
  {
  }

  /** `overlapping_lines`: do the spans `(start, end)` of two lines share a coordinate? */
  function OverlappingLines(line1: (int, int), line2: (int, int)): bool
  {
    var (s1, e1) := line1;
    var (s2, e2) := line2;
    if s1 < s2 && e1 < s2 then false
    else if s1 > e2 && e1 > e2 then false
    else if s2 < s1 && e2 < s1 then false
    else if s2 > e1 && e2 > e1 then false
    else true
  }

  predicate InSpan(line: (int, int), c: int) { line.0 <= c <= line.1 }

  /** For spans given start-first, the test is exactly "the closed intervals share a coordinate". */
  lemma OverlappingLinesMeaning(line1: (int, int), line2: (int, int))
    requires line1.0 <= line1.1 && line2.0 <= line2.1
    ensures OverlappingLines(line1, line2) <==> (exists c :: InSpan(line1, c) && InSpan(line2, c))
  {
    if line1.0 <= line2.1 && line2.0 <= line1.1 {
      var c := Max(line1.0, line2.0);
      assert InSpan(line1, c) && InSpan(line2, c);
      assert OverlappingLines(line1, line2);
    } else {
      assert !OverlappingLines(line1, line2);
    }
  }

  /** The test does not depend on which line comes first. */
  lemma OverlappingLinesSymmetric(line1: (int, int), line2: (int, int))
    ensures OverlappingLines(line1, line2) == OverlappingLines(line2, line1)
  {
  }
}
