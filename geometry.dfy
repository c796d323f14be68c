/**
 * Geographic positions and rectangles. Coordinates are integers standing for
 * angles in a fixed-point unit; the model never needs their floating-point
 * values, only their order.
 */
module Geometry {

  /** A position on the globe. */
  datatype Cartographic = Cartographic(longitude: int, latitude: int)

  /** A longitude/latitude rectangle; well formed when west <= east and south <= north. */
  datatype Rectangle = Rectangle(west: int, south: int, east: int, north: int)

  predicate WellFormed(r: Rectangle) {
    r.west <= r.east && r.south <= r.north
  }

  predicate Contains(r: Rectangle, p: Cartographic) {
    r.west <= p.longitude <= r.east && r.south <= p.latitude <= r.north
  }

  /** `outer` includes every point of `inner`. */
  predicate Covers(outer: Rectangle, inner: Rectangle) {
    outer.west <= inner.west && inner.east <= outer.east &&
    outer.south <= inner.south && inner.north <= outer.north
  }

  /** The two closed rectangles share at least one point. */
  predicate Overlaps(a: Rectangle, b: Rectangle) {
    a.west <= b.east && b.west <= a.east && a.south <= b.north && b.south <= a.north
  }

  function Min(a: int, b: int): int { if a <= b then a else b }
  function Max(a: int, b: int): int { if a <= b then b else a }

  /** The smallest rectangle covering both arguments. */
  function Union(a: Rectangle, b: Rectangle): (u: Rectangle)
    ensures Covers(u, a) && Covers(u, b)
    ensures forall r :: Covers(r, a) && Covers(r, b) ==> Covers(r, u)
    ensures WellFormed(a) || WellFormed(b) ==> WellFormed(u)
  {
    Rectangle(Min(a.west, b.west), Min(a.south, b.south), Max(a.east, b.east), Max(a.north, b.north))
  }

  function PointRectangle(p: Cartographic): Rectangle {
    Rectangle(p.longitude, p.latitude, p.longitude, p.latitude)
  }

  /** The bounding rectangle of a non-empty set of points. */
  function BoundingRectangle(points: seq<Cartographic>): (r: Rectangle)
    requires |points| > 0
    ensures WellFormed(r)
    ensures forall i :: 0 <= i < |points| ==> Contains(r, points[i])
    decreases |points|
  {
    if |points| == 1 then PointRectangle(points[0])
    else Union(PointRectangle(points[0]), BoundingRectangle(points[1..]))
  }

  /** Each side of the bounding rectangle is attained by one of the points. */
  lemma {:induction false} BoundingRectangleTight(points: seq<Cartographic>)
    requires |points| > 0
    ensures exists i :: 0 <= i < |points| && points[i].longitude == BoundingRectangle(points).west
    ensures exists i :: 0 <= i < |points| && points[i].longitude == BoundingRectangle(points).east
    ensures exists i :: 0 <= i < |points| && points[i].latitude == BoundingRectangle(points).south
    ensures exists i :: 0 <= i < |points| && points[i].latitude == BoundingRectangle(points).north
    decreases |points|
  {
    if |points| > 1 {
      var tail := points[1..];
      BoundingRectangleTight(tail);
      var r, t := BoundingRectangle(points), BoundingRectangle(tail);
      var w :| 0 <= w < |tail| && tail[w].longitude == t.west;
      var e :| 0 <= e < |tail| && tail[e].longitude == t.east;
      var s :| 0 <= s < |tail| && tail[s].latitude == t.south;
      var n :| 0 <= n < |tail| && tail[n].latitude == t.north;
      assert points[w + 1] == tail[w] && points[e + 1] == tail[e];
      assert points[s + 1] == tail[s] && points[n + 1] == tail[n];
      var iw := if points[0].longitude <= t.west then 0 else w + 1;
      var ie := if t.east <= points[0].longitude then 0 else e + 1;
      var iS := if points[0].latitude <= t.south then 0 else s + 1;
      var iN := if t.north <= points[0].latitude then 0 else n + 1;
      assert points[iw].longitude == r.west && points[ie].longitude == r.east;
      assert points[iS].latitude == r.south && points[iN].latitude == r.north;
    } else {
      assert BoundingRectangle(points) == PointRectangle(points[0]);
    }
  }

  /** The bounding rectangle is the least one containing the points: any rectangle containing them all covers it. */
  lemma {:induction false} BoundingRectangleLeast(points: seq<Cartographic>, r: Rectangle)
    requires |points| > 0
    requires forall i :: 0 <= i < |points| ==> Contains(r, points[i])
    ensures Covers(r, BoundingRectangle(points))
    decreases |points|
  {
    if |points| > 1 {
      assert forall i :: 0 <= i < |points| - 1 ==> points[1..][i] == points[i + 1];
      BoundingRectangleLeast(points[1..], r);
    }
  }

  /** A rectangle covering `a` overlaps everything `a` overlaps. */
  lemma CoverPreservesOverlap(big: Rectangle, a: Rectangle, b: Rectangle)
    requires Covers(big, a) && Overlaps(a, b)
    ensures Overlaps(big, b) && Overlaps(b, big)
  {
  }
}
