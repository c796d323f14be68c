/**
 * A clipping polygon: an immutable closed ring of at least three positions
 * and the rectangle that bounds it. Polygons are objects, so the collection
 * compares them by identity, never by their positions.
 */
module Polygons {
  import opened Geometry

  /** The positions of a ring; a polygon needs at least three. */
  type Ring = s: seq<Cartographic> | |s| >= 3
    witness [Cartographic(0, 0), Cartographic(0, 0), Cartographic(0, 0)]

  class ClippingPolygon {
    const positions: Ring

    /** Builds a polygon from its ring; a ring shorter than three positions is refused by its type. */
    constructor (positions: Ring)
      ensures this.positions == positions
    {
      this.positions := positions;
    }

    /** The number of positions in the ring: at least three. */
    function Count(): (n: nat)
      ensures n == |positions| && n >= 3
    {
      |positions|
    }

    /** The rectangle bounding the ring: well formed, and containing every position of it. */
    function Extent(): (e: Rectangle)
      ensures WellFormed(e)
      ensures forall i :: 0 <= i < |positions| ==> Contains(e, positions[i])
    {
      BoundingRectangle(positions)
    }
  }

  /** The rings of a sequence of polygons, in order. */
  function Rings(ps: seq<ClippingPolygon>): (rs: seq<Ring>)
    ensures |rs| == |ps|
    ensures forall i :: 0 <= i < |ps| ==> rs[i] == ps[i].positions
  {
    seq(|ps|, i requires 0 <= i < |ps| => ps[i].positions)
  }

  /** The bounding rectangles of a sequence of polygons, in order. */
  function Extents(ps: seq<ClippingPolygon>): (es: seq<Rectangle>)
    ensures |es| == |ps|
    ensures forall i :: 0 <= i < |ps| ==> es[i] == ps[i].Extent()
  {
    seq(|ps|, i requires 0 <= i < |ps| => ps[i].Extent())
  }

  /** The sum of the position counts of `ps`. */
  function TotalPositions(ps: seq<ClippingPolygon>): nat
    decreases |ps|
  {
    if |ps| == 0 then 0 else TotalPositions(ps[..|ps| - 1]) + ps[|ps| - 1].Count()
  }

  lemma {:induction false} TotalPositionsAppend(a: seq<ClippingPolygon>, b: seq<ClippingPolygon>)
    ensures TotalPositions(a + b) == TotalPositions(a) + TotalPositions(b)
    decreases |b|
  {
    if |b| > 0 {
      var b' := b[..|b| - 1];
      assert (a + b)[..|a + b| - 1] == a + b';
      TotalPositionsAppend(a, b');
    } else {
      assert a + b == a;
    }
  }

  /** Deleting the polygon at `k` lowers the total by its position count. */
  lemma {:induction false} TotalPositionsRemoveAt(ps: seq<ClippingPolygon>, k: nat)
    requires k < |ps|
    ensures TotalPositions(ps[..k] + ps[k + 1..]) == TotalPositions(ps) - ps[k].Count()
  {
    assert ps == ps[..k] + [ps[k]] + ps[k + 1..];
    TotalPositionsAppend(ps[..k] + [ps[k]], ps[k + 1..]);
    TotalPositionsAppend(ps[..k], [ps[k]]);
    TotalPositionsAppend(ps[..k], ps[k + 1..]);
    assert TotalPositions([ps[k]]) == ps[k].Count() by {
      assert [ps[k]][..0] == [];
    }
  }

  /** Every polygon has at least three positions, so the total is at least three per polygon. */
  lemma {:induction false} TotalPositionsLowerBound(ps: seq<ClippingPolygon>)
    ensures TotalPositions(ps) >= 3 * |ps|
    decreases |ps|
  {
    if |ps| > 0 {
      TotalPositionsLowerBound(ps[..|ps| - 1]);
    }
  }

  /** The index of the first occurrence of `p` in `ps`. */
  function FirstIndex(ps: seq<ClippingPolygon>, p: ClippingPolygon): (k: nat)
    requires p in ps
    ensures k < |ps| && ps[k] == p && p !in ps[..k]
    decreases |ps|
  {
    if ps[0] == p then 0 else 1 + FirstIndex(ps[1..], p)
  }
}
