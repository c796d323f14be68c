/**
 * The extents merge: polygons are visited in collection order and each one
 * joins the first group whose (growing) rectangle overlaps its own, widening
 * that group's rectangle to cover it; a polygon that overlaps no group opens a
 * new one at the end. The shader then needs one extents record per group, not
 * per polygon.
 */
module ExtentsMerge {
  import opened Geometry

  /** One rectangle per group, and for every polygon the index of its group. */
  datatype Grouping = Grouping(extents: seq<Rectangle>, indices: seq<nat>)

  /** The index of the first rectangle of `extents` that overlaps `r`, or |extents| if none does. */
  function FirstOverlap(extents: seq<Rectangle>, r: Rectangle): (j: nat)
    ensures j <= |extents|
    ensures forall k :: 0 <= k < j ==> !Overlaps(extents[k], r)
    ensures j < |extents| ==> Overlaps(extents[j], r)
    decreases |extents|
  {
    if |extents| == 0 then 0
    else if Overlaps(extents[0], r) then 0
    else 1 + FirstOverlap(extents[1..], r)
  }

  /**
   * Adds one polygon rectangle to a grouping: the polygon is given the first
   * overlapping group, or a new group at the end, and the earlier polygons
   * keep their groups.
   */
  function Place(g: Grouping, r: Rectangle): (h: Grouping)
    ensures h.indices == g.indices + [FirstOverlap(g.extents, r)]
  {
    var j := FirstOverlap(g.extents, r);
    if j < |g.extents| then Grouping(g.extents[j := Union(g.extents[j], r)], g.indices + [j])
    else Grouping(g.extents + [r], g.indices + [j])
  }

  /**
   * Placing a rectangle adds a group only when none overlaps it, shrinks no
   * record, and the record the rectangle is given covers it.
   */
  lemma PlaceCovers(g: Grouping, r: Rectangle)
    ensures |Place(g, r).extents| == |g.extents| + (if FirstOverlap(g.extents, r) < |g.extents| then 0 else 1)
    ensures forall k :: 0 <= k < |g.extents| ==> Covers(Place(g, r).extents[k], g.extents[k])
    ensures Covers(Place(g, r).extents[FirstOverlap(g.extents, r)], r)
  {
  }

  /** The grouping of the polygon rectangles `rects`, taken in order. */
  function Merge(rects: seq<Rectangle>): (g: Grouping)
    ensures |g.indices| == |rects| && |g.extents| <= |rects|
    ensures |rects| > 0 ==> |g.extents| > 0
    decreases |rects|
  {
    if |rects| == 0 then Grouping([], [])
    else Place(Merge(rects[..|rects| - 1]), rects[|rects| - 1])
  }

  /**
   * What the packed buffers rely on: one index per polygon, every index names
   * an existing record, every record covers the rectangles of its members, and
   * no record is empty.
   */
  ghost predicate Sound(g: Grouping, rects: seq<Rectangle>) {
    && |g.indices| == |rects|
    && |g.extents| <= |rects|
    && (forall i :: 0 <= i < |rects| ==> g.indices[i] < |g.extents|)
    && (forall i :: 0 <= i < |rects| ==> Covers(g.extents[g.indices[i]], rects[i]))
    && (forall k :: 0 <= k < |g.extents| ==> HasMember(g.indices, k))
  }

  ghost predicate HasMember(indices: seq<nat>, k: nat) {
    exists i :: 0 <= i < |indices| && indices[i] == k
  }

  /** Groups are numbered in the order of their first members: a member of group k comes before any member of group k + 1. */
  ghost predicate FirstMemberOrder(indices: seq<nat>) {
    forall i :: 0 <= i < |indices| && indices[i] > 0 ==>
      exists j :: 0 <= j < i && indices[j] == indices[i] - 1
  }

  lemma {:induction false} MergeSound(rects: seq<Rectangle>)
    ensures Sound(Merge(rects), rects)
    decreases |rects|
  {
    if |rects| > 0 {
      var n := |rects| - 1;
      var pre, r := rects[..n], rects[n];
      MergeSound(pre);
      var g := Merge(pre);
      var h := Merge(rects);
      assert h == Place(g, r);
      var j := FirstOverlap(g.extents, r);
      assert h.indices == g.indices + [j];
      forall i | 0 <= i < |rects|
        ensures h.indices[i] < |h.extents| && Covers(h.extents[h.indices[i]], rects[i])
      {
        if i < n {
          assert rects[i] == pre[i];
          assert h.indices[i] == g.indices[i];
        }
      }
      forall k | 0 <= k < |h.extents|
        ensures HasMember(h.indices, k)
      {
        if k < |g.extents| {
          assert HasMember(g.indices, k);
          var i :| 0 <= i < |pre| && g.indices[i] == k;
          assert h.indices[i] == k;
        } else {
          assert h.indices[n] == k;
        }
      }
    }
  }

  lemma {:induction false} FirstMemberOrderExtend(xs: seq<nat>, x: nat)
    requires FirstMemberOrder(xs)
    requires x > 0 ==> HasMember(xs, x - 1)
    ensures FirstMemberOrder(xs + [x])
  {
    var ys := xs + [x];
    forall i | 0 <= i < |ys| && ys[i] > 0
      ensures exists j :: 0 <= j < i && ys[j] == ys[i] - 1
    {
      if i < |xs| {
        assert ys[i] == xs[i];
        var j :| 0 <= j < i && xs[j] == xs[i] - 1;
        assert ys[j] == ys[i] - 1;
      } else {
        var j :| 0 <= j < |xs| && xs[j] == x - 1;
        assert ys[j] == ys[i] - 1;
      }
    }
  }

  lemma {:induction false} MergeFirstMemberOrder(rects: seq<Rectangle>)
    ensures FirstMemberOrder(Merge(rects).indices)
    decreases |rects|
  {
    if |rects| > 0 {
      var n := |rects| - 1;
      var pre := rects[..n];
      MergeFirstMemberOrder(pre);
      MergeSound(pre);
      var g := Merge(pre);
      var j := FirstOverlap(g.extents, rects[n]);
      assert Merge(rects).indices == g.indices + [j];
      if 0 < j < |g.extents| {
        assert HasMember(g.indices, j);
        var m :| 0 <= m < |g.indices| && g.indices[m] == j;
        var m' :| 0 <= m' < m && g.indices[m'] == g.indices[m] - 1;
        assert HasMember(g.indices, j - 1);
      }
      FirstMemberOrderExtend(g.indices, j);
    }
  }

  /** Earlier polygons keep their group when later ones are added. */
  lemma {:induction false} MergePrefix(rects: seq<Rectangle>, m: nat)
    requires m <= |rects|
    ensures |Merge(rects).indices| == |rects|
    ensures Merge(rects).indices[..m] == Merge(rects[..m]).indices
    decreases |rects|
  {
    if m < |rects| {
      var n := |rects| - 1;
      var pre := rects[..n];
      MergePrefix(pre, m);
      assert pre[..m] == rects[..m];
      var ix := Merge(rects).indices;
      assert ix == Merge(pre).indices + [FirstOverlap(Merge(pre).extents, rects[n])];
      assert ix[..m] == Merge(pre).indices[..m];
    } else {
      assert rects[..m] == rects;
    }
  }

  /**
   * Overlapping rectangles share a record: a polygon whose rectangle overlaps
   * that of an earlier polygon is put in that polygon's group or in an earlier
   * one.
   */
  lemma OverlapJoinsEarlierGroup(rects: seq<Rectangle>, j: nat, i: nat)
    requires j < i < |rects| && Overlaps(rects[j], rects[i])
    ensures Merge(rects).indices[i] <= Merge(rects).indices[j]
  {
    var pre := rects[..i];
    var g := Merge(pre);
    MergeSound(pre);
    assert rects[..i + 1][..i] == pre;
    assert Merge(rects[..i + 1]) == Place(g, rects[i]);
    var gj := g.indices[j];
    assert Covers(g.extents[gj], rects[j]) by { assert pre[j] == rects[j]; }
    CoverPreservesOverlap(g.extents[gj], rects[j], rects[i]);
    var fo := FirstOverlap(g.extents, rects[i]);
    assert fo <= gj;
    MergePrefix(rects, i + 1);
    MergePrefix(rects, i);
    assert Merge(rects).indices[i] == Merge(rects).indices[..i + 1][i] == fo;
    assert Merge(rects).indices[j] == Merge(rects).indices[..i][j] == gj;
  }

  /** Two polygons with overlapping rectangles share record 0, which covers both. */
  lemma OverlappingPairShareRecord(a: Rectangle, b: Rectangle)
    requires Overlaps(a, b)
    ensures Merge([a, b]) == Grouping([Union(a, b)], [0, 0])
    ensures Covers(Merge([a, b]).extents[0], a) && Covers(Merge([a, b]).extents[0], b)
  {
    assert [a, b][..1] == [a];
    assert [a][..0] == [];
    assert Merge([a]) == Grouping([a], [0]);
    assert FirstOverlap([a], b) == 0;
  }

  /** Two polygons whose rectangles do not overlap get records 0 and 1. */
  lemma DisjointPairSeparateRecords(a: Rectangle, b: Rectangle)
    requires !Overlaps(a, b)
    ensures Merge([a, b]) == Grouping([a, b], [0, 1])
  {
    assert [a, b][..1] == [a];
    assert [a][..0] == [];
    assert Merge([a]) == Grouping([a], [0]);
    assert FirstOverlap([a], b) == 1 by {
      assert [a][1..] == [];
    }
  }

  /** The merge as the collection runs it: a loop over the polygons with an inner search for the first overlapping group. */
  method ComputeExtents(rects: seq<Rectangle>) returns (extents: seq<Rectangle>, indices: seq<nat>)
    ensures Grouping(extents, indices) == Merge(rects)
  {
    extents, indices := [], [];
    var i := 0;
    while i < |rects|
      invariant 0 <= i <= |rects|
      invariant Grouping(extents, indices) == Merge(rects[..i])
    {
      var r := rects[i];
      var j := 0;
      while j < |extents| && !Overlaps(extents[j], r)
        invariant 0 <= j <= |extents|
        invariant forall k :: 0 <= k < j ==> !Overlaps(extents[k], r)
      {
        j := j + 1;
      }
      assert j == FirstOverlap(extents, r);
      if j < |extents| {
        extents := extents[j := Union(extents[j], r)];
      } else {
        extents := extents + [r];
      }
      indices := indices + [j];
      assert rects[..i + 1][..i] == rects[..i];
      i := i + 1;
    }
    assert rects[..|rects|] == rects;
  }
}
