/**
 * The collection's documented behaviour, case by case: each method drives a
 * fresh collection through one usage sequence and its postcondition states
 * what that sequence observes. The polygon `positions` stands for any ring
 * of five positions; `positionsB` is built from its first, second and
 * fourth positions, so the two polygons' rectangles overlap.
 */
module Scenarios {
  import opened Geometry
  import opened Polygons
  import opened ExtentsMerge
  import opened Packing
  import opened Collection

  /** The ring of three positions taken from a ring of five. */
  function RingB(positions: Ring): (b: Ring)
    requires |positions| == 5
    ensures |b| == 3 && b[0] == positions[0] && b[1] == positions[1] && b[2] == positions[3]
  {
    [positions[0], positions[1], positions[3]]
  }

  /** Rings sharing a position have overlapping bounding rectangles. */
  lemma SharedPositionOverlap(a: seq<Cartographic>, b: seq<Cartographic>, i: nat, j: nat)
    requires i < |a| && j < |b| && a[i] == b[j]
    ensures Overlaps(BoundingRectangle(a), BoundingRectangle(b))
  {
    assert Contains(BoundingRectangle(a), a[i]);
    assert Contains(BoundingRectangle(b), b[j]);
  }

  /** A new collection is empty, enabled, not inverted, and holds no positions. */
  method DefaultScenario() returns (length: nat, enabled: bool, inverse: bool, totalPositions: nat)
    ensures length == 0 && enabled && !inverse && totalPositions == 0
  {
    var c := new ClippingPolygonCollection.Default();
    length, enabled, inverse, totalPositions := c.Length(), c.enabled, c.inverse, c.totalPositions;
  }

  /** Two additions, then the removal of the first added polygon. */
  method LengthScenario(positions: Ring) returns (before: nat, afterAdds: nat, afterRemove: nat)
    ensures before == 0 && afterAdds == 2 && afterRemove == 1
  {
    var c := new ClippingPolygonCollection.Default();
    before := c.Length();
    var p := new ClippingPolygon(positions);
    var first := c.Add(p);
    var q := new ClippingPolygon(positions);
    var second := c.Add(q);
    afterAdds := c.Length();
    var removed := c.Remove(first);
    afterRemove := c.Length();
  }

  /** Adding a polygon of five positions: one member, five positions in total. */
  method AddScenario(positions: Ring) returns (length: nat, totalPositions: nat)
    requires |positions| == 5
    ensures length == 1 && totalPositions == 5
  {
    var c := new ClippingPolygonCollection.Default();
    var p := new ClippingPolygon(positions);
    var added := c.Add(p);
    length, totalPositions := c.Length(), c.totalPositions;
  }

  /** Each addition raises polygonAdded with the polygon returned by add and its index. */
  method AddedEventsScenario(positions: Ring) returns (a: ClippingPolygon, b: ClippingPolygon, events: seq<CollectionEvent>)
    requires |positions| == 5
    ensures events == [PolygonAdded(a, 0), PolygonAdded(b, 1)]
  {
    var c := new ClippingPolygonCollection.Default();
    var p := new ClippingPolygon(positions);
    a := c.Add(p);
    var q := new ClippingPolygon(RingB(positions));
    b := c.Add(q);
    events := c.events;
  }

  /** get returns the members in the order they were given. */
  method GetScenario(positions: Ring) returns (a: ClippingPolygon, b: ClippingPolygon, first: Result<ClippingPolygon>, second: Result<ClippingPolygon>)
    requires |positions| == 5
    ensures first == Ok(a) && second == Ok(b)
  {
    a := new ClippingPolygon(positions);
    b := new ClippingPolygon(RingB(positions));
    var c := new ClippingPolygonCollection([a, b], true, false);
    first, second := c.Get(0), c.Get(1);
  }

  /**
   * contains is an identity test: a polygon with the very same positions as
   * the member, but which is another object, is not contained.
   */
  method ContainsScenario(positions: Ring) returns (member: bool, other: bool, twin: bool)
    requires |positions| == 5
    ensures member && !other && !twin
  {
    var a := new ClippingPolygon(positions);
    var b := new ClippingPolygon(RingB(positions));
    var t := new ClippingPolygon(positions);
    var c := new ClippingPolygonCollection([a], true, false);
    member := c.Contains(a);
    other := c.Contains(b);
    twin := c.Contains(t);
  }

  /** Removing the first member shifts the second down; removing it again reports false. */
  method RemoveScenario(positions: Ring) returns (b: ClippingPolygon, first: bool, contained: bool, length: nat, head: Result<ClippingPolygon>, again: bool)
    requires |positions| == 5
    ensures first && !contained && length == 1 && head == Ok(b) && !again
  {
    var a := new ClippingPolygon(positions);
    b := new ClippingPolygon(RingB(positions));
    var c := new ClippingPolygonCollection([a, b], true, false);
    first := c.Remove(a);
    contained := c.Contains(a);
    length, head := c.Length(), c.Get(0);
    again := c.Remove(a);
  }

  /** Removing the only member raises polygonRemoved with index 0. */
  method RemoveEventScenario(positions: Ring) returns (p: ClippingPolygon, events: seq<CollectionEvent>)
    ensures events == [PolygonRemoved(p, 0)]
  {
    p := new ClippingPolygon(positions);
    var c := new ClippingPolygonCollection([p], true, false);
    var removed := c.Remove(p);
    events := c.events;
  }

  /** removeAll empties the collection and raises polygonRemoved for each member with its original index. */
  method RemoveAllScenario(positions: Ring) returns (a: ClippingPolygon, b: ClippingPolygon, before: nat, after: nat, events: seq<CollectionEvent>)
    requires |positions| == 5
    ensures before == 2 && after == 0
    ensures events == [PolygonRemoved(a, 0), PolygonRemoved(b, 1)]
  {
    a := new ClippingPolygon(positions);
    b := new ClippingPolygon(RingB(positions));
    var c := new ClippingPolygonCollection([a, b], true, false);
    before := c.Length();
    c.RemoveAll();
    after := c.Length();
    events := c.events;
  }

  /** The buffers uploaded for one ring of five positions: one record in group 0, then padding. */
  lemma SingleRingUpload(ring: Ring, positions: seq<int>, extents: seq<int>)
    requires |ring| == 5 && |positions| > 12
    requires Uploaded([ring], [BoundingRectangle(ring)], positions, extents)
    ensures positions[0] == 5 && positions[1] == 0
    ensures positions[2] == ring[0].latitude && positions[3] == ring[0].longitude
    ensures positions[10] == ring[4].latitude && positions[11] == ring[4].longitude
    ensures positions[12] == 0
    ensures |extents| >= 8
    ensures extents[0] == BoundingRectangle(ring).south && extents[1] == BoundingRectangle(ring).west
    ensures extents[2] == LatitudeSpan(BoundingRectangle(ring)) && extents[3] == LongitudeSpan(BoundingRectangle(ring))
    ensures forall j :: 4 <= j < 8 ==> extents[j] == 0
  {
    var r := BoundingRectangle(ring);
    assert [r][..0] == [];
    assert Merge([r]) == Grouping([r], [0]);
    SinglePolygonLayoutExample(ring, |positions|);
    ExtentsLayoutAt([r], |extents|, 0);
  }

  /** The position total, the rings and the rectangles of a single polygon. */
  lemma Singleton(p: ClippingPolygon)
    ensures TotalPositions([p]) == |p.positions|
    ensures Rings([p]) == [p.positions] && Extents([p]) == [p.Extent()]
  {
    assert [p][..0] == [];
  }

  /**
   * The buffers uploaded for a ring of five positions and the ring of three
   * of them: both records name group 0, whose record is that of the larger
   * rectangle, which covers the smaller.
   */
  lemma OverlappingRingsUpload(ring: Ring, positions: seq<int>, extents: seq<int>)
    requires |ring| == 5 && |positions| > 20
    requires Uploaded([ring, RingB(ring)], [BoundingRectangle(ring), BoundingRectangle(RingB(ring))], positions, extents)
    ensures positions[1] == 0 && positions[12] == 3 && positions[13] == 0 && positions[20] == 0
    ensures |extents| >= 8
    ensures extents[0] == BoundingRectangle(ring).south && extents[1] == BoundingRectangle(ring).west
    ensures extents[2] == LatitudeSpan(BoundingRectangle(ring)) && extents[3] == LongitudeSpan(BoundingRectangle(ring))
    ensures forall j :: 4 <= j < 8 ==> extents[j] == 0
  {
    var b := RingB(ring);
    var ra, rb := BoundingRectangle(ring), BoundingRectangle(b);
    SharedPositionOverlap(ring, b, 0, 0);
    OverlappingPairShareRecord(ra, rb);
    assert forall i :: 0 <= i < |b| ==> Contains(ra, b[i]);
    BoundingRectangleLeast(b, ra);
    assert Union(ra, rb) == ra;
    TwoPolygonLayoutExample(ring, b, |positions|);
    ExtentsLayoutAt([ra], |extents|, 0);
  }

  /** The same, for a collection of two such polygons whose buffers are in sync with them. */
  lemma OverlappingPairUpload(a: ClippingPolygon, b: ClippingPolygon, g: Gpu, positions: seq<int>, extents: seq<int>)
    requires |a.positions| == 5 && b.positions == RingB(a.positions)
    requires InSync([a, b], g, positions, extents)
    ensures |positions| > 20
    ensures positions[1] == 0 && positions[12] == 3 && positions[13] == 0 && positions[20] == 0
    ensures |extents| >= 8
    ensures extents[0] == a.Extent().south && extents[1] == a.Extent().west
    ensures extents[2] == LatitudeSpan(a.Extent()) && extents[3] == LongitudeSpan(a.Extent())
    ensures forall j :: 4 <= j < 8 ==> extents[j] == 0
  {
    assert [a, b][..1] == [a] && [a][..0] == [];
    assert TotalPositions([a]) == 5;
    assert TotalPositions([a, b]) == 8;
    assert Rings([a, b]) == [a.positions, b.positions] && Extents([a, b]) == [a.Extent(), b.Extent()];
    OverlappingRingsUpload(a.positions, positions, extents);
  }

  /** With float textures unavailable, update fails, even on an empty collection. */
  method UnsupportedUpdateScenario() returns (r: Outcome)
    ensures r == Fail(Unsupported)
  {
    var c := new ClippingPolygonCollection.Default();
    r := c.Update(Context(false, 64));
  }

  /** Updating an empty collection creates no texture and no compute command. */
  method EmptyUpdateScenario() returns (r: Outcome, polygonsTexture: Option<Texture>, extentsTexture: Option<Texture>,
                                      clippingTexture: Option<Texture>, commandPending: bool)
    ensures r == Pass
    ensures polygonsTexture.None? && extentsTexture.None? && clippingTexture.None? && !commandPending
  {
    var c := new ClippingPolygonCollection.Default();
    r := c.Update(Context(true, 64));
    polygonsTexture, extentsTexture, clippingTexture := c.gpu.polygonsTexture, c.gpu.extentsTexture, c.gpu.clippingTexture;
    commandPending := c.gpu.commandPending;
  }

  /** Updating a collection with one polygon creates all three textures, with positive sizes, and the command. */
  method ResourcesUpdateScenario(positions: Ring) returns (r: Outcome, polygonsTexture: Option<Texture>, extentsTexture: Option<Texture>,
                                                           clippingTexture: Option<Texture>, commandPending: bool)
    ensures r == Pass && commandPending
    ensures polygonsTexture.Some? && polygonsTexture.value.width > 0 && polygonsTexture.value.height > 0
    ensures extentsTexture.Some? && extentsTexture.value.width > 0 && extentsTexture.value.height > 0
    ensures clippingTexture.Some? && clippingTexture.value.width > 0 && clippingTexture.value.height > 0
  {
    var p := new ClippingPolygon(positions);
    var c := new ClippingPolygonCollection([p], true, false);
    r := c.Update(Context(true, 64));
    polygonsTexture, extentsTexture, clippingTexture := c.gpu.polygonsTexture, c.gpu.extentsTexture, c.gpu.clippingTexture;
    commandPending := c.gpu.commandPending;
  }

  /** The positions buffer of one polygon of five positions. */
  method PackedPositionsScenario(positions: Ring) returns (view: seq<int>)
    requires |positions| == 5
    ensures |view| > 12
    ensures view[0] == 5 && view[1] == 0
    ensures view[2] == positions[0].latitude && view[3] == positions[0].longitude
    ensures view[10] == positions[4].latitude && view[11] == positions[4].longitude
    ensures view[12] == 0
  {
    var p := new ClippingPolygon(positions);
    var c := new ClippingPolygonCollection([p], true, false);
    var r := c.Update(Context(true, 64));
    view := c.positionsView[..];
    Singleton(p);
    SingleRingUpload(positions, view, c.extentsView[..]);
  }

  /** The extents buffer of one polygon: south, west, the two spans, four zeros. */
  method PackedExtentsScenario(positions: Ring) returns (view: seq<int>)
    requires |positions| == 5
    ensures |view| >= 8
    ensures view[0] == BoundingRectangle(positions).south && view[1] == BoundingRectangle(positions).west
    ensures view[2] == LatitudeSpan(BoundingRectangle(positions)) && view[3] == LongitudeSpan(BoundingRectangle(positions))
    ensures view[4] == 0 && view[5] == 0 && view[6] == 0 && view[7] == 0
  {
    var p := new ClippingPolygon(positions);
    var c := new ClippingPolygonCollection([p], true, false);
    var r := c.Update(Context(true, 64));
    view := c.extentsView[..];
    Singleton(p);
    SingleRingUpload(positions, c.positionsView[..], view);
  }

  /** Two polygons with overlapping rectangles: both records name group 0, and the one group record is that of the first. */
  method CombinedExtentsScenario(positions: Ring) returns (positionsView: seq<int>, extentsView: seq<int>)
    requires |positions| == 5
    ensures |positionsView| > 13 && positionsView[1] == 0 && positionsView[13] == 0
    ensures |extentsView| >= 8
    ensures extentsView[0] == BoundingRectangle(positions).south && extentsView[1] == BoundingRectangle(positions).west
    ensures extentsView[2] == LatitudeSpan(BoundingRectangle(positions)) && extentsView[3] == LongitudeSpan(BoundingRectangle(positions))
    ensures extentsView[4] == 0 && extentsView[5] == 0 && extentsView[6] == 0 && extentsView[7] == 0
  {
    var a := new ClippingPolygon(positions);
    var b := new ClippingPolygon(RingB(positions));
    var c := new ClippingPolygonCollection([a, b], true, false);
    var r := c.Update(Context(true, 64));
    positionsView, extentsView := c.positionsView[..], c.extentsView[..];
    OverlappingPairUpload(a, b, c.gpu, positionsView, extentsView);
  }

  /** A second update with no change in between uploads nothing. */
  method NoReuploadScenario(positions: Ring) returns (first: nat, second: nat)
    ensures first == 2 && second == first
  {
    var p := new ClippingPolygon(positions);
    var c := new ClippingPolygonCollection([p], true, false);
    var r := c.Update(Context(true, 64));
    first := c.gpu.uploads;
    r := c.Update(Context(true, 64));
    second := c.gpu.uploads;
  }

  /** Attaching an updated collection is no change to it: the next update uploads nothing. */
  method AttachedNoReuploadScenario(positions: Ring) returns (first: nat, second: nat)
    ensures first == 2 && second == first
  {
    var p := new ClippingPolygon(positions);
    var o := new Owner();
    var c := new ClippingPolygonCollection([p], true, false);
    var r := c.Update(Context(true, 64));
    first := c.gpu.uploads;
    var attached := ClippingPolygonCollection.SetOwner(c, o, "polygons");
    r := c.Update(Context(true, 64));
    second := c.gpu.uploads;
  }

  /** Attaching a collection sets the owner's property and the collection's owner. */
  method AttachScenario(positions: Ring) returns (attached: bool, ownerSet: bool)
    ensures attached && ownerSet
  {
    var p := new ClippingPolygon(positions);
    var o := new Owner();
    var c := new ClippingPolygonCollection([p], false, false);
    var r := ClippingPolygonCollection.SetOwner(c, o, "polygons");
    attached := "polygons" in o.properties && o.properties["polygons"] == c;
    ownerSet := c.owner == o;
  }

  /** Attaching another collection under the same name destroys the one it replaces; re-attaching that one destroys nothing. */
  method ReplaceScenario(positions: Ring) returns (replacedDestroyed: bool, reattachedDestroyed: bool)
    ensures replacedDestroyed && !reattachedDestroyed
  {
    var p := new ClippingPolygon(positions);
    var o := new Owner();
    var c1 := new ClippingPolygonCollection([p], false, false);
    var r := ClippingPolygonCollection.SetOwner(c1, o, "polygons");
    var c2 := new ClippingPolygonCollection([p], false, false);
    r := ClippingPolygonCollection.SetOwner(c2, o, "polygons");
    replacedDestroyed := c1.IsDestroyed();
    r := ClippingPolygonCollection.SetOwner(c2, o, "polygons");
    reattachedDestroyed := c2.IsDestroyed();
  }

  /** A collection that already has an owner cannot be attached to a second object. */
  method AttachElsewhereScenario(positions: Ring) returns (elsewhere: Outcome)
    ensures elsewhere == Fail(AlreadyOwned)
  {
    var p := new ClippingPolygon(positions);
    var first := new Owner();
    var second := new Owner();
    var c := new ClippingPolygonCollection([p], false, false);
    var r := ClippingPolygonCollection.SetOwner(c, first, "polygons");
    elsewhere := ClippingPolygonCollection.SetOwner(c, second, "polygons");
  }

  /** Before any texture exists, one polygon needs a 64 x 64 distance texture and a 1 x 2 extents texture when the maximum size is 64. */
  method ResolutionScenario(positions: Ring) returns (distance: Texture, extents: Texture)
    ensures distance == Texture(64, 64) && extents == Texture(1, 2)
  {
    var p := new ClippingPolygon(positions);
    var c := new ClippingPolygonCollection([p], true, false);
    var ctx := Context(true, 64);
    distance := ClippingDistanceResolution(ctx.maximumTextureSize);
    extents := ClippingPolygonCollection.ClippingExtentsTextureResolution(c, ctx);
    OnePolygonExtentsResolution(c);
    ExtentsResolutionExample();
  }

  /**
   * The bounding region of the polygon's positions, any sphere reaching one
   * of its positions and a box through its positions: an empty collection is
   * outside them (inside when inverted); once the polygon is added, each of
   * them intersects it, whatever the inversion.
   */
  method IntersectionScenario(positions: Ring, inverse: bool, center: Cartographic, radius: nat)
    returns (empty: Intersect, region: Intersect, sphere: Intersect, box: Intersect)
    requires exists i :: (0 <= i < |positions| &&
      Abs(positions[i].longitude - center.longitude) <= radius && Abs(positions[i].latitude - center.latitude) <= radius)
    ensures empty == (if inverse then Inside else Outside)
    ensures region == Intersecting && sphere == Intersecting && box == Intersecting
  {
    var c := new ClippingPolygonCollection([], true, inverse);
    var rect := BoundingRectangle(positions);
    empty := c.ComputeIntersectionWithBoundingVolume(Region(rect));
    var p := new ClippingPolygon(positions);
    var added := c.Add(p);
    assert c.polygons[0] == p;
    assert Overlaps(p.Extent(), rect);
    region := c.ComputeIntersectionWithBoundingVolume(Region(rect));
    var i :| 0 <= i < |positions| &&
      Abs(positions[i].longitude - center.longitude) <= radius && Abs(positions[i].latitude - center.latitude) <= radius;
    assert Contains(VolumeRectangle(Sphere(center, radius)), positions[i]);
    assert Contains(p.Extent(), positions[i]);
    assert Overlaps(p.Extent(), VolumeRectangle(Sphere(center, radius)));
    sphere := c.ComputeIntersectionWithBoundingVolume(Sphere(center, radius));
    box := c.ComputeIntersectionWithBoundingVolume(OrientedBox(positions));
  }
}
