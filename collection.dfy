/**
 * ClippingPolygonCollection: the ordered set of clipping polygons of a
 * clipped object, its add/remove events, the packed buffers it uploads on
 * update (with dirty tracking), its ownership protocol and its coarse
 * intersection test against bounding volumes.
 *
 * The GPU is abstracted: a texture is only its resolution, an upload is a
 * tick of the ghost counter `uploads`, and the signed-distance compute
 * command is only "pending" or not.
 */
module Collection {
  import opened Geometry
  import opened Polygons
  import opened ExtentsMerge
  import opened Packing

  datatype Option<T> = None | Some(value: T)

  /** The errors the collection raises. */
  datatype Error =
    | Unsupported      // float textures are not available
    | IndexOutOfRange  // get with an index outside 0 .. length - 1
    | AlreadyOwned     // setOwner with a collection that already has another owner

  datatype Result<T> = Ok(value: T) | Err(error: Error)

  datatype Outcome = Pass | Fail(error: Error)

  /** What the polygonAdded and polygonRemoved events deliver to their listeners. */
  datatype CollectionEvent =
    | PolygonAdded(polygon: ClippingPolygon, index: nat)
    | PolygonRemoved(polygon: ClippingPolygon, index: nat)

  /** The removal events for the members `ps`, each with its own index, in ascending order. */
  function RemovedEvents(ps: seq<ClippingPolygon>): (es: seq<CollectionEvent>)
    ensures |es| == |ps|
    ensures forall i :: 0 <= i < |ps| ==> es[i] == PolygonRemoved(ps[i], i)
  {
    seq(|ps|, i requires 0 <= i < |ps| => PolygonRemoved(ps[i], i))
  }

  type TextureSize = n: nat | n >= 1 witness 1

  /** The parts of the rendering context the collection consults. */
  datatype Context = Context(floatTextures: bool, maximumTextureSize: TextureSize)

  /** The capability query: polygon clipping is supported exactly when the context offers float textures. */
  predicate IsSupported(ctx: Context): (b: bool)
    ensures b <==> ctx.floatTextures
  {
    ctx.floatTextures
  }

  datatype Intersect = Inside | Outside | Intersecting

  type PointSet = s: seq<Cartographic> | |s| > 0 witness [Cartographic(0, 0)]

  /**
   * The three tile bounding volumes. Each is reduced to a geographic
   * rectangle before it is compared with the polygons.
   */
  datatype BoundingVolume =
    | Region(rectangle: Rectangle)
    | Sphere(center: Cartographic, radius: nat)
    | OrientedBox(corners: PointSet)

  function Abs(x: int): nat {
    if x < 0 then -x else x
  }

  /**
   * The rectangle a bounding volume is compared by: a region's own rectangle;
   * for a sphere, exactly the positions within `radius` of the centre in both
   * longitude and latitude; for a box, the least rectangle holding its corners.
   */
  function VolumeRectangle(v: BoundingVolume): (u: Rectangle)
    ensures v.Region? ==> u == v.rectangle
    ensures v.Sphere? ==> WellFormed(u) && forall q :: Contains(u, q) <==>
      Abs(q.longitude - v.center.longitude) <= v.radius && Abs(q.latitude - v.center.latitude) <= v.radius
    ensures v.OrientedBox? ==> WellFormed(u) && forall i :: 0 <= i < |v.corners| ==> Contains(u, v.corners[i])
    ensures v.OrientedBox? ==> forall r :: (forall i :: 0 <= i < |v.corners| ==> Contains(r, v.corners[i])) ==> Covers(r, u)
  {
    match v
    case Region(r) => r
    case Sphere(c, radius) =>
      Rectangle(c.longitude - radius, c.latitude - radius, c.longitude + radius, c.latitude + radius)
    case OrientedBox(corners) =>
      assert forall r :: (forall i :: 0 <= i < |corners| ==> Contains(r, corners[i])) ==> Covers(r, BoundingRectangle(corners)) by {
        forall r | forall i :: 0 <= i < |corners| ==> Contains(r, corners[i]) {
          BoundingRectangleLeast(corners, r);
        }
      }
      BoundingRectangle(corners)
  }

  /** Some polygon of `ps` has a rectangle overlapping `r`. */
  ghost predicate AnyOverlap(ps: seq<ClippingPolygon>, r: Rectangle) {
    exists j :: 0 <= j < |ps| && Overlaps(ps[j].Extent(), r)
  }

  /** The polygons texture after an update: the current one while it is large enough, a new one otherwise. */
  function ChoosePolygonsTexture(current: Option<Texture>, polygonCount: nat, totalPositions: nat, maxSize: TextureSize): (t: Texture)
    requires polygonCount >= 1
    ensures t.width >= 1 && t.height >= 1
    ensures PositionsFit(t, polygonCount, totalPositions)
    ensures (current.Some? && current.value.width >= 1 && current.value.height >= 1
             && PositionsFit(current.value, polygonCount, totalPositions)) ==> t == current.value
    ensures current.None? || !PositionsFit(current.value, polygonCount, totalPositions) ==>
      t == PolygonsTextureResolution(polygonCount, totalPositions, maxSize)
  {
    if current.Some? && current.value.width >= 1 && current.value.height >= 1
      && PositionsFit(current.value, polygonCount, totalPositions)
    then current.value
    else PolygonsTextureResolution(polygonCount, totalPositions, maxSize)
  }

  /** The extents texture after an update: the current one while it holds every group record, a new one otherwise. */
  function ChooseExtentsTexture(current: Option<Texture>, groupCount: nat, maxSize: TextureSize): (t: Texture)
    requires groupCount >= 1
    ensures t.width >= 1 && t.height >= 1
    ensures ExtentsFit(t, groupCount)
    ensures (current.Some? && current.value.width >= 1 && current.value.height >= 1
             && ExtentsFit(current.value, groupCount)) ==> t == current.value
    ensures current.None? || !ExtentsFit(current.value, groupCount) ==>
      t == ExtentsTextureResolution(groupCount, maxSize)
  {
    if current.Some? && current.value.width >= 1 && current.value.height >= 1
      && ExtentsFit(current.value, groupCount)
    then current.value
    else ExtentsTextureResolution(groupCount, maxSize)
  }

  /** The signed-distance texture: created once, then kept. */
  function ChooseClippingTexture(current: Option<Texture>, maxSize: TextureSize): (t: Texture)
    ensures t.width >= 1 && t.height >= 1
    ensures (current.Some? && current.value.width >= 1 && current.value.height >= 1) ==> t == current.value
    ensures current.None? ==> t == ClippingDistanceResolution(maxSize)
  {
    if current.Some? && current.value.width >= 1 && current.value.height >= 1 then current.value
    else ClippingDistanceResolution(maxSize)
  }

  /**
   * The buffers `positions` and `extents` hold exactly the packed records of
   * polygons with rings `rings` and rectangles `rects`: both are large enough,
   * and they are the position and group layouts of the merge of `rects`.
   */
  ghost predicate Uploaded(rings: seq<Ring>, rects: seq<Rectangle>, positions: seq<int>, extents: seq<int>) {
    var g := Merge(rects);
    && |rects| == |rings|
    && RecordsSize(rings) <= |positions|
    && 8 * |g.extents| <= |extents|
    && positions == PositionsLayout(rings, g.indices, |positions|)
    && extents == ExtentsLayout(g.extents, |extents|)
  }

  /** Packs the members' rings and group rectangles into the two views, in place. */
  method PackBuffers(rings: seq<Ring>, rects: seq<Rectangle>, positions: array<int>, extents: array<int>)
    requires |rects| == |rings| && positions != extents
    requires RecordsSize(rings) <= positions.Length && 8 * |Merge(rects).extents| <= extents.Length
    modifies positions, extents
    ensures Uploaded(rings, rects, positions[..], extents[..])
  {
    var groupExtents, indices := ComputeExtents(rects);
    PackPositions(positions, rings, indices);
    PackExtents(extents, groupExtents);
  }

  /**
   * The GPU side of a collection: its three textures, whether the
   * signed-distance compute command is queued, and how many buffer uploads
   * have been made so far.
   */
  datatype Gpu = Gpu(
    polygonsTexture: Option<Texture>,
    extentsTexture: Option<Texture>,
    clippingTexture: Option<Texture>,
    commandPending: bool,
    uploads: nat)

  /** The GPU state after every texture is released and the command dropped; the upload count stays. */
  function Released(g: Gpu): (r: Gpu)
    ensures r.polygonsTexture.None? && r.extentsTexture.None? && r.clippingTexture.None?
    ensures !r.commandPending && r.uploads == g.uploads
  {
    g.(polygonsTexture := None, extentsTexture := None, clippingTexture := None, commandPending := false)
  }

  /**
   * The GPU state after a dirty update of the non-empty members `ps`: each
   * texture kept or replaced as the Choose functions say, the command queued,
   * and two more uploads.
   */
  function Rebuilt(g: Gpu, ps: seq<ClippingPolygon>, maxSize: TextureSize): (r: Gpu)
    requires |ps| > 0
    ensures r.polygonsTexture.Some? && r.extentsTexture.Some? && r.clippingTexture.Some?
    ensures r.polygonsTexture.value.width >= 1 && r.polygonsTexture.value.height >= 1
    ensures r.extentsTexture.value.width >= 1 && r.extentsTexture.value.height >= 1
    ensures r.clippingTexture.value.width >= 1 && r.clippingTexture.value.height >= 1
    ensures PositionsFit(r.polygonsTexture.value, |ps|, TotalPositions(ps))
    ensures ExtentsFit(r.extentsTexture.value, |Merge(Extents(ps)).extents|)
    ensures r.commandPending && r.uploads == g.uploads + 2
  {
    Gpu(Some(ChoosePolygonsTexture(g.polygonsTexture, |ps|, TotalPositions(ps), maxSize)),
        Some(ChooseExtentsTexture(g.extentsTexture, |Merge(Extents(ps)).extents|, maxSize)),
        Some(ChooseClippingTexture(g.clippingTexture, maxSize)),
        true,
        g.uploads + 2)
  }

  /** All three textures exist and have positive sizes. */
  predicate HasTextures(g: Gpu) {
    && g.polygonsTexture.Some? && g.extentsTexture.Some? && g.clippingTexture.Some?
    && g.polygonsTexture.value.width >= 1 && g.polygonsTexture.value.height >= 1
    && g.extentsTexture.value.width >= 1 && g.extentsTexture.value.height >= 1
    && g.clippingTexture.value.width >= 1 && g.clippingTexture.value.height >= 1
  }

  /** No texture exists and no command is queued. */
  predicate Idle(g: Gpu) {
    g.polygonsTexture.None? && g.extentsTexture.None? && g.clippingTexture.None? && !g.commandPending
  }

  /**
   * The GPU state `g` and the uploaded buffers reflect the members `ps`:
   * nothing exists for no members; otherwise all textures exist, are large
   * enough, a compute command is pending, and the buffers, sized for their
   * textures, are exactly the packed layout of the members.
   */
  ghost predicate InSync(ps: seq<ClippingPolygon>, g: Gpu, positions: seq<int>, extents: seq<int>) {
    if |ps| == 0 then Idle(g)
    else
      && HasTextures(g) && g.commandPending
      && |positions| == 2 * Texels(g.polygonsTexture.value)
      && |extents| == 4 * Texels(g.extentsTexture.value)
      && PositionsFit(g.polygonsTexture.value, |ps|, TotalPositions(ps))
      && ExtentsFit(g.extentsTexture.value, |Merge(Extents(ps)).extents|)
      && Uploaded(Rings(ps), Extents(ps), positions, extents)
  }

  /** An object that clipping collections can be attached to, under a property name. */
  class Owner {
    var properties: map<string, ClippingPolygonCollection>

    constructor ()
      ensures properties == map[]
    {
      properties := map[];
    }
  }

  class ClippingPolygonCollection {
    var polygons: seq<ClippingPolygon>
    var enabled: bool
    var inverse: bool
    var totalPositions: nat
    var events: seq<CollectionEvent>
    var dirty: bool
    var gpu: Gpu
    var positionsView: array<int>
    var extentsView: array<int>
    var owner: Owner?
    var destroyed: bool

    /** The three textures exist, have positive sizes, and the two float views match them. */
    ghost predicate Allocated()
      reads this
    {
      && HasTextures(gpu)
      && positionsView.Length == 2 * Texels(gpu.polygonsTexture.value)
      && extentsView.Length == 4 * Texels(gpu.extentsTexture.value)
    }

    ghost predicate NoResources()
      reads this
    {
      Idle(gpu)
    }

    /** The merge groups of the current members. */
    ghost function Groups(): Grouping
      reads this
    {
      Merge(Extents(polygons))
    }

    /** The GPU side and the uploaded buffers reflect the current members. */
    ghost predicate Synced()
      reads this, positionsView, extentsView
    {
      InSync(polygons, gpu, positionsView[..], extentsView[..])
    }

    /**
     * The bookkeeping that holds in every state: the cached position total,
     * two distinct buffers, and the three textures created and released
     * together, with the buffers sized for them.
     */
    ghost predicate Consistent()
      reads this
    {
      && totalPositions == TotalPositions(polygons)
      && positionsView != extentsView
      && gpu.polygonsTexture.Some? == gpu.extentsTexture.Some? == gpu.clippingTexture.Some?
      && (gpu.polygonsTexture.Some? ==> Allocated())
      && (destroyed ==> NoResources())
    }

    /** Consistent, and in sync with the members whenever no change is pending. */
    ghost predicate Valid()
      reads this, positionsView, extentsView
    {
      Consistent() && (!dirty && !destroyed ==> Synced())
    }

    /** The members and their bookkeeping: everything but the GPU side and the owner. */
    ghost function Members(): (seq<ClippingPolygon>, seq<CollectionEvent>, nat, bool, bool, bool)
      reads this
    {
      (polygons, events, totalPositions, dirty, enabled, inverse)
    }

    /** Everything `update` and `destroy` own, gathered for "nothing else changes" clauses. */
    ghost function Resources(): (Gpu, array<int>, array<int>)
      reads this
    {
      (gpu, positionsView, extentsView)
    }

    /** A collection holding `initial`, with the given flags and no GPU resources. */
    constructor (initial: seq<ClippingPolygon>, enabled: bool, inverse: bool)
      ensures Valid() && fresh(positionsView) && fresh(extentsView)
      ensures polygons == initial && this.enabled == enabled && this.inverse == inverse
      ensures totalPositions == TotalPositions(initial) && events == [] && dirty
      ensures NoResources() && owner == null && !destroyed && gpu.uploads == 0
    {
      polygons := initial;
      this.enabled := enabled;
      this.inverse := inverse;
      totalPositions := TotalPositions(initial);
      events := [];
      dirty := true;
      gpu := Gpu(None, None, None, false, 0);
      positionsView := new int[0];
      extentsView := new int[0];
      owner := null;
      destroyed := false;
    }

    /** The default collection: empty, enabled, not inverted. */
    constructor Default()
      ensures Valid() && fresh(positionsView) && fresh(extentsView)
      ensures polygons == [] && |polygons| == 0 && enabled && !inverse && totalPositions == 0
      ensures events == [] && dirty && NoResources() && owner == null && !destroyed && gpu.uploads == 0
    {
      polygons := [];
      enabled := true;
      inverse := false;
      totalPositions := 0;
      events := [];
      dirty := true;
      gpu := Gpu(None, None, None, false, 0);
      positionsView := new int[0];
      extentsView := new int[0];
      owner := null;
      destroyed := false;
    }

    /** The number of members: get succeeds exactly for the indices below it. */
    function Length(): (n: nat)
      reads this
      ensures n == |polygons|
      ensures forall i :: 0 <= i < n <==> Get(i).Ok?
    {
      |polygons|
    }

    /** The member at `index`, in insertion order, or a bounds error. */
    function Get(index: int): (r: Result<ClippingPolygon>)
      reads this
      ensures r.Ok? <==> 0 <= index < |polygons|
      ensures r.Ok? ==> r.value == polygons[index]
      ensures r.Err? ==> r.error == IndexOutOfRange
    {
      if 0 <= index < |polygons| then Ok(polygons[index]) else Err(IndexOutOfRange)
    }

    /** The index of the first member identical to `p`, or -1. */
    method IndexOf(p: ClippingPolygon) returns (k: int)
      ensures -1 <= k < |polygons|
      ensures k == -1 <==> p !in polygons
      ensures k >= 0 ==> k == FirstIndex(polygons, p)
    {
      k := 0;
      while k < |polygons| && polygons[k] != p
        invariant 0 <= k <= |polygons|
        invariant p !in polygons[..k]
      {
        assert polygons[..k + 1] == polygons[..k] + [polygons[k]];
        k := k + 1;
      }
      if k == |polygons| {
        assert polygons[..k] == polygons;
        k := -1;
      } else {
        assert k == FirstIndex(polygons, p);
      }
    }

    /** Identity membership: a polygon with the same positions that is not a member is not contained. */
    method Contains(p: ClippingPolygon) returns (b: bool)
      ensures b <==> p in polygons
      ensures b <==> exists i :: 0 <= i < |polygons| && Get(i) == Ok(p)
    {
      var k := IndexOf(p);
      b := k >= 0;
      if b {
        assert Get(k) == Ok(p);
      }
    }

    /** Appends `p` at index `length`, raises polygonAdded(p, index) and returns `p`. */
    method Add(p: ClippingPolygon) returns (added: ClippingPolygon)
      requires Valid()
      modifies this
      ensures Valid()
      ensures added == p
      ensures polygons == old(polygons) + [p] && Get(old(|polygons|)) == Ok(p)
      ensures events == old(events) + [PolygonAdded(p, old(|polygons|))]
      ensures totalPositions == old(totalPositions) + p.Count()
      ensures dirty
      ensures enabled == old(enabled) && inverse == old(inverse) && owner == old(owner)
      ensures destroyed == old(destroyed) && Resources() == old(Resources())
    {
      var index := |polygons|;
      TotalPositionsAppend(polygons, [p]);
      assert TotalPositions([p]) == p.Count() by {
        assert [p][..0] == [];
      }
      polygons := polygons + [p];
      totalPositions := totalPositions + p.Count();
      dirty := true;
      events := events + [PolygonAdded(p, index)];
      added := p;
    }

    /**
     * Removes the first member identical to `p`; later members move down by
     * one and polygonRemoved(p, index) is raised. A non-member is no error:
     * the result is false and nothing changes.
     */
    method Remove(p: ClippingPolygon) returns (removed: bool)
      requires Valid()
      modifies this
      ensures Valid()
      ensures removed <==> p in old(polygons)
      ensures !removed ==> unchanged(this)
      ensures removed ==>
        var k := FirstIndex(old(polygons), p);
        && polygons == old(polygons)[..k] + old(polygons)[k + 1..]
        && events == old(events) + [PolygonRemoved(p, k)]
        && totalPositions == old(totalPositions) - p.Count()
        && (p in polygons <==> p in old(polygons)[k + 1..])
        && dirty
      ensures enabled == old(enabled) && inverse == old(inverse) && owner == old(owner)
      ensures destroyed == old(destroyed) && Resources() == old(Resources())
    {
      var k := IndexOf(p);
      if k < 0 {
        return false;
      }
      var rest := polygons[..k] + polygons[k + 1..];
      TotalPositionsRemoveAt(polygons, k);
      assert p in rest <==> p in polygons[k + 1..];
      polygons, totalPositions, dirty, events := rest, totalPositions - p.Count(), true, events + [PolygonRemoved(p, k)];
      removed := true;
    }

    /** Raises polygonRemoved for every member, in ascending index order, then empties the collection. */
    method RemoveAll()
      requires Valid()
      modifies this
      ensures Valid()
      ensures polygons == [] && totalPositions == 0
      ensures events == old(events) + RemovedEvents(old(polygons))
      ensures dirty
      ensures enabled == old(enabled) && inverse == old(inverse) && owner == old(owner)
      ensures destroyed == old(destroyed) && Resources() == old(Resources())
    {
      var log := events;
      var i := 0;
      while i < |polygons|
        invariant 0 <= i <= |polygons|
        invariant log == events + RemovedEvents(polygons[..i])
      {
        assert polygons[..i + 1] == polygons[..i] + [polygons[i]];
        log := log + [PolygonRemoved(polygons[i], i)];
        i := i + 1;
      }
      assert polygons[..i] == polygons;
      events := log;
      polygons := [];
      totalPositions := 0;
      dirty := true;
    }

    /**
     * Per-frame update. Fails first thing when float textures are
     * unsupported, whatever the collection holds. With nothing changed since
     * the last successful update it does nothing (in particular no upload).
     * Otherwise it releases everything for an empty collection, or merges the
     * extents, (re)allocates the textures that are missing or too small, packs
     * and gpu.uploads both buffers and queues the compute command.
     */
    method Update(ctx: Context) returns (r: Outcome)
      requires Valid() && !destroyed
      modifies this, positionsView, extentsView
      ensures Valid() && !destroyed
      ensures polygons == old(polygons) && events == old(events) && totalPositions == old(totalPositions)
      ensures enabled == old(enabled) && inverse == old(inverse) && owner == old(owner)
      ensures r == (if IsSupported(ctx) then Pass else Fail(Unsupported))
      ensures positionsView == old(positionsView) || fresh(positionsView)
      ensures extentsView == old(extentsView) || fresh(extentsView)
      ensures r.Fail? ==> unchanged(this) && unchanged(positionsView, extentsView)
      ensures r.Pass? ==> !dirty && Synced()
      ensures !old(dirty) ==> unchanged(this) && unchanged(positionsView, extentsView)
      ensures gpu.uploads == old(gpu.uploads) + (if r.Pass? && old(dirty) && |polygons| > 0 then 2 else 0)
      ensures r.Pass? && old(dirty) && |polygons| > 0 ==>
        && gpu.polygonsTexture == Some(ChoosePolygonsTexture(old(gpu.polygonsTexture), |polygons|, totalPositions, ctx.maximumTextureSize))
        && gpu.extentsTexture == Some(ChooseExtentsTexture(old(gpu.extentsTexture), |Groups().extents|, ctx.maximumTextureSize))
        && gpu.clippingTexture == Some(ChooseClippingTexture(old(gpu.clippingTexture), ctx.maximumTextureSize))
    {
      if !IsSupported(ctx) {
        return Fail(Unsupported);
      }
      if !dirty {
        return Pass;
      }
      if |polygons| == 0 {
        gpu := Released(gpu);
        dirty := false;
        return Pass;
      }
      Rebuild(ctx.maximumTextureSize);
      r := Pass;
    }

    /**
     * The work of a dirty update of a non-empty collection: merge the
     * extents, keep or replace each texture, pack and upload both buffers,
     * queue the compute command.
     */
    method Rebuild(maxSize: TextureSize)
      requires Consistent() && !destroyed && dirty && |polygons| > 0
      modifies this, positionsView, extentsView
      ensures Consistent() && !destroyed && !dirty && Synced()
      ensures polygons == old(polygons) && events == old(events) && totalPositions == old(totalPositions)
      ensures enabled == old(enabled) && inverse == old(inverse) && owner == old(owner)
      ensures gpu == Rebuilt(old(gpu), polygons, maxSize)
      ensures positionsView == old(positionsView) || fresh(positionsView)
      ensures extentsView == old(extentsView) || fresh(extentsView)
    {
      Reallocate(maxSize);
      Upload();
    }

    /** Keeps or replaces each texture for the current members, with a view sized for it, and marks the collection clean. */
    method Reallocate(maxSize: TextureSize)
      requires Consistent() && !destroyed && dirty && |polygons| > 0
      modifies this
      ensures Consistent() && !destroyed && !dirty
      ensures polygons == old(polygons) && events == old(events) && totalPositions == old(totalPositions)
      ensures enabled == old(enabled) && inverse == old(inverse) && owner == old(owner)
      ensures gpu == Rebuilt(old(gpu), polygons, maxSize)
      ensures positionsView == old(positionsView) || fresh(positionsView)
      ensures extentsView == old(extentsView) || fresh(extentsView)
    {
      var next := Rebuilt(gpu, polygons, maxSize);
      var pt, et := next.polygonsTexture.value, next.extentsTexture.value;
      if Some(pt) != gpu.polygonsTexture {
        positionsView := new int[2 * Texels(pt)];
      }
      if Some(et) != gpu.extentsTexture {
        extentsView := new int[4 * Texels(et)];
      }
      gpu, dirty := next, false;
    }

    /** Packs the current members into the views sized for the current textures. */
    method Upload()
      requires Consistent() && |polygons| > 0 && HasTextures(gpu) && gpu.commandPending
      requires PositionsFit(gpu.polygonsTexture.value, |polygons|, totalPositions)
      requires ExtentsFit(gpu.extentsTexture.value, |Groups().extents|)
      modifies positionsView, extentsView
      ensures Consistent() && Synced()
      ensures polygons == old(polygons) && events == old(events) && totalPositions == old(totalPositions)
      ensures enabled == old(enabled) && inverse == old(inverse) && owner == old(owner)
      ensures gpu == old(gpu) && dirty == old(dirty) && destroyed == old(destroyed)
      ensures positionsView == old(positionsView) && extentsView == old(extentsView)
    {
      RecordsSizeOfPolygons(polygons);
      PackBuffers(Rings(polygons), Extents(polygons), positionsView, extentsView);
    }

    /** Releases every GPU resource; a second call changes nothing. */
    method Destroy()
      requires Valid()
      modifies this
      ensures Valid() && destroyed && NoResources()
      ensures old(destroyed) ==> unchanged(this)
      ensures polygons == old(polygons) && events == old(events) && totalPositions == old(totalPositions)
      ensures enabled == old(enabled) && inverse == old(inverse) && owner == old(owner) && dirty == old(dirty)
      ensures positionsView == old(positionsView) && extentsView == old(extentsView) && gpu.uploads == old(gpu.uploads)
    {
      if !destroyed {
        gpu := Released(gpu);
        destroyed := true;
      }
    }

    /** Whether destroy has been called; a consistent destroyed collection holds no GPU resources. */
    function IsDestroyed(): (b: bool)
      reads this
      ensures b <==> destroyed
      ensures b && Consistent() ==> NoResources()
    {
      destroyed
    }

    /**
     * Attaches `c` to `o` under `key`. Attaching the collection already there
     * changes nothing. Attaching a collection that already has an owner is a
     * precondition error and changes nothing. Otherwise the collection
     * previously under `key`, if any, is destroyed and `c` takes its place,
     * with `o` as its owner.
     */
    static method SetOwner(c: ClippingPolygonCollection, o: Owner, key: string) returns (r: Outcome)
      requires c.Valid()
      requires key in o.properties ==> o.properties[key].Valid()
      modifies o, c, if key in o.properties then {o.properties[key]} else {}
      ensures c.Valid()
      ensures key in old(o.properties) && old(o.properties[key]) == c ==>
        r == Pass && unchanged(o, c)
      ensures !(key in old(o.properties) && old(o.properties[key]) == c) && old(c.owner) != null ==>
        && r == Fail(AlreadyOwned) && unchanged(o, c)
        && (key in old(o.properties) ==> unchanged(old(o.properties[key])))
      ensures !(key in old(o.properties) && old(o.properties[key]) == c) && old(c.owner) == null ==>
        && r == Pass
        && o.properties == old(o.properties)[key := c]
        && c.owner == o && c.destroyed == old(c.destroyed) && c.polygons == old(c.polygons)
        && c.Members() == old(c.Members()) && c.Resources() == old(c.Resources())
    ensures !(key in old(o.properties) && old(o.properties[key]) == c) && old(c.owner) == null && key in old(o.properties) ==>
        var previous := old(o.properties[key]);
        && previous.destroyed && previous.Valid()
        && previous.Members() == old(previous.Members()) && previous.owner == old(previous.owner)
    {
      if key in o.properties && o.properties[key] == c {
        return Pass;
      }
      if c.owner != null {
        return Fail(AlreadyOwned);
      }
      if key in o.properties {
        var previous := o.properties[key];
        previous.Destroy();
      }
      c.owner := o;
      o.properties := o.properties[key := c];
      r := Pass;
    }

    /**
     * The coarse classification of a bounding volume: INTERSECTING as soon as
     * one polygon's rectangle overlaps the volume's rectangle, whatever
     * `inverse` is; otherwise OUTSIDE, or INSIDE when inverted (in particular
     * for an empty collection).
     */
    method ComputeIntersectionWithBoundingVolume(volume: BoundingVolume) returns (r: Intersect)
      ensures r == Intersecting <==> AnyOverlap(polygons, VolumeRectangle(volume))
      ensures r == Inside <==> !AnyOverlap(polygons, VolumeRectangle(volume)) && inverse
      ensures r == Outside <==> !AnyOverlap(polygons, VolumeRectangle(volume)) && !inverse
    {
      var rect := VolumeRectangle(volume);
      r := if inverse then Inside else Outside;
      var i := 0;
      while i < |polygons|
        invariant 0 <= i <= |polygons|
        invariant r == Intersecting <==> AnyOverlap(polygons[..i], rect)
        invariant r != Intersecting ==> r == (if inverse then Inside else Outside)
      {
        assert polygons[..i + 1] == polygons[..i] + [polygons[i]];
        if Overlaps(polygons[i].Extent(), rect) {
          r := Intersecting;
        }
        assert forall j :: 0 <= j < i ==> polygons[..i + 1][j] == polygons[..i][j];
        i := i + 1;
      }
      assert polygons[..i] == polygons;
    }

    /** The extents texture resolution the current members need, before any texture exists. */
    static function ClippingExtentsTextureResolution(c: ClippingPolygonCollection, ctx: Context): (t: Texture)
      reads c
      requires |c.polygons| > 0
      ensures t.width >= 1 && t.height >= 1 && t.width <= ctx.maximumTextureSize
      ensures ExtentsFit(t, |Merge(Extents(c.polygons)).extents|)
    {
      ExtentsTextureResolution(|Merge(Extents(c.polygons)).extents|, ctx.maximumTextureSize)
    }
  }

  /** One polygon needs a 1 x 2 extents texture when the maximum texture size is 64. */
  lemma {:induction false} OnePolygonExtentsResolution(c: ClippingPolygonCollection)
    requires |c.polygons| == 1
    ensures ClippingPolygonCollection.ClippingExtentsTextureResolution(c, Context(true, 64)) == Texture(1, 2)
  {
    var rects := Extents(c.polygons);
    assert |Merge(rects).extents| == 1;
    ExtentsResolutionExample();
  }
}
