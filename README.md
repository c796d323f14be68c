# ClippingPolygonCollection, modelled in Dafny

This project models `ClippingPolygonCollection`: the ordered collection of
clipping polygons attached to a clipped object. The model covers what the
collection's own test file states about it.

- **Container and events.** Members are kept in insertion order and compared
  by identity. The model covers `add`, `get`, `contains`, `remove` (first
  occurrence only) and `removeAll`, the cached `length` and `totalPositions`,
  the `enabled` and `inverse` flags, and a log of the `polygonAdded` and
  `polygonRemoved` events as (polygon, index) pairs.
- **Packed buffers.** The positions buffer holds, per polygon and back to
  back, `[count, extentsIndex, lat0, lon0, …]`, followed by zeros. The extents
  buffer holds one 8-slot record per merge group: `[south, west, span, span,
  0, 0, 0, 0]`, followed by zeros. A polygon joins the first group whose
  rectangle overlaps its own, and that group's rectangle grows to cover it.
  Both buffers are `array<int>`s filled slot by slot by loops. Each loop is
  proved against a pure layout function.
- **Update and dirty tracking.**
  - `update` fails first thing when float textures are unsupported.
  - With no change since the last update, it does nothing.
  - On an empty collection, it releases every texture and the command.
  - Otherwise it keeps or replaces each of the three textures, packs and
    uploads both buffers, and queues the signed-distance compute command.
- **Ownership and intersection.**
  - `setOwner` follows an exclusive-attach protocol.
  - `destroy` is idempotent.
  - `computeIntersectionWithBoundingVolume` is a coarse classification over
    bounding rectangles.

Modules, one per file:

- `Geometry` (`geometry.dfy`): integer positions and rectangles.
- `Polygons` (`polygon.dfy`): the immutable polygon.
- `ExtentsMerge` (`extents_merge.dfy`): the grouping of overlapping rectangles.
- `Packing` (`packing.dfy`): the buffer layouts, their packing loops and the
  texture sizes.
- `Collection` (`collection.dfy`): the stateful class.
- `Scenarios` (`scenarios.dfy`): each method there drives fresh collections
  through one of the test file's usage sequences. Its postcondition states
  what the test observes.

Inputs that the source reads from its environment are parameters here:

- whether float textures are supported, and the maximum texture size, form a
  `Context`;
- the bounding volume, and the polygon positions, are already in geographic
  form.

## Model

Every source path below is `packages/engine/Specs/Scene/ClippingPolygonCollectionSpec.js`.

| member | source | states |
|---|---|---|
| Geometry.Union | packages/engine/Specs/Scene/ClippingPolygonCollectionSpec.js:325-371 | the merged rectangle covers both rectangles, is covered by every rectangle covering both, and is well formed |
| Geometry.BoundingRectangle | packages/engine/Specs/Scene/ClippingPolygonCollectionSpec.js:280-323 | a polygon's rectangle is well formed and contains every one of its positions |
| Geometry.BoundingRectangleTight | packages/engine/Specs/Scene/ClippingPolygonCollectionSpec.js:280-323 | each side of the rectangle (south, west, north, east) is attained by some position |
| Geometry.BoundingRectangleLeast | packages/engine/Specs/Scene/ClippingPolygonCollectionSpec.js:325-371 | every rectangle containing all positions covers the bounding rectangle |
| Geometry.CoverPreservesOverlap | packages/engine/Specs/Scene/ClippingPolygonCollectionSpec.js:325-371 | a rectangle covering another overlaps everything the other overlaps |
| Polygons.ClippingPolygon.constructor | packages/engine/Specs/Scene/ClippingPolygonCollectionSpec.js:20-39 | a polygon keeps the ring it is built from; rings have at least three positions |
| Polygons.ClippingPolygon.Count | packages/engine/Specs/Scene/ClippingPolygonCollectionSpec.js:63-69 | the number of positions of the ring, at least three |
| Polygons.ClippingPolygon.Extent | packages/engine/Specs/Scene/ClippingPolygonCollectionSpec.js:280-323 | the polygon's rectangle is well formed and contains every position of its ring |
| Polygons.TotalPositionsAppend | packages/engine/Specs/Scene/ClippingPolygonCollectionSpec.js:63-69 | the position total of a concatenation is the sum of the totals |
| Polygons.TotalPositionsRemoveAt | packages/engine/Specs/Scene/ClippingPolygonCollectionSpec.js:108-124 | deleting the member at k lowers the total by exactly its position count |
| Polygons.TotalPositionsLowerBound | packages/engine/Specs/Scene/ClippingPolygonCollectionSpec.js:63-69 | the total is at least three positions per member |
| Polygons.FirstIndex | packages/engine/Specs/Scene/ClippingPolygonCollectionSpec.js:108-124 | the index found holds the polygon and no earlier index does |
| ExtentsMerge.FirstOverlap | packages/engine/Specs/Scene/ClippingPolygonCollectionSpec.js:325-371 | the index of the first group overlapping a rectangle: none before it overlaps, and it overlaps unless it is past the end |
| ExtentsMerge.Place | packages/engine/Specs/Scene/ClippingPolygonCollectionSpec.js:325-371 | one merge step: the new polygon gets the first overlapping group, or a new one at the end, and earlier polygons keep their groups |
| ExtentsMerge.PlaceCovers | packages/engine/Specs/Scene/ClippingPolygonCollectionSpec.js:325-371 | a merge step adds a group only when none overlaps, shrinks no record, and the record it assigns covers the polygon |
| ExtentsMerge.Merge | packages/engine/Specs/Scene/ClippingPolygonCollectionSpec.js:325-371 | one group index per polygon, at most one group per polygon, at least one group for a non-empty collection |
| ExtentsMerge.MergeSound | packages/engine/Specs/Scene/ClippingPolygonCollectionSpec.js:325-371 | every group index names an existing record, that record covers the polygon's rectangle, and no record is empty |
| ExtentsMerge.MergeFirstMemberOrder | packages/engine/Specs/Scene/ClippingPolygonCollectionSpec.js:325-371 | groups are numbered in the order of their first members, so the first polygon is in group 0 |
| ExtentsMerge.MergePrefix | packages/engine/Specs/Scene/ClippingPolygonCollectionSpec.js:325-371 | adding later polygons never changes the group of an earlier one |
| ExtentsMerge.OverlapJoinsEarlierGroup | packages/engine/Specs/Scene/ClippingPolygonCollectionSpec.js:325-371 | a polygon overlapping an earlier one is put in that one's group or in an earlier group |
| ExtentsMerge.OverlappingPairShareRecord | packages/engine/Specs/Scene/ClippingPolygonCollectionSpec.js:325-371 | two overlapping polygons share group 0, whose record is their union and covers both |
| ExtentsMerge.DisjointPairSeparateRecords | packages/engine/Specs/Scene/ClippingPolygonCollectionSpec.js:325-371 | two polygons that do not overlap get separate groups 0 and 1 |
| ExtentsMerge.ComputeExtents | packages/engine/Specs/Scene/ClippingPolygonCollectionSpec.js:325-371 | the merge loop, with its inner search for the first overlapping group, computes exactly the merge |
| Packing.CoordinatesAt | packages/engine/Specs/Scene/ClippingPolygonCollectionSpec.js:258-273 | position v occupies two coordinate slots, latitude at 2v and then longitude |
| Packing.PositionRecordAt | packages/engine/Specs/Scene/ClippingPolygonCollectionSpec.js:236-278 | polygon k's record starts at the summed sizes of the earlier records; its slot 0 is the count, slot 1 the group index, then the coordinates in ring order |
| Packing.PositionsLayoutPadding | packages/engine/Specs/Scene/ClippingPolygonCollectionSpec.js:274-274 | every slot after the last record is 0 |
| Packing.SinglePolygonLayoutExample | packages/engine/Specs/Scene/ClippingPolygonCollectionSpec.js:236-278 | for one polygon of five positions: slot 0 is 5, slot 1 is 0, slots 2-3 and 10-11 hold the first and last positions, slot 12 is 0 |
| Packing.TwoPolygonLayoutExample | packages/engine/Specs/Scene/ClippingPolygonCollectionSpec.js:343-347 | for polygons of five and three positions in group 0, the second header is at slots 12 and 13, and both group slots are 0 |
| Packing.RecordsSizeOfPolygons | packages/engine/Specs/Scene/ClippingPolygonCollectionSpec.js:236-278 | the records take two slots per polygon plus two per position |
| Packing.PackRecord | packages/engine/Specs/Scene/ClippingPolygonCollectionSpec.js:236-278 | writing one polygon's record slot by slot leaves the earlier slots alone and stores exactly its record |
| Packing.PackRecords | packages/engine/Specs/Scene/ClippingPolygonCollectionSpec.js:236-278 | the loop over the polygons stores all records back to back |
| Packing.PackPositions | packages/engine/Specs/Scene/ClippingPolygonCollectionSpec.js:236-278 | the whole positions buffer is the layout: records, then zeros to the end |
| Packing.ExtentRecordsAt | packages/engine/Specs/Scene/ClippingPolygonCollectionSpec.js:280-323 | group g's record occupies slots 8g to 8g+7 |
| Packing.ExtentsLayoutAt | packages/engine/Specs/Scene/ClippingPolygonCollectionSpec.js:280-323 | group g's record is south, west, the two spans and four zeros; every slot after the last record is 0 |
| Packing.PackExtents | packages/engine/Specs/Scene/ClippingPolygonCollectionSpec.js:280-323 | the loops store exactly the extents layout |
| Packing.TextureResolution | packages/engine/Specs/Scene/ClippingPolygonCollectionSpec.js:585-623 | a texture at most the maximum size wide, at least two rows high, with at least twice the texels asked for |
| Packing.PolygonsTextureResolution | packages/engine/Specs/Scene/ClippingPolygonCollectionSpec.js:204-234 | a polygons texture of positive size that holds every record and one padding slot |
| Packing.ExtentsTextureResolution | packages/engine/Specs/Scene/ClippingPolygonCollectionSpec.js:605-623 | an extents texture of positive size that holds every group record |
| Packing.ClippingDistanceResolution | packages/engine/Specs/Scene/ClippingPolygonCollectionSpec.js:585-603 | the distance texture is the maximum size in both directions, so no texture the context allows has more texels |
| Packing.ExtentsResolutionExample | packages/engine/Specs/Scene/ClippingPolygonCollectionSpec.js:585-623 | with a maximum size of 64, one group needs 1 x 2 texels and the distance texture is 64 x 64 |
| Collection.RemovedEvents | packages/engine/Specs/Scene/ClippingPolygonCollectionSpec.js:153-167 | one polygonRemoved event per member, each with the member's own index, in ascending order |
| Collection.ChoosePolygonsTexture | packages/engine/Specs/Scene/ClippingPolygonCollectionSpec.js:204-234 | the current polygons texture is kept while it fits; otherwise a new one is sized for the members, so the result always fits |
| Collection.ChooseExtentsTexture | packages/engine/Specs/Scene/ClippingPolygonCollectionSpec.js:204-234 | the current extents texture is kept while it holds every group; otherwise a new one is sized for the groups |
| Collection.ChooseClippingTexture | packages/engine/Specs/Scene/ClippingPolygonCollectionSpec.js:204-234 | the distance texture is created once, at the maximum size, and then kept |
| Collection.PackBuffers | packages/engine/Specs/Scene/ClippingPolygonCollectionSpec.js:236-323 | after merging and packing, the two buffers are exactly the positions and extents layouts of the merge |
| Collection.Released | packages/engine/Specs/Scene/ClippingPolygonCollectionSpec.js:184-202 | releasing drops every texture and the command and keeps the upload count |
| Collection.IsSupported | packages/engine/Specs/Scene/ClippingPolygonCollectionSpec.js:169-182 | clipping is supported exactly when the context offers float textures |
| Collection.VolumeRectangle | packages/engine/Specs/Scene/ClippingPolygonCollectionSpec.js:625-683 | a region is compared by its own rectangle, a sphere by exactly the positions within its radius of the centre on both axes, a box by the least rectangle holding its corners |
| Collection.Rebuilt | packages/engine/Specs/Scene/ClippingPolygonCollectionSpec.js:204-234 | after a rebuild, all three textures exist with positive sizes and fit the members, the command is queued, and two more uploads were made |
| Collection.ClippingPolygonCollection.constructor | packages/engine/Specs/Scene/ClippingPolygonCollectionSpec.js:83-95 | a collection from given polygons and flags, with no resources, no events and an update pending |
| Collection.ClippingPolygonCollection.Default | packages/engine/Specs/Scene/ClippingPolygonCollectionSpec.js:41-47 | the default collection has length 0, is enabled, is not inverted and holds 0 positions |
| Collection.ClippingPolygonCollection.Length | packages/engine/Specs/Scene/ClippingPolygonCollectionSpec.js:49-61 | the number of members, and get succeeds exactly for the indices below it |
| Collection.ClippingPolygonCollection.Get | packages/engine/Specs/Scene/ClippingPolygonCollectionSpec.js:83-95 | the member at an index in range, in insertion order; an index out of range is an error |
| Collection.ClippingPolygonCollection.IndexOf | packages/engine/Specs/Scene/ClippingPolygonCollectionSpec.js:108-124 | the first index holding the very polygon given, or -1 exactly when that polygon is not a member |
| Collection.ClippingPolygonCollection.Contains | packages/engine/Specs/Scene/ClippingPolygonCollectionSpec.js:97-106 | true exactly when the polygon is a member; membership is by identity |
| Collection.ClippingPolygonCollection.Add | packages/engine/Specs/Scene/ClippingPolygonCollectionSpec.js:63-81 | returns the polygon and appends it at index old length; raises exactly one polygonAdded for it and that index; adds its count to the total; nothing else changes |
| Collection.ClippingPolygonCollection.Remove | packages/engine/Specs/Scene/ClippingPolygonCollectionSpec.js:108-137 | deletes the first occurrence, shifting later members down; raises polygonRemoved with its index; lowers the total; without a member, returns false and changes nothing |
| Collection.ClippingPolygonCollection.RemoveAll | packages/engine/Specs/Scene/ClippingPolygonCollectionSpec.js:139-167 | empties the collection and raises polygonRemoved for every former member with its original index, in order |
| Collection.ClippingPolygonCollection.Update | packages/engine/Specs/Scene/ClippingPolygonCollectionSpec.js:169-234 | fails exactly when float textures are unsupported, even when empty, and then changes nothing; with no pending change, does nothing and uploads nothing; otherwise ends in sync with the members, with the textures each Choose function gives and two more uploads for a non-empty collection |
| Collection.ClippingPolygonCollection.Rebuild | packages/engine/Specs/Scene/ClippingPolygonCollectionSpec.js:204-234 | a dirty update of a non-empty collection ends clean and in sync, in the rebuilt GPU state, with the members, flags and events unchanged |
| Collection.ClippingPolygonCollection.Reallocate | packages/engine/Specs/Scene/ClippingPolygonCollectionSpec.js:204-234 | each texture becomes the one a rebuild chooses, with a view sized for it that is the old one or a new one |
| Collection.ClippingPolygonCollection.Upload | packages/engine/Specs/Scene/ClippingPolygonCollectionSpec.js:236-323 | packing into views sized for the current textures leaves the collection in sync with its members, changing nothing else |
| Collection.ClippingPolygonCollection.Destroy | packages/engine/Specs/Scene/ClippingPolygonCollectionSpec.js:548-583 | releases every GPU resource and marks the collection destroyed; a second call changes nothing |
| Collection.ClippingPolygonCollection.IsDestroyed | packages/engine/Specs/Scene/ClippingPolygonCollectionSpec.js:566-577 | whether destroy has been called; a destroyed collection holds no GPU resources |
| Collection.ClippingPolygonCollection.SetOwner | packages/engine/Specs/Scene/ClippingPolygonCollectionSpec.js:548-583 | attaching the collection already there changes nothing; attaching an owned collection elsewhere is an error that changes nothing; otherwise the previous occupant is destroyed and keeps its members, and the collection is attached with that owner, its members, events, dirty flag and GPU state unchanged |
| Collection.ClippingPolygonCollection.ComputeIntersectionWithBoundingVolume | packages/engine/Specs/Scene/ClippingPolygonCollectionSpec.js:625-683 | INTERSECTING exactly when some polygon's rectangle overlaps the volume's, whatever inverse is; otherwise INSIDE when inverted and OUTSIDE when not |
| Collection.ClippingPolygonCollection.ClippingExtentsTextureResolution | packages/engine/Specs/Scene/ClippingPolygonCollectionSpec.js:605-623 | before any texture exists, the extents resolution fits every merge group and is no wider than the maximum size |
| Collection.OnePolygonExtentsResolution | packages/engine/Specs/Scene/ClippingPolygonCollectionSpec.js:605-623 | one polygon at a maximum size of 64 needs a 1 x 2 extents texture |
| Scenarios.SharedPositionOverlap | packages/engine/Specs/Scene/ClippingPolygonCollectionSpec.js:32-39 | polygons sharing a position have overlapping rectangles |
| Scenarios.DefaultScenario | packages/engine/Specs/Scene/ClippingPolygonCollectionSpec.js:41-47 | a new collection: length 0, enabled, not inverted, 0 positions |
| Scenarios.LengthScenario | packages/engine/Specs/Scene/ClippingPolygonCollectionSpec.js:49-61 | length 0, then 2 after two additions, then 1 after removing the first |
| Scenarios.AddScenario | packages/engine/Specs/Scene/ClippingPolygonCollectionSpec.js:63-69 | one polygon of five positions: length 1, 5 positions in total |
| Scenarios.AddedEventsScenario | packages/engine/Specs/Scene/ClippingPolygonCollectionSpec.js:71-81 | polygonAdded fired with each returned polygon and indices 0 and 1 |
| Scenarios.GetScenario | packages/engine/Specs/Scene/ClippingPolygonCollectionSpec.js:83-95 | get(0) and get(1) give the two polygons in their given order |
| Scenarios.ContainsScenario | packages/engine/Specs/Scene/ClippingPolygonCollectionSpec.js:97-106 | the member is contained and another polygon is not; a second polygon built from the same positions is not contained either |
| Scenarios.RemoveScenario | packages/engine/Specs/Scene/ClippingPolygonCollectionSpec.js:108-124 | removal returns true, the polygon is gone, length is 1 and get(0) is the other; a second removal returns false |
| Scenarios.RemoveEventScenario | packages/engine/Specs/Scene/ClippingPolygonCollectionSpec.js:126-137 | polygonRemoved fired with the polygon and index 0 |
| Scenarios.RemoveAllScenario | packages/engine/Specs/Scene/ClippingPolygonCollectionSpec.js:139-167 | length 2, then 0; polygonRemoved fired for both polygons with indices 0 and 1 |
| Scenarios.SingleRingUpload | packages/engine/Specs/Scene/ClippingPolygonCollectionSpec.js:236-323 | the uploaded buffers of one five-position ring hold its record in group 0, padding at slot 12, and its extents record |
| Scenarios.OverlappingRingsUpload | packages/engine/Specs/Scene/ClippingPolygonCollectionSpec.js:325-371 | for the five-position ring and the ring of three of its positions, both headers name group 0, and the one group record is the larger rectangle's |
| Scenarios.OverlappingPairUpload | packages/engine/Specs/Scene/ClippingPolygonCollectionSpec.js:325-371 | the same holds for any in-sync collection of those two polygons |
| Scenarios.UnsupportedUpdateScenario | packages/engine/Specs/Scene/ClippingPolygonCollectionSpec.js:169-182 | update of an empty collection fails when float textures are unsupported |
| Scenarios.EmptyUpdateScenario | packages/engine/Specs/Scene/ClippingPolygonCollectionSpec.js:184-202 | updating an empty collection creates no texture and no command |
| Scenarios.ResourcesUpdateScenario | packages/engine/Specs/Scene/ClippingPolygonCollectionSpec.js:204-234 | updating a one-polygon collection creates the three textures with positive sizes, and the command |
| Scenarios.PackedPositionsScenario | packages/engine/Specs/Scene/ClippingPolygonCollectionSpec.js:236-278 | the uploaded positions buffer has slot 0 = 5 and slot 1 = 0, the first and last positions at slots 2-3 and 10-11, and slot 12 = 0 |
| Scenarios.PackedExtentsScenario | packages/engine/Specs/Scene/ClippingPolygonCollectionSpec.js:280-323 | the uploaded extents buffer holds south, west, the two spans, then zeros at slots 4-7 |
| Scenarios.CombinedExtentsScenario | packages/engine/Specs/Scene/ClippingPolygonCollectionSpec.js:325-371 | two overlapping polygons: position slots 1 and 13 are both 0, and the single extents record is that of the single-polygon case |
| Scenarios.NoReuploadScenario | packages/engine/Specs/Scene/ClippingPolygonCollectionSpec.js:522-546 | the first update uploads, and a second update with no change in between uploads nothing more |
| Scenarios.AttachedNoReuploadScenario | packages/engine/Specs/Scene/ClippingPolygonCollectionSpec.js:522-546 | after an update, attaching the collection to an object and updating again uploads nothing more |
| Scenarios.AttachScenario | packages/engine/Specs/Scene/ClippingPolygonCollectionSpec.js:548-564 | after setOwner, the object's property is the collection and the collection's owner is the object |
| Scenarios.ReplaceScenario | packages/engine/Specs/Scene/ClippingPolygonCollectionSpec.js:566-577 | attaching a second collection under the same name destroys the first; attaching the second again does not destroy it |
| Scenarios.AttachElsewhereScenario | packages/engine/Specs/Scene/ClippingPolygonCollectionSpec.js:579-582 | attaching an owned collection to a second object is an error |
| Scenarios.ResolutionScenario | packages/engine/Specs/Scene/ClippingPolygonCollectionSpec.js:585-623 | at a maximum size of 64, one polygon gets a 64 x 64 distance texture and a 1 x 2 extents texture |
| Scenarios.IntersectionScenario | packages/engine/Specs/Scene/ClippingPolygonCollectionSpec.js:625-683 | empty collection: OUTSIDE, or INSIDE when inverted. After adding the polygon, its region, every sphere reaching one of its positions, and a box through its positions all give INTERSECTING |

## Left out

- The GPU is abstract.
  - A texture is only its resolution.
  - Each buffer upload (positions, extents) is one tick of a counter; texture allocations are not counted.
  - The compute command is only a "pending" flag.
  - The rendering context, WebGL2 detection and the order of the upload calls are not modelled. The test relies on that order to pick out the two buffers.
- `queueCommands` and the execution of the signed-distance compute command are not modelled. Their only test is disabled.
- Texture reallocation on shrinking is not modelled. The tests for reallocation and partial updates are commented out. A texture is kept while it fits and replaced otherwise; it never shrinks.
- Floating point is not modelled.
  - Coordinates are integers standing for fixed-point angles.
  - The conversion from Cartesian positions to spherical coordinates is not part of this model: positions are given as longitude and latitude.
  - Buffer slots hold integers, not 32-bit floats.
- Packing.LatitudeSpan, Packing.LongitudeSpan: they hold the plain differences north − south and east − west, as their labels say. The values in the test look like reciprocals of spans, and that formula is not modelled.
- Bounding volumes are abstract.
  - A region is its rectangle.
  - A sphere is the square around its centre.
  - An oriented box is the rectangle of its corners.
  - The classification compares rectangles only. The exact geometry of spheres and boxes is not modelled.
- Packing.TextureResolution: the resolution formula is a model choice. It reproduces the test's data point at a maximum size of 64: 1 x 2 for one extents group. The global maximum texture size becomes the `maximumTextureSize` field of `Context`.
- Packing.ClippingDistanceResolution: the maximum size in both directions is a model choice. It reproduces the test's data point of 64 x 64 at a maximum size of 64.
- The merge is greedy first-fit. A polygon joins the first overlapping group, and groups that come to overlap after growing are not merged again.
- Listeners are not called: each event is appended to the `events` log.
- Membership by identity is a model choice: polygons are objects, and `contains`, `indexOf` and `remove` compare references. The test's second polygon has different positions, so it does not tell identity from equality of positions.
- Collection.ClippingPolygonCollection.ClippingExtentsTextureResolution: requires a non-empty collection. The test only queries a collection with one polygon, and nothing shows the result for none.
- Behaviour the tests do not show is not modelled: constructor options beyond the polygons, `enabled` and `inverse`; the effect of `enabled` on `update`; edge colour and width.
- Failure on unsupported float textures: the behaviour as written covers an empty collection, so update fails first thing, before any other check. The model follows the test.
- Collection.ClippingPolygonCollection.SetOwner: the "already owned" check comes before the previous occupant is destroyed, so a failed call destroys nothing. The test does not fix that order.
