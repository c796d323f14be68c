/**
 * The packing encoder: the float buffers uploaded to the polygons texture and
 * to the extents texture, and the texture resolutions that hold them.
 *
 * Positions buffer: per polygon, in collection order and back to back,
 *   [count, extentsIndex, lat0, lon0, lat1, lon1, ...]
 * and zeros after the last record.
 * Extents buffer: per merge group, in group order and back to back,
 *   [south, west, latitude span, longitude span, 0, 0, 0, 0]
 * and zeros after the last record.
 *
 * Slots hold integers here; the source stores 32-bit floats.
 */
module Packing {
  import opened Geometry
  import opened Polygons

  // ----- positions buffer -----

  /** The coordinates of a ring, two slots per position: latitude, then longitude. */
  function Coordinates(vs: seq<Cartographic>): (c: seq<int>)
    ensures |c| == 2 * |vs|
    decreases |vs|
  {
    if |vs| == 0 then [] else Coordinates(vs[..|vs| - 1]) + [vs[|vs| - 1].latitude, vs[|vs| - 1].longitude]
  }

  /** The record of one polygon: its header (position count, extents index), then its coordinates. */
  function PositionRecord(ring: Ring, extentsIndex: nat): seq<int> {
    [|ring|, extentsIndex] + Coordinates(ring)
  }

  /** The number of slots the records of `rings` take: 2 + 2 * count per polygon. */
  function RecordsSize(rings: seq<Ring>): nat
    decreases |rings|
  {
    if |rings| == 0 then 0 else RecordsSize(rings[..|rings| - 1]) + 2 + 2 * |rings[|rings| - 1]|
  }

  /** The slot where the record of polygon k starts: the size of the records of the polygons before it. */
  function RecordOffset(rings: seq<Ring>, k: nat): nat
    requires k <= |rings|
  {
    RecordsSize(rings[..k])
  }

  /** The records of all polygons, back to back. */
  function PositionRecords(rings: seq<Ring>, indices: seq<nat>): (s: seq<int>)
    requires |indices| == |rings|
    ensures |s| == RecordsSize(rings)
    decreases |rings|
  {
    if |rings| == 0 then []
    else
      var n := |rings| - 1;
      PositionRecords(rings[..n], indices[..n]) + PositionRecord(rings[n], indices[n])
  }

  function Zeros(n: nat): (z: seq<int>)
    ensures |z| == n && forall i :: 0 <= i < n ==> z[i] == 0
  {
    seq(n, _ => 0)
  }

  /** The whole positions buffer of `length` slots. */
  function PositionsLayout(rings: seq<Ring>, indices: seq<nat>, length: nat): seq<int>
    requires |indices| == |rings| && RecordsSize(rings) <= length
  {
    PositionRecords(rings, indices) + Zeros(length - RecordsSize(rings))
  }

  lemma {:induction false} CoordinatesAt(vs: seq<Cartographic>, v: nat)
    requires v < |vs|
    ensures Coordinates(vs)[2 * v] == vs[v].latitude && Coordinates(vs)[2 * v + 1] == vs[v].longitude
    decreases |vs|
  {
    var n := |vs| - 1;
    if v < n {
      CoordinatesAt(vs[..n], v);
      assert vs[..n][v] == vs[v];
    }
  }

  lemma {:induction false} RecordsSizePrefix(rings: seq<Ring>, k: nat)
    requires k <= |rings|
    ensures RecordsSize(rings[..k]) <= RecordsSize(rings)
    decreases |rings|
  {
    if k < |rings| {
      var n := |rings| - 1;
      RecordsSizePrefix(rings[..n], k);
      assert rings[..n][..k] == rings[..k];
    } else {
      assert rings[..k] == rings;
    }
  }

  lemma {:induction false} PositionRecordsPrefix(rings: seq<Ring>, indices: seq<nat>, k: nat)
    requires |indices| == |rings| && k <= |rings|
    ensures RecordsSize(rings[..k]) <= RecordsSize(rings)
    ensures PositionRecords(rings, indices)[..RecordsSize(rings[..k])] == PositionRecords(rings[..k], indices[..k])
    decreases |rings|
  {
    if k < |rings| {
      var n := |rings| - 1;
      PositionRecordsPrefix(rings[..n], indices[..n], k);
      assert rings[..n][..k] == rings[..k];
      assert indices[..n][..k] == indices[..k];
      var all := PositionRecords(rings, indices);
      var front := PositionRecords(rings[..n], indices[..n]);
      assert all[..|front|] == front;
      assert all[..RecordsSize(rings[..k])] == front[..RecordsSize(rings[..k])];
    } else {
      assert rings[..k] == rings;
      assert indices[..k] == indices;
    }
  }

  /** The records of the first k + 1 polygons extend those of the first k by the record of polygon k. */
  lemma {:induction false} PositionRecordsStep(rings: seq<Ring>, indices: seq<nat>, k: nat)
    requires |indices| == |rings| && k < |rings|
    ensures RecordOffset(rings, k + 1) == RecordOffset(rings, k) + 2 + 2 * |rings[k]|
    ensures PositionRecords(rings[..k + 1], indices[..k + 1])
         == PositionRecords(rings[..k], indices[..k]) + PositionRecord(rings[k], indices[k])
  {
    assert rings[..k + 1][..k] == rings[..k];
    assert indices[..k + 1][..k] == indices[..k];
  }

  /** The slots of one record, wherever it sits in a buffer: the position count, the extents index, then the coordinates in ring order. */
  lemma {:induction false} PositionRecordSlots(buffer: seq<int>, slot: nat, ring: Ring, extentsIndex: nat)
    requires slot + 2 + 2 * |ring| <= |buffer|
    requires buffer[slot..slot + 2 + 2 * |ring|] == PositionRecord(ring, extentsIndex)
    ensures buffer[slot] == |ring| && buffer[slot + 1] == extentsIndex
    ensures forall v :: 0 <= v < |ring| ==>
      buffer[slot + 2 + 2 * v] == ring[v].latitude && buffer[slot + 3 + 2 * v] == ring[v].longitude
  {
    var rec := buffer[slot..slot + 2 + 2 * |ring|];
    assert buffer[slot] == rec[0] && buffer[slot + 1] == rec[1];
    forall v | 0 <= v < |ring|
      ensures buffer[slot + 2 + 2 * v] == ring[v].latitude && buffer[slot + 3 + 2 * v] == ring[v].longitude
    {
      CoordinatesAt(ring, v);
      assert buffer[slot + 2 + 2 * v] == rec[2 + 2 * v];
      assert buffer[slot + 3 + 2 * v] == rec[3 + 2 * v];
    }
  }

  /** The record of polygon k occupies the slots from RecordOffset(rings, k) up to RecordOffset(rings, k + 1). */
  lemma {:induction false} PositionRecordSlice(rings: seq<Ring>, indices: seq<nat>, k: nat)
    requires |indices| == |rings| && k < |rings|
    ensures RecordOffset(rings, k) + 2 + 2 * |rings[k]| == RecordOffset(rings, k + 1) <= RecordsSize(rings)
    ensures PositionRecords(rings, indices)[RecordOffset(rings, k)..RecordOffset(rings, k + 1)]
         == PositionRecord(rings[k], indices[k])
  {
    PositionRecordsStep(rings, indices, k);
    PositionRecordsPrefix(rings, indices, k + 1);
    var all := PositionRecords(rings, indices);
    var off, end := RecordOffset(rings, k), RecordOffset(rings, k + 1);
    assert all[..end] == PositionRecords(rings[..k], indices[..k]) + PositionRecord(rings[k], indices[k]);
    assert all[off..end] == all[..end][off..];
  }

  /**
   * The record of polygon k starts at RecordOffset(rings, k): slot 0 is the
   * position count, slot 1 the extents index, then the coordinates in ring order.
   */
  lemma {:induction false} PositionRecordAt(rings: seq<Ring>, indices: seq<nat>, k: nat)
    requires |indices| == |rings| && k < |rings|
    ensures RecordOffset(rings, k) + 2 + 2 * |rings[k]| == RecordOffset(rings, k + 1) <= RecordsSize(rings)
    ensures PositionRecords(rings, indices)[RecordOffset(rings, k)] == |rings[k]|
    ensures PositionRecords(rings, indices)[RecordOffset(rings, k) + 1] == indices[k]
    ensures forall v :: 0 <= v < |rings[k]| ==>
      PositionRecords(rings, indices)[RecordOffset(rings, k) + 2 + 2 * v] == rings[k][v].latitude &&
      PositionRecords(rings, indices)[RecordOffset(rings, k) + 3 + 2 * v] == rings[k][v].longitude
  {
    PositionRecordSlice(rings, indices, k);
    PositionRecordSlots(PositionRecords(rings, indices), RecordOffset(rings, k), rings[k], indices[k]);
  }

  /** Every slot after the last record is zero; in particular the one right after it, when the buffer has it. */
  lemma {:induction false} PositionsLayoutPadding(rings: seq<Ring>, indices: seq<nat>, length: nat, j: nat)
    requires |indices| == |rings| && RecordsSize(rings) <= j < length
    ensures |PositionsLayout(rings, indices, length)| == length
    ensures PositionsLayout(rings, indices, length)[j] == 0
  {
  }

  /** A single polygon of five positions in group 0: [0] = 5, [1] = 0 and slot 12 is padding. */
  lemma {:induction false} SinglePolygonLayoutExample(ring: Ring, length: nat)
    requires |ring| == 5 && length > 12
    ensures RecordsSize([ring]) == 12
    ensures PositionsLayout([ring], [0], length)[0] == 5
    ensures PositionsLayout([ring], [0], length)[1] == 0
    ensures PositionsLayout([ring], [0], length)[2] == ring[0].latitude
    ensures PositionsLayout([ring], [0], length)[3] == ring[0].longitude
    ensures PositionsLayout([ring], [0], length)[10] == ring[4].latitude
    ensures PositionsLayout([ring], [0], length)[11] == ring[4].longitude
    ensures PositionsLayout([ring], [0], length)[12] == 0
  {
    assert [ring][..0] == [];
    PositionRecordAt([ring], [0], 0);
    PositionsLayoutPadding([ring], [0], length, 12);
  }

  /** Two polygons of five and three positions sharing group 0: the second header sits at slots 12 and 13. */
  lemma {:induction false} TwoPolygonLayoutExample(a: Ring, b: Ring, length: nat)
    requires |a| == 5 && |b| == 3 && length > 20
    ensures RecordsSize([a, b]) == 20
    ensures PositionsLayout([a, b], [0, 0], length)[1] == 0
    ensures PositionsLayout([a, b], [0, 0], length)[12] == 3
    ensures PositionsLayout([a, b], [0, 0], length)[13] == 0
    ensures PositionsLayout([a, b], [0, 0], length)[20] == 0
  {
    assert [a, b][..0] == [];
    assert [a, b][..1] == [a];
    assert [a, b][..2] == [a, b];
    PositionRecordAt([a, b], [0, 0], 0);
    PositionRecordAt([a, b], [0, 0], 1);
    PositionsLayoutPadding([a, b], [0, 0], length, 20);
  }

  /** The records of a collection take two slots per polygon and two per position. */
  lemma {:induction false} RecordsSizeOfPolygons(ps: seq<ClippingPolygon>)
    ensures RecordsSize(Rings(ps)) == 2 * |ps| + 2 * TotalPositions(ps)
    decreases |ps|
  {
    if |ps| > 0 {
      var n := |ps| - 1;
      RecordsSizeOfPolygons(ps[..n]);
      assert Rings(ps)[..n] == Rings(ps[..n]);
    }
  }

  /** A buffer holding the count, the extents index and the coordinates of `ring` from `slot` on holds its record there. */
  lemma {:induction false} PositionRecordFromSlots(buffer: seq<int>, slot: nat, ring: Ring, extentsIndex: nat)
    requires slot + 2 + 2 * |ring| <= |buffer|
    requires buffer[slot] == |ring| && buffer[slot + 1] == extentsIndex
    requires forall v :: 0 <= v < |ring| ==>
      buffer[slot + 2 + 2 * v] == ring[v].latitude && buffer[slot + 3 + 2 * v] == ring[v].longitude
    ensures buffer[slot..slot + 2 + 2 * |ring|] == PositionRecord(ring, extentsIndex)
  {
    var rec := PositionRecord(ring, extentsIndex);
    var got := buffer[slot..slot + 2 + 2 * |ring|];
    forall x | 0 <= x < |rec|
      ensures got[x] == rec[x]
    {
      if x >= 2 {
        var v := (x - 2) / 2;
        CoordinatesAt(ring, v);
        if x % 2 == 0 {
          assert x == 2 + 2 * v;
        } else {
          assert x == 3 + 2 * v;
        }
      }
    }
  }

  /** Writes the record of one polygon at `slot`, leaving the slots before it alone. */
  method PackRecord(view: array<int>, slot: nat, ring: Ring, extentsIndex: nat)
    requires slot + 2 + 2 * |ring| <= view.Length
    modifies view
    ensures view[..slot] == old(view[..slot])
    ensures view[slot..slot + 2 + 2 * |ring|] == PositionRecord(ring, extentsIndex)
  {
    view[slot] := |ring|;
    view[slot + 1] := extentsIndex;
    var v := 0;
    while v < |ring|
      invariant 0 <= v <= |ring|
      invariant forall x :: 0 <= x < slot ==> view[x] == old(view[x])
      invariant view[slot] == |ring| && view[slot + 1] == extentsIndex
      invariant forall w :: 0 <= w < v ==>
        view[slot + 2 + 2 * w] == ring[w].latitude && view[slot + 3 + 2 * w] == ring[w].longitude
    {
      view[slot + 2 + 2 * v] := ring[v].latitude;
      view[slot + 3 + 2 * v] := ring[v].longitude;
      v := v + 1;
    }
    assert view[..slot] == old(view[..slot]);
    PositionRecordFromSlots(view[..], slot, ring, extentsIndex);
    assert view[slot..slot + 2 + 2 * |ring|] == view[..][slot..slot + 2 + 2 * |ring|];
  }

  /** A buffer holding the records of the first k polygons, then the record of polygon k, holds the records of the first k + 1. */
  lemma {:induction false} PositionRecordsExtend(buffer: seq<int>, rings: seq<Ring>, indices: seq<nat>, k: nat)
    requires |indices| == |rings| && k < |rings|
    requires RecordOffset(rings, k) + 2 + 2 * |rings[k]| <= |buffer|
    requires buffer[..RecordOffset(rings, k)] == PositionRecords(rings[..k], indices[..k])
    requires buffer[RecordOffset(rings, k)..RecordOffset(rings, k) + 2 + 2 * |rings[k]|] == PositionRecord(rings[k], indices[k])
    ensures RecordOffset(rings, k + 1) == RecordOffset(rings, k) + 2 + 2 * |rings[k]|
    ensures buffer[..RecordOffset(rings, k + 1)] == PositionRecords(rings[..k + 1], indices[..k + 1])
  {
    PositionRecordsStep(rings, indices, k);
    var slot, next := RecordOffset(rings, k), RecordOffset(rings, k + 1);
    assert buffer[..next] == buffer[..slot] + buffer[slot..next];
  }

  /** A buffer holding all the records and nothing but zeros after them is the positions layout. */
  lemma {:induction false} PositionsLayoutFromSlots(buffer: seq<int>, rings: seq<Ring>, indices: seq<nat>)
    requires |indices| == |rings| && RecordsSize(rings) <= |buffer|
    requires forall x :: 0 <= x < RecordsSize(rings) ==> buffer[x] == PositionRecords(rings, indices)[x]
    requires forall x :: RecordsSize(rings) <= x < |buffer| ==> buffer[x] == 0
    ensures buffer == PositionsLayout(rings, indices, |buffer|)
  {
  }

  /** Writes the records of all polygons, back to back, from slot 0. */
  method PackRecords(view: array<int>, rings: seq<Ring>, indices: seq<nat>)
    requires |indices| == |rings| && RecordsSize(rings) <= view.Length
    modifies view
    ensures view[..RecordsSize(rings)] == PositionRecords(rings, indices)
  {
    var slot := 0;
    var k := 0;
    while k < |rings|
      invariant 0 <= k <= |rings|
      invariant slot == RecordOffset(rings, k) <= RecordsSize(rings)
      invariant view[..slot] == PositionRecords(rings[..k], indices[..k])
    {
      RecordsSizePrefix(rings, k + 1);
      PositionRecordsStep(rings, indices, k);
      PackRecord(view, slot, rings[k], indices[k]);
      ghost var buffer := view[..];
      assert buffer[..slot] == view[..slot];
      assert buffer[slot..slot + 2 + 2 * |rings[k]|] == view[slot..slot + 2 + 2 * |rings[k]|];
      PositionRecordsExtend(buffer, rings, indices, k);
      slot := slot + 2 + 2 * |rings[k]|;
      k := k + 1;
      assert view[..slot] == buffer[..slot];
    }
    assert rings[..k] == rings && indices[..k] == indices;
  }

  /**
   * Fills `view` with the positions buffer, slot by slot: each header, then
   * each coordinate pair, then zeros to the end.
   */
  method PackPositions(view: array<int>, rings: seq<Ring>, indices: seq<nat>)
    requires |indices| == |rings| && RecordsSize(rings) <= view.Length
    modifies view
    ensures view[..] == PositionsLayout(rings, indices, view.Length)
  {
    PackRecords(view, rings, indices);
    ghost var records := PositionRecords(rings, indices);
    var slot := RecordsSize(rings);
    assert forall x :: 0 <= x < slot ==> view[x] == view[..slot][x];
    ghost var size := slot;
    while slot < view.Length
      invariant size <= slot <= view.Length
      invariant forall x :: 0 <= x < size ==> view[x] == records[x]
      invariant forall x :: size <= x < slot ==> view[x] == 0
    {
      view[slot] := 0;
      slot := slot + 1;
    }
    PositionsLayoutFromSlots(view[..], rings, indices);
  }

  // ----- extents buffer -----


  /**
   * The latitude and longitude span slots. The model stores the plain
   * differences; the float values the source stores in them are not modelled.
   */
  function LatitudeSpan(r: Rectangle): int { r.north - r.south }
  function LongitudeSpan(r: Rectangle): int { r.east - r.west }

  /** The 8-slot record of one merge group: south, west, the two spans, then four padding slots. */
  function ExtentRecord(r: Rectangle): (s: seq<int>)
    ensures |s| == 8
  {
    [r.south, r.west, LatitudeSpan(r), LongitudeSpan(r), 0, 0, 0, 0]
  }

  /** The records of all groups, back to back: slot i belongs to group i / 8. */
  function ExtentRecords(groups: seq<Rectangle>): (s: seq<int>)
    ensures |s| == 8 * |groups|
  {
    seq(8 * |groups|, i requires 0 <= i < 8 * |groups| => ExtentRecord(groups[i / 8])[i % 8])
  }

  /** The whole extents buffer of `length` slots. */
  function ExtentsLayout(groups: seq<Rectangle>, length: nat): seq<int>
    requires 8 * |groups| <= length
  {
    ExtentRecords(groups) + Zeros(length - 8 * |groups|)
  }

  /** Record g occupies slots 8g to 8g + 7, in the order of ExtentRecord. */
  lemma ExtentRecordsAt(groups: seq<Rectangle>, g: nat, j: nat)
    requires g < |groups| && j < 8
    ensures 8 * g + j < 8 * |groups|
    ensures ExtentRecords(groups)[8 * g + j] == ExtentRecord(groups[g])[j]
  {
    var i := 8 * g + j;
    assert i / 8 == g && i % 8 == j;
  }

  /** Slots of the record of group g, and zeros after the last record. */
  lemma {:induction false} ExtentsLayoutAt(groups: seq<Rectangle>, length: nat, g: nat)
    requires 8 * |groups| <= length && g < |groups|
    ensures |ExtentsLayout(groups, length)| == length
    ensures ExtentsLayout(groups, length)[8 * g] == groups[g].south
    ensures ExtentsLayout(groups, length)[8 * g + 1] == groups[g].west
    ensures ExtentsLayout(groups, length)[8 * g + 2] == LatitudeSpan(groups[g])
    ensures ExtentsLayout(groups, length)[8 * g + 3] == LongitudeSpan(groups[g])
    ensures forall j :: 8 * g + 4 <= j < 8 * g + 8 ==> ExtentsLayout(groups, length)[j] == 0
    ensures forall j :: 8 * |groups| <= j < length ==> ExtentsLayout(groups, length)[j] == 0
  {
    var layout := ExtentsLayout(groups, length);
    var records := ExtentRecords(groups);
    var rec := ExtentRecord(groups[g]);
    forall j | 0 <= j < 8
      ensures layout[8 * g + j] == rec[j]
    {
      ExtentRecordsAt(groups, g, j);
      assert layout[8 * g + j] == records[8 * g + j];
    }
    assert layout[8 * g] == rec[0] by { assert 8 * g == 8 * g + 0; }
    assert layout[8 * g + 1] == rec[1] && layout[8 * g + 2] == rec[2] && layout[8 * g + 3] == rec[3];
    forall j | 8 * g + 4 <= j < 8 * g + 8
      ensures layout[j] == 0
    {
      var d := j - 8 * g;
      assert layout[8 * g + d] == rec[d];
    }
  }

  /** Fills `view` with the extents buffer, group by group and slot by slot, then zeros to the end. */
  method PackExtents(view: array<int>, groups: seq<Rectangle>)
    requires 8 * |groups| <= view.Length
    modifies view
    ensures view[..] == ExtentsLayout(groups, view.Length)
  {
    ghost var records := ExtentRecords(groups);
    var slot := 0;
    var g := 0;
    while g < |groups|
      invariant 0 <= g <= |groups|
      invariant slot == 8 * g
      invariant forall i :: 0 <= i < slot ==> view[i] == records[i]
    {
      var rec := ExtentRecord(groups[g]);
      var j := 0;
      while j < 8
        invariant 0 <= j <= 8
        invariant forall i :: 0 <= i < slot + j ==> view[i] == records[i]
      {
        ExtentRecordsAt(groups, g, j);
        view[slot + j] := rec[j];
        j := j + 1;
      }
      slot := slot + 8;
      g := g + 1;
    }
    while slot < view.Length
      invariant 8 * |groups| <= slot <= view.Length
      invariant forall i :: 0 <= i < 8 * |groups| ==> view[i] == records[i]
      invariant forall i :: 8 * |groups| <= i < slot ==> view[i] == 0
    {
      view[slot] := 0;
      slot := slot + 1;
    }
    ghost var layout := ExtentsLayout(groups, view.Length);
    assert forall i :: 0 <= i < view.Length ==> view[..][i] == layout[i];
  }


  // ----- texture resolutions -----

  /** A texture's resolution in texels. */
  datatype Texture = Texture(width: nat, height: nat)

  function Texels(t: Texture): nat {
    t.width * t.height
  }

  lemma {:induction false} DivCeil(p: nat, w: nat)
    requires w >= 1
    ensures w * ((p + w - 1) / w) >= p
  {
    var q, r := (p + w - 1) / w, (p + w - 1) % w;
    assert p + w - 1 == w * q + r;
  }

  /**
   * The resolution for `texels` texels: one row as wide as the maximum texture
   * size allows, as many rows as needed, then twice that many rows. The
   * polygons texture asks for one texel per header and per position and so
   * keeps spare room; the extents texture asks for one texel per group while
   * a group record takes two, so the doubling is used up exactly.
   */
  function TextureResolution(texels: nat, maxSize: nat): (t: Texture)
    requires texels >= 1 && maxSize >= 1
    ensures 1 <= t.width <= maxSize && t.width <= texels && t.height >= 2
    ensures t.width * t.height >= 2 * texels
  {
    var w := Min(texels, maxSize);
    DivCeil(texels, w);
    Texture(w, 2 * ((texels + w - 1) / w))
  }

  /**
   * A polygons texture (two slots per texel) fits when it holds every record
   * and at least one padding slot after the last.
   */
  predicate PositionsFit(t: Texture, polygonCount: nat, totalPositions: nat) {
    2 * Texels(t) > 2 * polygonCount + 2 * totalPositions
  }

  /** An extents texture (four slots per texel) fits when it holds every group record. */
  predicate ExtentsFit(t: Texture, groupCount: nat) {
    4 * Texels(t) >= 8 * groupCount
  }

  /** Texels of the polygons texture: one per polygon header and one per position, two slots each. */
  function PolygonsTextureResolution(polygonCount: nat, totalPositions: nat, maxSize: nat): (t: Texture)
    requires polygonCount >= 1 && maxSize >= 1
    ensures t.width >= 1 && t.height >= 1
    ensures PositionsFit(t, polygonCount, totalPositions)
  {
    var t := TextureResolution(polygonCount + totalPositions, maxSize);
    assert 2 * (t.width * t.height) >= 4 * (polygonCount + totalPositions);
    t
  }

  /** Texels of the extents texture: one per merge group, four slots each. */
  function ExtentsTextureResolution(groupCount: nat, maxSize: nat): (t: Texture)
    requires groupCount >= 1 && maxSize >= 1
    ensures t.width >= 1 && t.height >= 1
    ensures ExtentsFit(t, groupCount)
  {
    var t := TextureResolution(groupCount, maxSize);
    assert 4 * (t.width * t.height) >= 8 * groupCount;
    t
  }

  lemma MulMonotone(a: nat, b: nat, c: nat, d: nat)
    requires a <= c && b <= d
    ensures a * b <= c * d
  {
    assert a * b <= c * b;
  }

  /**
   * The clipping-distance texture is as large as the context allows in both
   * directions: no texture within the maximum size has more texels.
   */
  function ClippingDistanceResolution(maxSize: nat): (t: Texture)
    ensures t.width == maxSize && t.height == maxSize
    ensures forall u: Texture :: u.width <= maxSize && u.height <= maxSize ==> Texels(u) <= Texels(t)
  {
    var t := Texture(maxSize, maxSize);
    assert forall u: Texture :: u.width <= maxSize && u.height <= maxSize ==> Texels(u) <= Texels(t) by {
      forall u: Texture | u.width <= maxSize && u.height <= maxSize {
        MulMonotone(u.width, u.height, maxSize, maxSize);
      }
    }
    t
  }

  /** With a maximum texture size of 64, one merge group needs a 1 x 2 extents texture. */
  lemma {:induction false} ExtentsResolutionExample()
    ensures ExtentsTextureResolution(1, 64) == Texture(1, 2)
    ensures ClippingDistanceResolution(64) == Texture(64, 64)
  {
  }
}
