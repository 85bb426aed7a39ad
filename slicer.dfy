/**
 * Extents and slices of a quantity's array on a tile and on one rank.
 *
 * A quantity has a list of dimensions and an extent per dimension. Along a
 * horizontal dimension a tile holds `n` ranks; an interface dimension has one
 * point more than the cells it bounds, and neighbouring ranks share that
 * point. The module turns a rank's extents into a tile's and back, and cuts a
 * tile's array into the slice one rank owns.
 */
module Slicer {
  import opened Ranks

  /**
   * Which component of a horizontal pair a dimension selects. The lookup of
   * a dimension name in the dimension constants is not part of this model;
   * a dimension carries its axis and whether it is an interface dimension.
   */
  datatype Axis = Horizontal0 | Horizontal1 | NonHorizontal

  datatype Dim =
    | TileDim                                // the tile dimension of a cube quantity
    | GridDim(axis: Axis, interface: bool)   // a spatial dimension

  predicate IsInterface(dim: Dim) {
    dim.GridDim? && dim.interface
  }

  function AxisOf(dim: Dim): Axis {
    if dim.TileDim? then NonHorizontal else dim.axis
  }

  /** One extra point along an interface dimension. */
  function InterfacePoints(dim: Dim): int {
    if IsInterface(dim) then 1 else 0
  }

  /** For each dimension, the component of `horizontal` its axis selects, or `nonHorizontalValue`. */
  function ListByDims(dims: seq<Dim>, horizontal: (int, int), nonHorizontalValue: int): seq<int> {
    seq(|dims|, d requires 0 <= d < |dims| =>
      match AxisOf(dims[d])
      case Horizontal0 => horizontal.0
      case Horizontal1 => horizontal.1
      case NonHorizontal => nonHorizontalValue)
  }

  /** A layout factor: an integer count or its reciprocal, held exactly. */
  datatype Ratio = Ratio(num: int, den: int)

  type Factor = f: Ratio | f.den > 0 witness Ratio(1, 1)

  /** Conversion of a real number num / den to an integer, rounding toward zero. */
  function TruncDiv(num: int, den: int): (q: int)
    requires den > 0
    ensures num >= 0 ==> q == num / den
    ensures num % den == 0 ==> q * den == num
  {
    if num >= 0 then num / den
    else
      NegatedMultiple(num, den);
      -((-num) / den)
  }

  lemma NegatedMultiple(num: int, den: int)
    requires den > 0
    ensures num % den == 0 ==> ((-num) / den) * den == -num
  {
    if num % den == 0 {
      DivBounds(num, den);
      assert -num == -(num / den) * den + 0;
      DivModUnique(-num, den, -(num / den), 0);
    }
  }

  /**
   * `(extent + add) * factor - add`, converted to an integer, where `add` is
   * -1 on an interface dimension and 0 otherwise.
   */
  function ScaleExtent(dim: Dim, extent: int, factor: Factor): int {
    var add := -InterfacePoints(dim);
    TruncDiv((extent + add) * factor.num - add * factor.den, factor.den)
  }

  function Min(a: int, b: int): int {
    if a <= b then a else b
  }

  /** The extents `extent_from_metadata` builds: one per position of the three zipped lists. */
  function ScaledExtents(dims: seq<Dim>, extent: seq<int>, factors: seq<Factor>): (r: seq<int>)
    ensures |r| == Min(|dims|, Min(|extent|, |factors|))
  {
    seq(Min(|dims|, Min(|extent|, |factors|)), j requires 0 <= j < Min(|dims|, Min(|extent|, |factors|)) =>
      ScaleExtent(dims[j], extent[j], factors[j]))
  }

  method ExtentFromMetadata(dims: seq<Dim>, extent: seq<int>, factors: seq<Factor>) returns (extents: seq<int>)
    ensures extents == ScaledExtents(dims, extent, factors)
  {
    var n := Min(|dims|, Min(|extent|, |factors|));
    extents := [];
    var j := 0;
    while j < n
      invariant 0 <= j <= n
      invariant extents == ScaledExtents(dims, extent, factors)[..j]
    {
      extents := extents + [ScaleExtent(dims[j], extent[j], factors[j])];
      j := j + 1;
    }
  }

  /** The number of ranks along each dimension: from the layout, 1 off the horizontal. */
  function LayoutCounts(dims: seq<Dim>, layout: Layout): (r: seq<int>)
    ensures |r| == |dims| && forall d :: 0 <= d < |dims| ==> r[d] > 0
  {
    ListByDims(dims, layout, 1)
  }

  function TileExtentFromRankMetadata(dims: seq<Dim>, rankExtent: seq<int>, layout: Layout): (r: seq<int>)
    ensures |r| == Min(|dims|, |rankExtent|)
    ensures forall j :: 0 <= j < |r| ==>
      var n := LayoutCounts(dims, layout)[j];
      r[j] == if IsInterface(dims[j]) then (rankExtent[j] - 1) * n + 1 else rankExtent[j] * n
  {
    var counts := LayoutCounts(dims, layout);
    ScaledExtents(dims, rankExtent, seq(|counts|, d requires 0 <= d < |counts| => Ratio(counts[d], 1)))
  }

  function RankExtentFromTileMetadata(dims: seq<Dim>, tileExtent: seq<int>, layout: Layout): (r: seq<int>)
    ensures |r| == Min(|dims|, |tileExtent|)
    ensures forall j :: 0 <= j < |r| ==>
      r[j] == ScaleExtent(dims[j], tileExtent[j], Ratio(1, LayoutCounts(dims, layout)[j]))
  {
    var counts := LayoutCounts(dims, layout);
    ScaledExtents(dims, tileExtent, seq(|counts|, d requires 0 <= d < |counts| => Ratio(1, counts[d])))
  }

  /** When the points that are not shared divide evenly, a rank's extent along one dimension. */
  lemma {:induction false} RankExtentExact(dim: Dim, tileExtent: int, n: int)
    requires n > 0 && (tileExtent - InterfacePoints(dim)) % n == 0
    ensures ScaleExtent(dim, tileExtent, Ratio(1, n)) == (tileExtent - InterfacePoints(dim)) / n + InterfacePoints(dim)
  {
    var g := InterfacePoints(dim);
    var b := (tileExtent - g) / n;
    DivBounds(tileExtent - g, n);
    assert (tileExtent - g) * 1 + g * n == (b + g) * n;
    DivModUnique((b + g) * n, n, b + g, 0);
  }

  /** Scaling a rank's extents up to a tile and back down gives the rank's extents. */
  lemma {:induction false} RankTileRankRoundTrip(dims: seq<Dim>, rankExtent: seq<int>, layout: Layout)
    ensures RankExtentFromTileMetadata(dims, TileExtentFromRankMetadata(dims, rankExtent, layout), layout)
      == rankExtent[..Min(|dims|, |rankExtent|)]
  {
    var tile := TileExtentFromRankMetadata(dims, rankExtent, layout);
    var back := RankExtentFromTileMetadata(dims, tile, layout);
    forall j | 0 <= j < |back|
      ensures back[j] == rankExtent[j]
    {
      var n := LayoutCounts(dims, layout)[j];
      var g := InterfacePoints(dims[j]);
      assert tile[j] - g == (rankExtent[j] - g) * n;
      DivModUnique(tile[j] - g, n, rankExtent[j] - g, 0);
      RankExtentExact(dims[j], tile[j], n);
    }
  }

  /**
   * Scaling a tile's extents down to a rank and back up gives the tile's
   * extents, when along each dimension the points that are not shared divide
   * evenly among the ranks.
   */
  lemma {:induction false} TileRankTileRoundTrip(dims: seq<Dim>, tileExtent: seq<int>, layout: Layout)
    requires forall j :: 0 <= j < Min(|dims|, |tileExtent|) ==>
      (tileExtent[j] - InterfacePoints(dims[j])) % LayoutCounts(dims, layout)[j] == 0
    ensures TileExtentFromRankMetadata(dims, RankExtentFromTileMetadata(dims, tileExtent, layout), layout)
      == tileExtent[..Min(|dims|, |tileExtent|)]
  {
    var rank := RankExtentFromTileMetadata(dims, tileExtent, layout);
    var back := TileExtentFromRankMetadata(dims, rank, layout);
    forall j | 0 <= j < |back|
      ensures back[j] == tileExtent[j]
    {
      var n := LayoutCounts(dims, layout)[j];
      var g := InterfacePoints(dims[j]);
      RankExtentExact(dims[j], tileExtent[j], n);
      DivBounds(tileExtent[j] - g, n);
    }
  }

  // ---------------------------------------------------------------------------
  // Subtile slices

  /** Where a rank sits along one dimension of a quantity. */
  datatype IndexData1D = IndexData1D(dim: Dim, extent: int, iSubtile: int, nRanks: int)
  {
    function ExtentMinusGridcellCount(): int {
      InterfacePoints(dim)
    }

    /** The points of the rank's extent that no other rank shares. */
    function BaseExtent(): int {
      extent - ExtentMinusGridcellCount()
    }

    predicate IsEndIndex() {
      iSubtile == nRanks - 1
    }
  }

  /** The half-open index range `[start, stop)`. */
  datatype Slice = Slice(start: int, stop: int)
  {
    predicate Contains(x: int) {
      start <= x < stop
    }
  }

  /** The per-dimension data `_index_generator` yields for a rank at `subtileIndex`. */
  function IndexGenerator(dims: seq<Dim>, tileExtent: seq<int>, subtileIndex: SubtilePosition, layout: Layout)
    : (r: seq<IndexData1D>)
    ensures |r| == Min(|dims|, |tileExtent|)
  {
    var subtileExtent := RankExtentFromTileMetadata(dims, tileExtent, layout);
    var quantityLayout := LayoutCounts(dims, layout);
    var quantitySubtileIndex := ListByDims(dims, (subtileIndex.0, subtileIndex.1), 0);
    seq(|subtileExtent|, j requires 0 <= j < |subtileExtent| =>
      IndexData1D(dims[j], subtileExtent[j], quantitySubtileIndex[j], quantityLayout[j]))
  }

  /**
   * The slice along one dimension: all of the rank's extent for the last
   * rank or with overlap, otherwise only the points it does not share.
   */
  function SliceOf(index: IndexData1D, overlap: bool): Slice {
    var start := index.iSubtile * index.BaseExtent();
    if index.IsEndIndex() || overlap then Slice(start, start + index.extent)
    else Slice(start, start + index.BaseExtent())
  }

  /** The slice of a tile's dimension of extent `tileExtent` held by rank `i` of `n`. */
  function AxisSlice(dim: Dim, tileExtent: int, i: int, n: int, overlap: bool): Slice
    requires n > 0
  {
    SliceOf(IndexData1D(dim, ScaleExtent(dim, tileExtent, Ratio(1, n)), i, n), overlap)
  }

  /** The slices `subtile_slice` returns: one per dimension, each the rank's slice of it. */
  function SubtileSlices(dims: seq<Dim>, globalExtent: seq<int>, layout: Layout, subtileIndex: SubtilePosition,
                         overlap: bool): (r: seq<Slice>)
    ensures |r| == Min(|dims|, |globalExtent|)
    ensures forall j :: 0 <= j < |r| ==>
      r[j] == AxisSlice(dims[j], globalExtent[j], ListByDims(dims, (subtileIndex.0, subtileIndex.1), 0)[j],
                        LayoutCounts(dims, layout)[j], overlap)
  {
    var indices := IndexGenerator(dims, globalExtent, subtileIndex, layout);
    seq(|indices|, j requires 0 <= j < |indices| => SliceOf(indices[j], overlap))
  }

  method SubtileSlice(dims: seq<Dim>, globalExtent: seq<int>, layout: Layout, subtileIndex: SubtilePosition,
                      overlap: bool) returns (slices: seq<Slice>)
    ensures slices == SubtileSlices(dims, globalExtent, layout, subtileIndex, overlap)
  {
    var indices := IndexGenerator(dims, globalExtent, subtileIndex, layout);
    slices := [];
    var j := 0;
    while j < |indices|
      invariant 0 <= j <= |indices|
      invariant slices == SubtileSlices(dims, globalExtent, layout, subtileIndex, overlap)[..j]
    {
      var index := indices[j];
      var start := index.iSubtile * index.BaseExtent();
      var end;
      if index.IsEndIndex() || overlap {
        end := start + index.extent;
      } else {
        end := start + index.BaseExtent();
      }
      slices := slices + [Slice(start, end)];
      j := j + 1;
    }
  }

  // ---------------------------------------------------------------------------
  // Properties of the slices along one dimension

  /**
   * Without overlap the n ranks' slices tile `[0, tileExtent)`: the first
   * starts at 0, each stops where the next starts, and the last stops at the
   * end, so the shared interface point belongs to the greater rank.
   */
  lemma {:induction false} AxisSlicesAbut(dim: Dim, tileExtent: int, n: int)
    requires n > 0 && tileExtent >= InterfacePoints(dim)
    requires (tileExtent - InterfacePoints(dim)) % n == 0
    ensures AxisSlice(dim, tileExtent, 0, n, false).start == 0
    ensures forall i :: 0 <= i < n - 1 ==>
      AxisSlice(dim, tileExtent, i, n, false).stop == AxisSlice(dim, tileExtent, i + 1, n, false).start
    ensures AxisSlice(dim, tileExtent, n - 1, n, false).stop == tileExtent
    ensures forall i :: 0 <= i < n ==>
      AxisSlice(dim, tileExtent, i, n, false).start <= AxisSlice(dim, tileExtent, i, n, false).stop
  {
    var g := InterfacePoints(dim);
    var b := (tileExtent - g) / n;
    AxisSliceBounds(dim, tileExtent, n, 0);
    AxisSliceBounds(dim, tileExtent, n, n - 1);
    assert b >= 0 by {
      DivBounds(tileExtent - g, n);
    }
    forall i | 0 <= i < n - 1
      ensures AxisSlice(dim, tileExtent, i, n, false).stop == AxisSlice(dim, tileExtent, i + 1, n, false).start
    {
      AxisSliceBounds(dim, tileExtent, n, i);
      AxisSliceBounds(dim, tileExtent, n, i + 1);
      assert i * b + b == (i + 1) * b;
    }
    forall i | 0 <= i < n
      ensures AxisSlice(dim, tileExtent, i, n, false).start <= AxisSlice(dim, tileExtent, i, n, false).stop
    {
      AxisSliceBounds(dim, tileExtent, n, i);
      if i == n - 1 {
        MulMonotone(i, n, b);
        assert n * b == b * n;
      }
    }
  }

  /** The rank whose non-overlapping slice holds point x. */
  function Owner(x: int, base: int, n: int): int {
    if base <= 0 then n - 1
    else if x / base < n - 1 then x / base
    else n - 1
  }

  /** The bounds of rank i's slice without overlap, for a base extent b per rank. */
  lemma {:induction false} AxisSliceBounds(dim: Dim, tileExtent: int, n: int, i: int)
    requires n > 0 && (tileExtent - InterfacePoints(dim)) % n == 0
    ensures var b := (tileExtent - InterfacePoints(dim)) / n;
      && tileExtent == n * b + InterfacePoints(dim)
      && AxisSlice(dim, tileExtent, i, n, false).start == i * b
      && AxisSlice(dim, tileExtent, i, n, false).stop == (if i == n - 1 then tileExtent else i * b + b)
      && AxisSlice(dim, tileExtent, i, n, true) == Slice(i * b, i * b + b + InterfacePoints(dim))
  {
    var g := InterfacePoints(dim);
    var b := (tileExtent - g) / n;
    RankExtentExact(dim, tileExtent, n);
    DivBounds(tileExtent - g, n);
    assert (n - 1) * b + b == n * b;
  }

  /** Without overlap every point of `[0, tileExtent)` lies in the slice of exactly one rank. */
  lemma {:induction false} AxisSlicesHaveOneOwner(dim: Dim, tileExtent: int, n: int, x: int, i: int)
    requires n > 0 && (tileExtent - InterfacePoints(dim)) % n == 0
    requires 0 <= x < tileExtent && 0 <= i < n
    ensures AxisSlice(dim, tileExtent, i, n, false).Contains(x) <==>
      i == Owner(x, (tileExtent - InterfacePoints(dim)) / n, n)
  {
    var b := (tileExtent - InterfacePoints(dim)) / n;
    AxisSliceBounds(dim, tileExtent, n, i);
    OwnerArithmetic(x, b, n, i, tileExtent);
  }

  lemma OwnerArithmetic(x: int, b: int, n: int, i: int, end: int)
    requires n > 0 && b >= 0 && 0 <= x < end && n * b <= end && 0 <= i < n
    ensures (i * b <= x < (if i == n - 1 then end else i * b + b)) <==> i == Owner(x, b, n)
  {
    if b > 0 {
      DivBounds(x, b);
      var q := x / b;
      if i < q {
        MulMonotone(i + 1, q, b);
      } else if i > q {
        MulMonotone(q + 1, i, b);
      }
    } else {
      assert i * b == 0;
    }
  }

  /**
   * With overlap every rank holds its whole extent, so neighbouring slices
   * share exactly the interface points, and the last stops at the end.
   */
  lemma {:induction false} AxisSlicesOverlap(dim: Dim, tileExtent: int, n: int)
    requires n > 0 && (tileExtent - InterfacePoints(dim)) % n == 0
    ensures forall i :: 0 <= i < n - 1 ==>
      AxisSlice(dim, tileExtent, i, n, true).stop - AxisSlice(dim, tileExtent, i + 1, n, true).start
        == InterfacePoints(dim)
    ensures forall i :: 0 <= i < n ==>
      AxisSlice(dim, tileExtent, i, n, true).stop - AxisSlice(dim, tileExtent, i, n, true).start
        == (tileExtent - InterfacePoints(dim)) / n + InterfacePoints(dim)
    ensures AxisSlice(dim, tileExtent, n - 1, n, true).stop == tileExtent
  {
    var g := InterfacePoints(dim);
    var b := (tileExtent - g) / n;
    forall i | 0 <= i < n - 1
      ensures AxisSlice(dim, tileExtent, i, n, true).stop - AxisSlice(dim, tileExtent, i + 1, n, true).start == g
    {
      AxisSliceBounds(dim, tileExtent, n, i);
      AxisSliceBounds(dim, tileExtent, n, i + 1);
      assert i * b + b == (i + 1) * b;
    }
    forall i | 0 <= i < n
      ensures AxisSlice(dim, tileExtent, i, n, true).stop - AxisSlice(dim, tileExtent, i, n, true).start == b + g
    {
      AxisSliceBounds(dim, tileExtent, n, i);
    }
    AxisSliceBounds(dim, tileExtent, n, n - 1);
    assert (n - 1) * b + b == n * b;
  }

  /** A dimension that is not horizontal is not split: its one rank holds all of it. */
  lemma {:induction false} NonHorizontalSliceIsWhole(dims: seq<Dim>, globalExtent: seq<int>, layout: Layout,
                                                     subtileIndex: SubtilePosition, overlap: bool, j: int)
    requires 0 <= j < Min(|dims|, |globalExtent|) && AxisOf(dims[j]) == NonHorizontal
    ensures SubtileSlices(dims, globalExtent, layout, subtileIndex, overlap)[j] == Slice(0, globalExtent[j])
  {
    var g := InterfacePoints(dims[j]);
    RankExtentExact(dims[j], globalExtent[j], 1);
  }
}
