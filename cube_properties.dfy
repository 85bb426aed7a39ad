/**
 * Further properties of the cubed-sphere partitioner: the top edge of a
 * layout with more rows than columns, the two places where the source
 * departs from what it evidently means, and the extents and slices of cube
 * quantities.
 */
module CubeProperties {
  import opened Wrappers
  import opened Ranks
  import opened Tile
  import opened FanOut
  import opened Cube
  import opened CubeSeams
  import Slicer

  // ---------------------------------------------------------------------------
  // The top edge of a tall layout

  /**
   * The top edge of an even tile fails, with the IndexError its fan-out
   * raises, exactly when the layout has more rows than columns; every other
   * northern edge is found.
   */
  lemma {:induction false} NorthFailsOnTallLayouts(p: CubedSpherePartitioner, rank: int)
    ensures p.NorthBoundaries(rank).Failure? <==>
      p.tile.OnTileTop(rank) && IsEven(p.TileIndex(rank)) && p.Layout().1 > p.Layout().0
    ensures p.NorthBoundaries(rank).Failure? ==> p.NorthBoundaries(rank).error == IndexError
  {
    var y := RowPosition(p.Layout(), rank);
    assert p.tile.OnTileTop(rank) <==> y == p.Layout().1 - 1;
  }

  // ---------------------------------------------------------------------------
  // Findings

  /**
   * On an n-by-n layout the source's fix-up `>` changes the northern
   * boundary at exactly one rank, the top-left rank of tile 5, whose target
   * it leaves at the total rank count, which is no rank.
   */
  lemma {:induction false} NorthAsWrittenDiffers(p: CubedSpherePartitioner, t: int, k: int, i: int)
    requires Square(p) && OnCube(p.Layout().0, t, k, i)
    ensures var n, rank := p.Layout().0, RankOf(p.Layout(), t, k, i);
      p.NorthBoundariesAsWritten(rank) != p.NorthBoundaries(rank) <==> t == 5 && k == n - 1 && i == 0
    ensures var n, rank := p.Layout().0, RankOf(p.Layout(), t, k, i);
      t == 5 && k == n - 1 && i == 0 ==>
        p.NorthBoundariesAsWritten(rank) == Success([SimpleBoundary(North, rank, p.TotalRanks(), 0)])
  {
    var n := p.Layout().0;
    CellFacts(p, t, k, i);
    if k == n - 1 && !IsEven(t) {
      NorthAsWrittenOddTop(p, t, i);
    } else {
      NorthAsWrittenElsewhere(p, RankOf(p.Layout(), t, k, i));
    }
  }

  /** Off the top edge of an odd tile the source's northern boundaries are the corrected ones. */
  lemma NorthAsWrittenElsewhere(p: CubedSpherePartitioner, rank: int)
    requires !(p.tile.OnTileTop(rank) && !IsEven(p.TileIndex(rank)))
    ensures p.NorthBoundariesAsWritten(rank) == p.NorthBoundaries(rank)
  {
  }

  /** On the top edge of an odd tile the source's fix-up and the corrected one part only at tile 5, column 0. */
  lemma {:induction false} NorthAsWrittenOddTop(p: CubedSpherePartitioner, t: int, i: int)
    requires Square(p) && IsCell(p, t, p.Layout().0 - 1, i) && !IsEven(t)
    ensures var rank := RankOf(p.Layout(), t, p.Layout().0 - 1, i);
      && (p.NorthBoundariesAsWritten(rank) != p.NorthBoundaries(rank) <==> t == 5 && i == 0)
      && (t == 5 && i == 0 ==>
            p.NorthBoundariesAsWritten(rank) == Success([SimpleBoundary(North, rank, p.TotalRanks(), 0)]))
  {
    var layout, n := p.Layout(), p.Layout().0;
    var rank := RankOf(layout, t, n - 1, i);
    CellFacts(p, t, n - 1, i);
    TileEdgesOfCell(p, t, n - 1, i);
    NorthOddTopStep(p, rank);
    NorthFixUpAsWritten(p, t, i);
    NorthFixUp(p, t, i);
    RankOfOnCube(p, (t + 1) % 6, 0, i);
  }

  /** Both fix-ups of the top edge of an odd tile, side by side. */
  lemma NorthOddTopStep(p: CubedSpherePartitioner, rank: int)
    requires p.tile.OnTileTop(rank) && !IsEven(p.TileIndex(rank))
    ensures var b, m, total := p.tile.TopEdge(rank), p.tile.TotalRanks(), p.TotalRanks();
      && p.NorthBoundariesAsWritten(rank) == Success([b.(toRank := ShiftUpAsWritten(b.toRank + m, total))])
      && p.NorthBoundaries(rank) == Success([b.(toRank := ShiftUp(b.toRank + m, total))])
  {
  }

  /** The source's fix-up of the top edge of an odd tile: right except from tile 5, column 0. */
  lemma {:induction false} NorthFixUpAsWritten(p: CubedSpherePartitioner, t: int, i: int)
    requires IsCell(p, t, 0, i)
    ensures ShiftUpAsWritten(RankOf(p.Layout(), t, 0, i) + p.tile.TotalRanks(), p.TotalRanks())
         == if t == 5 && i == 0 then p.TotalRanks() else RankOf(p.Layout(), (t + 1) % 6, 0, i)
  {
    var layout := p.Layout();
    RankOfShift(layout, t, 0, i, 1);
    if t == 5 {
      RankOfShift(layout, 0, 0, i, 6);
      RankOfMod(p, 6, 0, i);
    } else {
      RankOfOnCube(p, t + 1, 0, i);
    }
  }

  /** Layout (2, 2): rank 22 is the top-left rank of tile 5; as written its northern target is 24, the total. */
  lemma NorthOfRank22(p: CubedSpherePartitioner)
    requires p.Layout() == (2, 2)
    ensures p.NorthBoundariesAsWritten(22) == Success([SimpleBoundary(North, 22, 24, 0)])
  {
    assert RankOf(p.Layout(), 5, 1, 0) == 22;
    NorthAsWrittenDiffers(p, 5, 1, 0);
  }

  /** The corrected fix-up differs from the source's only when the target equals the total. */
  lemma ShiftUpDiffersOnlyAtTotal(toRank: int, totalRanks: int)
    requires totalRanks > 0 && 0 <= toRank < 2 * totalRanks
    ensures ShiftUpAsWritten(toRank, totalRanks) != ShiftUp(toRank, totalRanks) <==> toRank == totalRanks
    ensures ShiftUpAsWritten(toRank, totalRanks) == totalRanks <==> toRank == totalRanks
  {
    if toRank > totalRanks {
      ModOfShifted(toRank, totalRanks, -1);
    }
  }

  /**
   * The same `>` in the fix-ups of an odd tile's left edge and an even
   * tile's right edge never matters: for every rank of the cube, on every
   * layout, the source's western and eastern boundaries are the corrected ones.
   */
  lemma {:induction false} WestAsWrittenAgrees(p: CubedSpherePartitioner, rank: int)
    requires 0 <= rank < p.TotalRanks()
    ensures p.WestBoundariesAsWritten(rank) == p.WestBoundaries(rank)
  {
    if p.tile.OnTileLeft(rank) && !IsEven(p.TileIndex(rank)) {
      var t, k, i := CellOfRank(p, rank);
      CellFacts(p, t, k, i);
      WestOddLeftStep(p, rank);
      WestFixUpAsWritten(p, t, k);
    }
  }

  /** Both fix-ups of the left edge of an odd tile, side by side. */
  lemma WestOddLeftStep(p: CubedSpherePartitioner, rank: int)
    requires p.tile.OnTileLeft(rank) && !IsEven(p.TileIndex(rank))
    ensures var b, m, total := p.tile.LeftEdge(rank), p.tile.TotalRanks(), p.TotalRanks();
      && b.toRank == rank + p.Layout().0 - 1
      && p.WestBoundariesAsWritten(rank) == [b.(toRank := ShiftUpAsWritten(b.toRank - m, total))]
      && p.WestBoundaries(rank) == [b.(toRank := ShiftUp(b.toRank - m, total))]
  {
  }

  /** From the last column of an odd tile, one tile back lands inside the cube, where neither fix-up acts. */
  lemma {:induction false} WestFixUpAsWritten(p: CubedSpherePartitioner, t: int, k: int)
    requires IsCell(p, t, k, 0) && !IsEven(t)
    ensures var layout, total := p.Layout(), p.TotalRanks();
      var x := RankOf(layout, t, k, layout.0 - 1) - p.tile.TotalRanks();
      ShiftUpAsWritten(x, total) == ShiftUp(x, total) == RankOf(layout, t - 1, k, layout.0 - 1)
  {
    var layout := p.Layout();
    RankOfShift(layout, t, k, layout.0 - 1, -1);
    RankOfOnCube(p, t - 1, k, layout.0 - 1);
  }

  /** The same agreement for the eastern boundaries. */
  lemma {:induction false} EastAsWrittenAgrees(p: CubedSpherePartitioner, rank: int)
    requires 0 <= rank < p.TotalRanks()
    ensures p.EastBoundariesAsWritten(rank) == p.EastBoundaries(rank)
  {
    if p.tile.OnTileRight(rank) && IsEven(p.TileIndex(rank)) {
      var t, k, i := CellOfRank(p, rank);
      CellFacts(p, t, k, i);
      EastEvenRightStep(p, rank);
      EastFixUpAsWritten(p, t, k);
    }
  }

  /** Both fix-ups of the right edge of an even tile, side by side. */
  lemma EastEvenRightStep(p: CubedSpherePartitioner, rank: int)
    requires p.tile.OnTileRight(rank) && IsEven(p.TileIndex(rank))
    ensures var b, m, total := p.tile.RightEdge(rank), p.tile.TotalRanks(), p.TotalRanks();
      && b.toRank == rank - p.Layout().0 + 1
      && p.EastBoundariesAsWritten(rank) == [b.(toRank := ShiftUpAsWritten(b.toRank + m, total))]
      && p.EastBoundaries(rank) == [b.(toRank := ShiftUp(b.toRank + m, total))]
  {
  }

  /** From the first column of an even tile, one tile on lands inside the cube, where neither fix-up acts. */
  lemma {:induction false} EastFixUpAsWritten(p: CubedSpherePartitioner, t: int, k: int)
    requires IsCell(p, t, k, p.Layout().0 - 1) && IsEven(t)
    ensures var layout, total := p.Layout(), p.TotalRanks();
      var x := RankOf(layout, t, k, 0) + p.tile.TotalRanks();
      ShiftUpAsWritten(x, total) == ShiftUp(x, total) == RankOf(layout, t + 1, k, 0)
  {
    var layout := p.Layout();
    RankOfShift(layout, t, k, 0, 1);
    RankOfOnCube(p, t + 1, k, 0);
  }

  /** As the source writes `_cached_boundary`, it returns only where a corner has no boundary. */
  lemma AsWrittenFindsNoBoundary(p: CubedSpherePartitioner, d: Direction, rank: int)
    ensures p.BoundaryAsWritten(d, rank).Success? ==>
      !IsEdge(d) && p.AtVertex(d, rank) && p.BoundaryAsWritten(d, rank) == Success(Corner(None))
  {
  }

  /**
   * On an n-by-n layout the source's `_cached_boundary` fails with
   * AttributeError wherever the corrected one finds a boundary.
   */
  lemma {:induction false} AsWrittenFailsOnSquare(p: CubedSpherePartitioner, d: Direction, rank: int)
    requires Square(p) && 0 <= rank < p.TotalRanks()
    ensures p.BoundaryAsWritten(d, rank) ==
      if !IsEdge(d) && p.AtVertex(d, rank) then Success(Corner(None)) else Failure(AttributeError)
    ensures p.BoundaryOf(d, rank).Success?
  {
    var t, k, i := CellOfRank(p, rank);
    EdgeOnSquare(p, if IsEdge(d) then d else p.FirstEdge(d), t, k, i);
    BoundaryOnSquare(p, d, rank);
  }

  // ---------------------------------------------------------------------------
  // Extents and slices

  /** A rank's extents, grown to the cube's and cut back to a rank's, come back unchanged. */
  lemma {:induction false} CubeExtentRoundTrip(p: CubedSpherePartitioner, dims: seq<Slicer.Dim>, rankExtent: seq<int>)
    ensures p.SubtileExtent([Slicer.TileDim] + dims, p.GlobalExtent(dims, rankExtent))
      == Success(rankExtent[..Slicer.Min(|dims|, |rankExtent|)])
  {
    assert ([Slicer.TileDim] + dims)[1..] == dims;
    assert Tail(p.GlobalExtent(dims, rankExtent)) == Slicer.TileExtentFromRankMetadata(dims, rankExtent, p.Layout());
    Slicer.RankTileRankRoundTrip(dims, rankExtent, p.Layout());
  }

  /**
   * A cube quantity's extents, cut to a rank's and grown back, come back
   * unchanged, when the tile dimension comes first with six tiles and the
   * points along each other dimension divide evenly among the ranks.
   */
  lemma {:induction false} CubeExtentRoundTripFromCube(p: CubedSpherePartitioner, dims: seq<Slicer.Dim>,
                                                      cubeExtent: seq<int>)
    requires |dims| > 0 && dims[0] == Slicer.TileDim && |cubeExtent| > 0 && cubeExtent[0] == 6
    requires forall j :: 0 <= j < Slicer.Min(|dims| - 1, |cubeExtent| - 1) ==>
      (cubeExtent[1..][j] - Slicer.InterfacePoints(dims[1..][j])) % Slicer.LayoutCounts(dims[1..], p.Layout())[j] == 0
    ensures var r := p.SubtileExtent(dims, cubeExtent);
      r.Success? && p.GlobalExtent(dims[1..], r.value) == cubeExtent[..Slicer.Min(|dims|, |cubeExtent|)]
  {
    var layout, tile := p.Layout(), cubeExtent[1..];
    var m := Slicer.Min(|dims| - 1, |tile|);
    var r := Slicer.RankExtentFromTileMetadata(dims[1..], tile, layout);
    assert p.SubtileExtent(dims, cubeExtent) == Success(r);
    assert p.GlobalExtent(dims[1..], r) == [6] + Slicer.TileExtentFromRankMetadata(dims[1..], r, layout);
    Slicer.TileRankTileRoundTrip(dims[1..], tile, layout);
    HeadAndTail(cubeExtent, m);
  }

  /** A sequence is its head followed by its tail, cut at any length. */
  lemma HeadAndTail(s: seq<int>, m: int)
    requires 0 < |s| && 0 <= m < |s|
    ensures [s[0]] + s[1..][..m] == s[..m + 1]
  {
    assert forall j :: 0 <= j < m + 1 ==> ([s[0]] + s[1..][..m])[j] == s[j];
  }

  /**
   * `subtile_slice` fails exactly when the first dimension is missing or is
   * not the tile dimension; otherwise it selects the rank's tile, one of the
   * six, and then one range per remaining dimension.
   */
  lemma {:induction false} SubtileSelectorsShape(p: CubedSpherePartitioner, rank: int, dims: seq<Slicer.Dim>,
                                                globalExtent: seq<int>, overlap: bool)
    requires 0 <= rank < p.TotalRanks()
    ensures var r := p.SubtileSelectors(rank, dims, globalExtent, overlap);
      && (|dims| == 0 ==> r == Failure(IndexError))
      && (|dims| > 0 && dims[0] != Slicer.TileDim ==> r == Failure(NotImplementedError))
      && (|dims| > 0 && dims[0] == Slicer.TileDim ==>
            && r.Success?
            && |r.value| == 1 + Slicer.Min(|dims| - 1, |Tail(globalExtent)|)
            && r.value[0] == TileSelector(p.TileIndex(rank)) && 0 <= p.TileIndex(rank) < 6
            && forall j :: 1 <= j < |r.value| ==> r.value[j].RangeSelector?)
  {
  }

  /** A dimension that is not horizontal is not split: every rank selects all of it. */
  lemma {:induction false} NonHorizontalSelectorIsWhole(p: CubedSpherePartitioner, rank: int, dims: seq<Slicer.Dim>,
                                                       globalExtent: seq<int>, overlap: bool, j: int)
    requires |dims| > 0 && dims[0] == Slicer.TileDim
    requires 1 <= j < Slicer.Min(|dims|, |globalExtent|) && Slicer.AxisOf(dims[j]) == Slicer.NonHorizontal
    ensures var r := p.SubtileSelectors(rank, dims, globalExtent, overlap);
      r.Success? && |r.value| > j && r.value[j] == RangeSelector(Slicer.Slice(0, globalExtent[j]))
  {
    Slicer.NonHorizontalSliceIsWhole(dims[1..], Tail(globalExtent), p.Layout(), p.tile.SubtileIndex(rank), overlap, j - 1);
  }
}
