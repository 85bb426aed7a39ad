/**
 * The partitioner of the whole cubed sphere: six tiles, each cut into ranks
 * by the same tile partitioner.
 *
 * Inside a tile a rank's neighbours are the tile partitioner's. Across a
 * seam between two tiles the neighbour depends on the tile's parity: one of
 * the two seams leaving a tile through its left (right, top, bottom) edge
 * joins tiles whose grids are turned against each other, the other joins
 * them edge to edge. A turned seam may face a different number of ranks on
 * the other side; the fan-out module finds them. Edge boundaries are lists,
 * one entry per rank faced; a corner takes two edge steps in turn.
 */
module Cube {
  import opened Wrappers
  import opened Ranks
  import opened Tile
  import opened FanOut
  import Slicer

  /** That `(6 * n) % 6 == 0` and `(6 * n) / 6 == n`. */
  lemma SixfoldTotal(n: int)
    requires n > 0
    ensures (6 * n) % 6 == 0 && (6 * n) / 6 == n
  {
    DivModUnique(6 * n, 6, n, 0);
  }

  /** The boundaries a fan-out finds: every target rank reduced modulo the total. */
  function FanOutBoundaries(boundaryType: Direction, rank: int, toRanksSeq: seq<int>, nClockwiseRotations: int,
                            totalRanks: int): seq<SimpleBoundary>
    requires totalRanks > 0
  {
    seq(|toRanksSeq|, n requires 0 <= n < |toRanksSeq| =>
      SimpleBoundary(boundaryType, rank, toRanksSeq[n] % totalRanks, nClockwiseRotations))
  }

  /**
   * The fix-up after stepping onto the next tile: a target at or past the
   * total is reduced modulo the total.
   */
  function ShiftUp(toRank: int, totalRanks: int): (r: int)
    requires totalRanks > 0
    ensures 0 <= toRank < 2 * totalRanks ==> 0 <= r < totalRanks && r % totalRanks == toRank % totalRanks
  {
    if toRank >= totalRanks then
      if toRank < 2 * totalRanks then ModOfShifted(toRank, totalRanks, -1); toRank % totalRanks
      else toRank % totalRanks
    else
      if 0 <= toRank then DivModUnique(toRank, totalRanks, 0, toRank); toRank
      else toRank
  }

  /** The same fix-up with the comparison the source writes, `>`, which lets a target equal to the total through. */
  function ShiftUpAsWritten(toRank: int, totalRanks: int): int
    requires totalRanks > 0
  {
    if toRank > totalRanks then toRank % totalRanks else toRank
  }

  /** The fix-up after stepping onto the previous tile: a negative target is reduced modulo the total. */
  function ShiftDown(toRank: int, totalRanks: int): (r: int)
    requires totalRanks > 0
    ensures -totalRanks <= toRank < totalRanks ==> 0 <= r < totalRanks && r % totalRanks == toRank % totalRanks
  {
    if toRank < 0 then
      if -totalRanks <= toRank then ModOfShifted(toRank, totalRanks, 1); toRank % totalRanks
      else toRank % totalRanks
    else
      if toRank < totalRanks then DivModUnique(toRank, totalRanks, 0, toRank); toRank
      else toRank
  }

  predicate IsEdge(d: Direction) {
    d == West || d == East || d == North || d == South
  }

  /** What the boundary of a rank is: a list for an edge, none or one boundary for a corner. */
  datatype Neighbours =
    | Edge(boundaries: seq<SimpleBoundary>)
    | Corner(corner: Option<SimpleBoundary>)

  /** An entry of the tuple `subtile_slice` returns: the tile index, then one slice per dimension. */
  datatype Selector =
    | TileSelector(index: int)
    | RangeSelector(slice: Slicer.Slice)

  datatype CubedSpherePartitioner = CubedSpherePartitioner(tile: TilePartitioner)
  {
    function Layout(): Layout {
      tile.layout
    }

    function TotalRanks(): (n: int)
      ensures n > 0 && n == 6 * tile.TotalRanks()
    {
      6 * tile.TotalRanks()
    }

    /** `get_tile_index(rank, total_ranks)`, which cannot fail for six tiles of ranks. */
    function TileIndex(rank: int): (t: int)
      ensures t == rank / tile.TotalRanks()
      ensures 0 <= rank < TotalRanks() ==> 0 <= t < 6
    {
      SixfoldTotal(tile.TotalRanks());
      GetTileIndex(rank, TotalRanks()).value
    }

    /** The lowest rank on the tile of `rank`. */
    function TileRootRank(rank: int): (r: int)
      ensures r == TileIndex(rank) * tile.TotalRanks()
      ensures r <= rank < r + tile.TotalRanks()
    {
      DivBounds(rank, tile.TotalRanks());
      tile.TotalRanks() * (rank / tile.TotalRanks())
    }

    // -------------------------------------------------------------------------
    // Edges, as specification functions

    /** The lowest rank of the tile two tiles back, which the left edge of an even tile faces. */
    function WestRootRank(rank: int): int {
      TileRootRank((rank - 2 * tile.TotalRanks()) % TotalRanks())
    }

    /** The western boundaries of `rank`. */
    function WestBoundaries(rank: int): seq<SimpleBoundary> {
      var n, total := tile.TotalRanks(), TotalRanks();
      if tile.OnTileLeft(rank) then
        if IsEven(TileIndex(rank)) then
          FanOutBoundaries(West, rank, LrTargets(Layout(), rank, WestRootRank(rank)), 1, total)
        else
          var b := tile.LeftEdge(rank);
          [b.(toRank := ShiftUp(b.toRank - n, total))]
      else
        [tile.LeftEdge(rank)]
    }

    /** The western boundaries with the source's `>` in the fix-up of an odd tile's left edge. */
    function WestBoundariesAsWritten(rank: int): seq<SimpleBoundary> {
      if tile.OnTileLeft(rank) && !IsEven(TileIndex(rank)) then
        var b := tile.LeftEdge(rank);
        [b.(toRank := ShiftUpAsWritten(b.toRank - tile.TotalRanks(), TotalRanks()))]
      else
        WestBoundaries(rank)
    }

    /** The lowest rank of the tile two tiles on, which the right edge of an odd tile faces. */
    function EastRootRank(rank: int): int {
      TileRootRank(rank) + 2 * tile.TotalRanks()
    }

    /** The eastern boundaries of `rank`. */
    function EastBoundaries(rank: int): seq<SimpleBoundary> {
      var n, total := tile.TotalRanks(), TotalRanks();
      if tile.OnTileRight(rank) then
        if !IsEven(TileIndex(rank)) then
          FanOutBoundaries(East, rank, LrTargets(Layout(), rank, EastRootRank(rank)), 1, total)
        else
          var b := tile.RightEdge(rank);
          [b.(toRank := ShiftUp(b.toRank + n, total))]
      else
        [tile.RightEdge(rank)]
    }

    /** The eastern boundaries with the source's `>` in the fix-up of an even tile's right edge. */
    function EastBoundariesAsWritten(rank: int): seq<SimpleBoundary> {
      if tile.OnTileRight(rank) && IsEven(TileIndex(rank)) then
        var b := tile.RightEdge(rank);
        [b.(toRank := ShiftUpAsWritten(b.toRank + tile.TotalRanks(), TotalRanks()))]
      else
        EastBoundaries(rank)
    }

    /** The lowest rank of the tile two tiles on, which the top edge of an even tile faces. */
    function NorthRootRank(rank: int): int {
      (TileIndex(rank) + 2) * tile.TotalRanks()
    }

    /** The northern boundaries of `rank`, or the IndexError its fan-out raises. */
    function NorthBoundaries(rank: int): Result<seq<SimpleBoundary>> {
      var n, total := tile.TotalRanks(), TotalRanks();
      if tile.OnTileTop(rank) then
        if IsEven(TileIndex(rank)) then
          match UlTargets(Layout(), rank, NorthRootRank(rank))
          case Success(toRanksSeq) => Success(FanOutBoundaries(North, rank, toRanksSeq, 3, total))
          case Failure(e) => Failure(e)
        else
          var b := tile.TopEdge(rank);
          Success([b.(toRank := ShiftUp(b.toRank + n, total))])
      else
        Success([tile.TopEdge(rank)])
    }

    /** The northern boundaries with the source's `>` in the fix-up of an odd tile's top edge. */
    function NorthBoundariesAsWritten(rank: int): Result<seq<SimpleBoundary>> {
      if tile.OnTileTop(rank) && !IsEven(TileIndex(rank)) then
        var b := tile.TopEdge(rank);
        Success([b.(toRank := ShiftUpAsWritten(b.toRank + tile.TotalRanks(), TotalRanks()))])
      else
        NorthBoundaries(rank)
    }

    /** The lowest rank of the tile four tiles on, which the bottom edge of an odd tile faces. */
    function SouthRootRank(rank: int): int {
      (TileRootRank(rank) + 4 * tile.TotalRanks()) % TotalRanks()
    }

    /**
     * The southern boundaries of `rank`. The fan-out here starts from the
     * bottom row, which always has a count in the boundary sequence, so it
     * cannot fail.
     */
    function SouthBoundaries(rank: int): (r: Result<seq<SimpleBoundary>>)
      ensures r.Success?
    {
      var n, total := tile.TotalRanks(), TotalRanks();
      if tile.OnTileBottom(rank) && !IsEven(TileIndex(rank)) then
        match UlTargets(Layout(), rank, SouthRootRank(rank))
        case Success(toRanksSeq) => Success(FanOutBoundaries(South, rank, toRanksSeq, 3, total))
        case Failure(e) => Failure(e)
      else
        var b := tile.BottomEdge(rank);
        if tile.OnTileBottom(rank) then Success([b.(toRank := ShiftDown(b.toRank - n, total))])
        else Success([b])
    }

    function EdgeBoundaries(d: Direction, rank: int): Result<seq<SimpleBoundary>>
      requires IsEdge(d)
    {
      if d == West then Success(WestBoundaries(rank))
      else if d == East then Success(EastBoundaries(rank))
      else if d == North then NorthBoundaries(rank)
      else SouthBoundaries(rank)
    }

    // -------------------------------------------------------------------------
    // Corners, as specification functions

    /** Whether `rank` sits at the tile vertex that corner direction `d` points to. */
    predicate AtVertex(d: Direction, rank: int) {
      match d
      case NorthWest => tile.OnTileTop(rank) && tile.OnTileLeft(rank)
      case NorthEast => tile.OnTileTop(rank) && tile.OnTileRight(rank)
      case SouthWest => tile.OnTileBottom(rank) && tile.OnTileLeft(rank)
      case SouthEast => tile.OnTileBottom(rank) && tile.OnTileRight(rank)
      case _ => false
    }

    /** The edge a corner steps along first. */
    function FirstEdge(d: Direction): (e: Direction)
      ensures IsEdge(e)
    {
      match d
      case NorthWest => West
      case NorthEast => North
      case _ => South
    }

    /** The edge a corner steps along second, chosen from the starting rank's tile parity and position. */
    function SecondEdge(d: Direction, rank: int): (e: Direction)
      ensures IsEdge(e)
    {
      var even := IsEven(TileIndex(rank));
      match d
      case NorthWest => if even && tile.OnTileLeft(rank) then West else North
      case NorthEast => if even && tile.OnTileTop(rank) then South else East
      case SouthWest => if !even && tile.OnTileBottom(rank) then North else West
      case _ => if !even && tile.OnTileBottom(rank) then South else East
    }

    /**
     * Two edge steps in turn. Each step must find exactly one rank; an edge
     * that fans out to several has no single rank to step from.
     */
    function CornerBoundary(boundaryType: Direction, rank: int, first: Direction, second: Direction)
      : Result<SimpleBoundary>
      requires IsEdge(first) && IsEdge(second)
    {
      CornerFrom(boundaryType, rank, EdgeBoundaries(first, rank), second)
    }

    /** The first step's outcome `edge1` decides whether the second step is taken. */
    function CornerFrom(boundaryType: Direction, rank: int, edge1: Result<seq<SimpleBoundary>>,
                        second: Direction): Result<SimpleBoundary>
      requires IsEdge(second)
    {
      match edge1
      case Failure(e) => Failure(e)
      case Success(edge1) =>
        if |edge1| != 1 then Failure(AttributeError)
        else CornerFinish(boundaryType, rank, edge1[0], EdgeBoundaries(second, edge1[0].toRank))
    }

    /** Combines the first step's boundary `b1` with the second step's outcome `edge2`. */
    function CornerFinish(boundaryType: Direction, rank: int, b1: SimpleBoundary,
                          edge2: Result<seq<SimpleBoundary>>): Result<SimpleBoundary>
    {
      match edge2
      case Failure(e) => Failure(e)
      case Success(edge2) =>
        if |edge2| != 1 then Failure(AttributeError)
        else
          Success(SimpleBoundary(boundaryType, rank, edge2[0].toRank,
                                 b1.nClockwiseRotations + edge2[0].nClockwiseRotations))
    }

    /** The corner boundary of `rank` in corner direction `d`: none at the tile vertex. */
    function CornerOf(d: Direction, rank: int): Result<Option<SimpleBoundary>>
      requires !IsEdge(d)
    {
      if AtVertex(d, rank) then Success(None)
      else
        match CornerBoundary(d, rank, FirstEdge(d), SecondEdge(d, rank))
        case Success(b) => Success(Some(b))
        case Failure(e) => Failure(e)
    }

    /** The boundary `_cached_boundary` means to return: every target reduced modulo the total. */
    function BoundaryOf(d: Direction, rank: int): Result<Neighbours> {
      var total := TotalRanks();
      if IsEdge(d) then
        match EdgeBoundaries(d, rank)
        case Success(bs) =>
          Success(Edge(ReduceAll(bs, total)))
        case Failure(e) => Failure(e)
      else
        match CornerOf(d, rank)
        case Success(None) => Success(Corner(None))
        case Success(Some(b)) => Success(Corner(Some(Reduce(b, total))))
        case Failure(e) => Failure(e)
    }

    /**
     * `_cached_boundary` as the source writes it: it reads `to_rank` of the
     * list an edge returns, as `_get_corner` does, so it fails with
     * AttributeError wherever an edge was computed.
     */
    function BoundaryAsWritten(d: Direction, rank: int): Result<Neighbours> {
      var first := if IsEdge(d) then d else FirstEdge(d);
      if !IsEdge(d) && AtVertex(d, rank) then Success(Corner(None))
      else
        match EdgeBoundaries(first, rank)
        case Success(_) => Failure(AttributeError)
        case Failure(e) => Failure(e)
    }

    // -------------------------------------------------------------------------
    // Edges and corners, as the source computes them

    /** The loop collecting one boundary per target rank. */
    method FanOutList(boundaryType: Direction, rank: int, toRanksSeq: seq<int>, nClockwiseRotations: int)
      returns (boundaryList: seq<SimpleBoundary>)
      ensures boundaryList == FanOutBoundaries(boundaryType, rank, toRanksSeq, nClockwiseRotations, TotalRanks())
    {
      boundaryList := [];
      var n := 0;
      while n < |toRanksSeq|
        invariant 0 <= n <= |toRanksSeq|
        invariant boundaryList ==
          FanOutBoundaries(boundaryType, rank, toRanksSeq, nClockwiseRotations, TotalRanks())[..n]
      {
        boundaryList := boundaryList +
          [SimpleBoundary(boundaryType, rank, toRanksSeq[n] % TotalRanks(), nClockwiseRotations)];
        n := n + 1;
      }
    }

    method LeftEdge(rank: int) returns (boundaryList: seq<SimpleBoundary>)
      ensures boundaryList == WestBoundaries(rank)
    {
      if tile.OnTileLeft(rank) {
        if IsEven(TileIndex(rank)) {
          var toRootRank := WestRootRank(rank);
          var toRanksSeq := LrToRanks(Layout(), rank, toRootRank);
          boundaryList := FanOutList(West, rank, toRanksSeq, 1);
        } else {
          var b := tile.LeftEdge(rank);
          boundaryList := [b.(toRank := ShiftUp(b.toRank - tile.TotalRanks(), TotalRanks()))];
        }
      } else {
        boundaryList := [tile.LeftEdge(rank)];
      }
    }

    method RightEdge(rank: int) returns (boundaryList: seq<SimpleBoundary>)
      ensures boundaryList == EastBoundaries(rank)
    {
      if tile.OnTileRight(rank) {
        if !IsEven(TileIndex(rank)) {
          var toRootRank := EastRootRank(rank);
          var toRanksSeq := LrToRanks(Layout(), rank, toRootRank);
          boundaryList := FanOutList(East, rank, toRanksSeq, 1);
        } else {
          var b := tile.RightEdge(rank);
          boundaryList := [b.(toRank := ShiftUp(b.toRank + tile.TotalRanks(), TotalRanks()))];
        }
      } else {
        boundaryList := [tile.RightEdge(rank)];
      }
    }

    method TopEdge(rank: int) returns (r: Result<seq<SimpleBoundary>>)
      ensures r == NorthBoundaries(rank)
    {
      if tile.OnTileTop(rank) {
        if IsEven(TileIndex(rank)) {
          var toRootRank := NorthRootRank(rank);
          var toRanks := UlToRanks(Layout(), rank, toRootRank);
          if toRanks.Failure? {
            return Failure(toRanks.error);
          }
          var boundaryList := FanOutList(North, rank, toRanks.value, 3);
          r := Success(boundaryList);
        } else {
          var b := tile.TopEdge(rank);
          r := Success([b.(toRank := ShiftUp(b.toRank + tile.TotalRanks(), TotalRanks()))]);
        }
      } else {
        r := Success([tile.TopEdge(rank)]);
      }
    }

    method BottomEdge(rank: int) returns (r: Result<seq<SimpleBoundary>>)
      ensures r == SouthBoundaries(rank)
    {
      if tile.OnTileBottom(rank) && !IsEven(TileIndex(rank)) {
        var toRootRank := SouthRootRank(rank);
        var toRanks := UlToRanks(Layout(), rank, toRootRank);
        var boundaryList := FanOutList(South, rank, toRanks.value, 3);
        r := Success(boundaryList);
      } else {
        var b := tile.BottomEdge(rank);
        if tile.OnTileBottom(rank) {
          b := b.(toRank := ShiftDown(b.toRank - tile.TotalRanks(), TotalRanks()));
        }
        r := Success([b]);
      }
    }

    /** The edge method for edge direction `d`, standing for the edge function a corner is handed. */
    method EdgeStep(d: Direction, rank: int) returns (r: Result<seq<SimpleBoundary>>)
      requires IsEdge(d)
      ensures r == EdgeBoundaries(d, rank)
    {
      if d == West {
        var boundaryList := LeftEdge(rank);
        r := Success(boundaryList);
      } else if d == East {
        var boundaryList := RightEdge(rank);
        r := Success(boundaryList);
      } else if d == North {
        r := TopEdge(rank);
      } else {
        r := BottomEdge(rank);
      }
    }

    method GetCorner(boundaryType: Direction, rank: int, first: Direction, second: Direction)
      returns (r: Result<SimpleBoundary>)
      requires IsEdge(first) && IsEdge(second)
      ensures r == CornerBoundary(boundaryType, rank, first, second)
    {
      var edge1 := EdgeStep(first, rank);
      assert CornerBoundary(boundaryType, rank, first, second)
          == CornerFrom(boundaryType, rank, edge1, second);
      if edge1.Failure? {
        return Failure(edge1.error);
      }
      if |edge1.value| != 1 {
        return Failure(AttributeError);
      }
      var edge2 := EdgeStep(second, edge1.value[0].toRank);
      assert CornerFrom(boundaryType, rank, edge1, second)
          == CornerFinish(boundaryType, rank, edge1.value[0], edge2);
      if edge2.Failure? {
        return Failure(edge2.error);
      }
      if |edge2.value| != 1 {
        return Failure(AttributeError);
      }
      var rotations := edge1.value[0].nClockwiseRotations + edge2.value[0].nClockwiseRotations;
      r := Success(SimpleBoundary(boundaryType, rank, edge2.value[0].toRank, rotations));
    }

    /**
     * The four corner methods `_top_left_corner`, `_top_right_corner`,
     * `_bottom_left_corner` and `_bottom_right_corner`, which share one shape:
     * no corner at the tile vertex, else the first edge step and the second
     * one their parity rule chooses.
     */
    method CornerStep(d: Direction, rank: int) returns (r: Result<Option<SimpleBoundary>>)
      requires !IsEdge(d)
      ensures r == CornerOf(d, rank)
    {
      if AtVertex(d, rank) {
        return Success(None);
      }
      var corner := GetCorner(d, rank, FirstEdge(d), SecondEdge(d, rank));
      if corner.Failure? {
        return Failure(corner.error);
      }
      r := Success(Some(corner.value));
    }

    /** `boundary` and `_cached_boundary`: dispatch by type, then reduce every target modulo the total. */
    method Boundary(d: Direction, rank: int) returns (r: Result<Neighbours>)
      ensures r == BoundaryOf(d, rank)
    {
      if IsEdge(d) {
        var edge := EdgeStep(d, rank);
        if edge.Failure? {
          return Failure(edge.error);
        }
        var bs := edge.value;
        var reduced := [];
        var j := 0;
        while j < |bs|
          invariant 0 <= j <= |bs|
          invariant reduced == ReduceAll(bs[..j], TotalRanks())
        {
          assert bs[..j + 1][..j] == bs[..j];
          reduced := reduced + [Reduce(bs[j], TotalRanks())];
          j := j + 1;
        }
        assert bs[..j] == bs;
        r := Success(Edge(reduced));
      } else {
        var corner := CornerStep(d, rank);
        if corner.Failure? {
          return Failure(corner.error);
        }
        match corner.value
        case None =>
          r := Success(Corner(None));
        case Some(b) =>
          r := Success(Corner(Some(Reduce(b, TotalRanks()))));
      }
    }

    // -------------------------------------------------------------------------
    // Extents and slices of cube quantities

    /** A cube quantity's extents: six tiles, then the tile's extents of a rank's quantity. */
    function GlobalExtent(dims: seq<Slicer.Dim>, rankExtent: seq<int>): (r: seq<int>)
      ensures |r| == 1 + Slicer.Min(|dims|, |rankExtent|)
    {
      [6] + Slicer.TileExtentFromRankMetadata(dims, rankExtent, Layout())
    }

    /** A rank's extents of a cube quantity whose first dimension must be the tile dimension. */
    function SubtileExtent(dims: seq<Slicer.Dim>, cubeExtent: seq<int>): (r: Result<seq<int>>)
      ensures |dims| == 0 ==> r == Failure(IndexError)
      ensures |dims| > 0 && dims[0] != Slicer.TileDim ==> r == Failure(NotImplementedError)
    {
      if |dims| == 0 then Failure(IndexError)
      else if dims[0] != Slicer.TileDim then Failure(NotImplementedError)
      else Success(Slicer.RankExtentFromTileMetadata(dims[1..], Tail(cubeExtent), Layout()))
    }

    /** The selectors `subtile_slice` returns: the rank's tile, then the tile partitioner's slices. */
    function SubtileSelectors(rank: int, globalDims: seq<Slicer.Dim>, globalExtent: seq<int>, overlap: bool)
      : Result<seq<Selector>>
    {
      if |globalDims| == 0 then Failure(IndexError)
      else if globalDims[0] != Slicer.TileDim then Failure(NotImplementedError)
      else
        var slices := Slicer.SubtileSlices(globalDims[1..], Tail(globalExtent), Layout(), tile.SubtileIndex(rank), overlap);
        Success([TileSelector(TileIndex(rank))] + seq(|slices|, j requires 0 <= j < |slices| => RangeSelector(slices[j])))
    }

    method SubtileSlice(rank: int, globalDims: seq<Slicer.Dim>, globalExtent: seq<int>, overlap: bool)
      returns (r: Result<seq<Selector>>)
      ensures r == SubtileSelectors(rank, globalDims, globalExtent, overlap)
    {
      if |globalDims| == 0 {
        return Failure(IndexError);
      }
      if globalDims[0] != Slicer.TileDim {
        return Failure(NotImplementedError);
      }
      var iTile := TileIndex(rank);
      var slices := tile.SubtileSlice(rank, globalDims[1..], Tail(globalExtent), overlap);
      r := Success([TileSelector(iTile)] + seq(|slices|, j requires 0 <= j < |slices| => RangeSelector(slices[j])));
    }
  }

  /** A boundary with its target rank reduced modulo the total, as `_cached_boundary` does. */
  function Reduce(b: SimpleBoundary, totalRanks: int): (r: SimpleBoundary)
    requires totalRanks > 0
    ensures 0 <= r.toRank < totalRanks
  {
    b.(toRank := b.toRank % totalRanks)
  }

  /** `Reduce` applied to each boundary of a list. */
  function ReduceAll(bs: seq<SimpleBoundary>, totalRanks: int): (r: seq<SimpleBoundary>)
    requires totalRanks > 0
    ensures |r| == |bs| && forall j :: 0 <= j < |bs| ==> r[j] == Reduce(bs[j], totalRanks)
  {
    if |bs| == 0 then [] else ReduceAll(bs[..|bs| - 1], totalRanks) + [Reduce(bs[|bs| - 1], totalRanks)]
  }

  /** `s[1:]`, empty for an empty sequence as in Python. */
  function Tail(s: seq<int>): (r: seq<int>)
    ensures |s| > 0 ==> r == s[1..]
    ensures |s| == 0 ==> r == []
  {
    if |s| == 0 then [] else s[1..]
  }
}
