/**
 * The partitioner of one cube face (a tile) into `layout.0 * layout.1` ranks.
 *
 * Neighbours on a tile wrap around as on a doubly periodic domain: stepping
 * off one side of the tile enters at the opposite side, with no rotation.
 * Diagonal neighbours are found by taking two edge steps in turn.
 */
module Tile {
  import opened Ranks
  import Transforms
  import Slicer
  import opened Wrappers

  /** The eight boundary types of the boundary constants. */
  datatype Direction = North | South | West | East | NorthWest | NorthEast | SouthWest | SouthEast

  /** A boundary shared with one other rank, standing for `boundary.SimpleBoundary`. */
  datatype SimpleBoundary = SimpleBoundary(boundaryType: Direction, fromRank: int, toRank: int, nClockwiseRotations: int)

  /** A corner: the first edge step, then the second edge step from where the first arrived. */
  function GetCorner(boundaryType: Direction, rank: int, edge1: int -> SimpleBoundary, edge2: int -> SimpleBoundary)
    : SimpleBoundary
  {
    var first := edge1(rank);
    var second := edge2(first.toRank);
    SimpleBoundary(boundaryType, rank, second.toRank, first.nClockwiseRotations + second.nClockwiseRotations)
  }

  datatype TilePartitioner = TilePartitioner(layout: Layout)
  {
    function TotalRanks(): int {
      RanksPerTile(layout)
    }

    function SubtileIndex(rank: int): SubtilePosition {
      Ranks.SubtileIndex(rank, TotalRanks(), layout)
    }

    predicate OnTileTop(rank: int) { Ranks.OnTileTop(SubtileIndex(rank), layout) }

    predicate OnTileBottom(rank: int) { Ranks.OnTileBottom(SubtileIndex(rank)) }

    predicate OnTileLeft(rank: int) { Ranks.OnTileLeft(SubtileIndex(rank)) }

    predicate OnTileRight(rank: int) { Ranks.OnTileRight(SubtileIndex(rank), layout) }

    /** The boundary of the given type; the source memoises it and returns a copy. */
    function Boundary(boundaryType: Direction, rank: int): SimpleBoundary {
      match boundaryType
      case West => LeftEdge(rank)
      case East => RightEdge(rank)
      case North => TopEdge(rank)
      case South => BottomEdge(rank)
      case NorthWest => TopLeftCorner(rank)
      case NorthEast => TopRightCorner(rank)
      case SouthWest => BottomLeftCorner(rank)
      case SouthEast => BottomRightCorner(rank)
    }

    function LeftEdge(rank: int): SimpleBoundary {
      var toRank := if OnTileLeft(rank) then rank + layout.0 - 1 else rank - 1;
      SimpleBoundary(West, rank, toRank, 0)
    }

    function RightEdge(rank: int): SimpleBoundary {
      var toRank := if OnTileRight(rank) then rank - layout.0 + 1 else rank + 1;
      SimpleBoundary(East, rank, toRank, 0)
    }

    /** Steps by `layout.1` between rows, which agrees with the row width only on a square layout. */
    function TopEdge(rank: int): SimpleBoundary {
      var toRank := if OnTileTop(rank) then rank - (layout.1 - 1) * layout.0 else rank + layout.1;
      SimpleBoundary(North, rank, toRank, 0)
    }

    function BottomEdge(rank: int): SimpleBoundary {
      var toRank := if OnTileBottom(rank) then rank + (layout.1 - 1) * layout.0 else rank - layout.1;
      SimpleBoundary(South, rank, toRank, 0)
    }

    function TopLeftCorner(rank: int): SimpleBoundary {
      GetCorner(NorthWest, rank, r => LeftEdge(r), r => TopEdge(r))
    }

    function TopRightCorner(rank: int): SimpleBoundary {
      GetCorner(NorthEast, rank, r => RightEdge(r), r => TopEdge(r))
    }

    function BottomLeftCorner(rank: int): SimpleBoundary {
      GetCorner(SouthWest, rank, r => LeftEdge(r), r => BottomEdge(r))
    }

    function BottomRightCorner(rank: int): SimpleBoundary {
      GetCorner(SouthEast, rank, r => RightEdge(r), r => BottomEdge(r))
    }

    function GlobalExtent(dims: seq<Slicer.Dim>, rankExtent: seq<int>): seq<int> {
      Slicer.TileExtentFromRankMetadata(dims, rankExtent, layout)
    }

    function SubtileExtent(dims: seq<Slicer.Dim>, tileExtent: seq<int>): seq<int> {
      Slicer.RankExtentFromTileMetadata(dims, tileExtent, layout)
    }

    method SubtileSlice(rank: int, globalDims: seq<Slicer.Dim>, globalExtent: seq<int>, overlap: bool)
      returns (slices: seq<Slicer.Slice>)
      ensures slices == Slicer.SubtileSlices(globalDims, globalExtent, layout, SubtileIndex(rank), overlap)
    {
      slices := Slicer.SubtileSlice(globalDims, globalExtent, layout, SubtileIndex(rank), overlap);
    }

    function FliplrRank(rank: int): Result<int> {
      Transforms.FliplrSubtileRank(rank, layout)
    }

    function RotateRank(rank: int, nClockwiseRotations: int): Result<int> {
      Transforms.RotateSubtileRank(rank, layout, nClockwiseRotations)
    }
  }

  // ---------------------------------------------------------------------------
  // Properties

  /** The step a boundary type takes along the rows (up is +1). */
  function RowStep(d: Direction): int {
    match d
    case North => 1
    case NorthWest => 1
    case NorthEast => 1
    case South => -1
    case SouthWest => -1
    case SouthEast => -1
    case West => 0
    case East => 0
  }

  /** The step a boundary type takes along a row (right is +1). */
  function ColumnStep(d: Direction): int {
    match d
    case West => -1
    case NorthWest => -1
    case SouthWest => -1
    case East => 1
    case NorthEast => 1
    case SouthEast => 1
    case North => 0
    case South => 0
  }

  /** `x` reduced into `[0, n)` when it is at most one step outside, as a torus wraps. */
  lemma WrapStep(x: int, step: int, n: int)
    requires n > 0 && 0 <= x < n && -1 <= step <= 1
    ensures (x + step + n) % n == if x + step == n then 0 else if x + step == -1 then n - 1 else x + step
  {
    if x + step == n {
      ModOfShifted(x + step + n, n, -2);
    } else if x + step == -1 {
      ModOfShifted(x + step + n, n, 0);
    } else {
      ModOfShifted(x + step + n, n, -1);
    }
  }

  /** West and east steps wrap around the row, on every layout. */
  lemma {:induction false} LeftRightEdgesWrap(p: TilePartitioner, t: int, k: int, i: int)
    requires 0 <= k < p.layout.1 && 0 <= i < p.layout.0
    ensures var n0, rank := p.layout.0, RankOf(p.layout, t, k, i);
      && p.LeftEdge(rank) == SimpleBoundary(West, rank, RankOf(p.layout, t, k, (i - 1 + n0) % n0), 0)
      && p.RightEdge(rank) == SimpleBoundary(East, rank, RankOf(p.layout, t, k, (i + 1 + n0) % n0), 0)
  {
    EdgeTestsReadRowAndColumn(p.layout, t, k, i);
    WrapStep(i, -1, p.layout.0);
    WrapStep(i, 1, p.layout.0);
  }

  /** On an n-by-n layout north and south steps wrap around the column. */
  lemma {:induction false} TopBottomEdgesWrap(p: TilePartitioner, t: int, k: int, i: int)
    requires p.layout.0 == p.layout.1
    requires 0 <= k < p.layout.1 && 0 <= i < p.layout.0
    ensures var n, rank := p.layout.0, RankOf(p.layout, t, k, i);
      && p.TopEdge(rank) == SimpleBoundary(North, rank, RankOf(p.layout, t, (k + 1 + n) % n, i), 0)
      && p.BottomEdge(rank) == SimpleBoundary(South, rank, RankOf(p.layout, t, (k - 1 + n) % n, i), 0)
  {
    var n := p.layout.0;
    EdgeTestsReadRowAndColumn(p.layout, t, k, i);
    WrapStep(k, -1, n);
    WrapStep(k, 1, n);
    assert (k + 1) * n == k * n + n && (k - 1) * n == k * n - n;
  }

  /**
   * On an n-by-n layout every boundary of the tile partitioner is the
   * neighbour on the torus: one row and column step away, wrapping at the
   * tile's sides, on the same tile and with no rotation.
   */
  lemma {:induction false} TileBoundaryIsTorusNeighbour(p: TilePartitioner, d: Direction, t: int, k: int, i: int)
    requires p.layout.0 == p.layout.1
    requires 0 <= k < p.layout.1 && 0 <= i < p.layout.0
    ensures var n, rank := p.layout.0, RankOf(p.layout, t, k, i);
      p.Boundary(d, rank) ==
        SimpleBoundary(d, rank, RankOf(p.layout, t, (k + RowStep(d) + n) % n, (i + ColumnStep(d) + n) % n), 0)
  {
    var n, rank := p.layout.0, RankOf(p.layout, t, k, i);
    LeftRightEdgesWrap(p, t, k, i);
    TopBottomEdgesWrap(p, t, k, i);
    WrapStep(k, 0, n);
    WrapStep(i, 0, n);
    var iw, ie := (i - 1 + n) % n, (i + 1 + n) % n;
    WrapStep(i, -1, n);
    WrapStep(i, 1, n);
    match d
    case NorthWest => TopBottomEdgesWrap(p, t, k, iw);
    case NorthEast => TopBottomEdgesWrap(p, t, k, ie);
    case SouthWest => TopBottomEdgesWrap(p, t, k, iw);
    case SouthEast => TopBottomEdgesWrap(p, t, k, ie);
    case _ =>
  }

  /** Every boundary target lies on the rank's own tile, on an n-by-n layout. */
  lemma {:induction false} TileBoundaryStaysOnTile(p: TilePartitioner, d: Direction, rank: int)
    requires p.layout.0 == p.layout.1
    ensures var b := p.Boundary(d, rank);
      && b.boundaryType == d && b.fromRank == rank && b.nClockwiseRotations == 0
      && b.toRank / p.TotalRanks() == rank / p.TotalRanks()
      && 0 <= b.toRank % p.TotalRanks() < p.TotalRanks()
  {
    var n := p.layout.0;
    DecomposeRank(rank, p.layout);
    var s := Position(rank, p.layout);
    var t, k, i := rank / p.TotalRanks(), s.2, s.1;
    TileBoundaryIsTorusNeighbour(p, d, t, k, i);
    var k', i' := (k + RowStep(d) + n) % n, (i + ColumnStep(d) + n) % n;
    LocateRankOf(p.layout, t, k', i');
  }

  /**
   * On an n-by-n layout the two edge steps of a tile corner can be taken in
   * either order: the row step first reaches the same rank.
   */
  lemma {:induction false} CornerStepsCommute(p: TilePartitioner, rank: int)
    requires p.layout.0 == p.layout.1
    ensures p.TopLeftCorner(rank) == GetCorner(NorthWest, rank, r => p.TopEdge(r), r => p.LeftEdge(r))
    ensures p.TopRightCorner(rank) == GetCorner(NorthEast, rank, r => p.TopEdge(r), r => p.RightEdge(r))
    ensures p.BottomLeftCorner(rank) == GetCorner(SouthWest, rank, r => p.BottomEdge(r), r => p.LeftEdge(r))
    ensures p.BottomRightCorner(rank) == GetCorner(SouthEast, rank, r => p.BottomEdge(r), r => p.RightEdge(r))
  {
    var n := p.layout.0;
    DecomposeRank(rank, p.layout);
    var s := Position(rank, p.layout);
    var t, k, i := rank / p.TotalRanks(), s.2, s.1;
    var kn, ks := (k + 1 + n) % n, (k - 1 + n) % n;
    var iw, ie := (i - 1 + n) % n, (i + 1 + n) % n;
    LeftRightEdgesWrap(p, t, k, i);
    TopBottomEdgesWrap(p, t, k, i);
    TopBottomEdgesWrap(p, t, k, iw);
    TopBottomEdgesWrap(p, t, k, ie);
    LeftRightEdgesWrap(p, t, kn, i);
    LeftRightEdgesWrap(p, t, ks, i);
  }

  /** A step east undoes a step west, on every layout. */
  lemma {:induction false} EastUndoesWest(p: TilePartitioner, rank: int)
    ensures p.RightEdge(p.LeftEdge(rank).toRank).toRank == rank
    ensures p.LeftEdge(p.RightEdge(rank).toRank).toRank == rank
  {
    var n0 := p.layout.0;
    DecomposeRank(rank, p.layout);
    var s := Position(rank, p.layout);
    var t, k, i := rank / p.TotalRanks(), s.2, s.1;
    LeftRightEdgesWrap(p, t, k, i);
    var iw, ie := (i - 1 + n0) % n0, (i + 1 + n0) % n0;
    WrapStep(i, -1, n0);
    WrapStep(i, 1, n0);
    LeftRightEdgesWrap(p, t, k, iw);
    LeftRightEdgesWrap(p, t, k, ie);
    WrapStep(iw, 1, n0);
    WrapStep(ie, -1, n0);
  }

  /** On an n-by-n layout a step south undoes a step north. */
  lemma {:induction false} SouthUndoesNorth(p: TilePartitioner, rank: int)
    requires p.layout.0 == p.layout.1
    ensures p.BottomEdge(p.TopEdge(rank).toRank).toRank == rank
    ensures p.TopEdge(p.BottomEdge(rank).toRank).toRank == rank
  {
    var n := p.layout.0;
    DecomposeRank(rank, p.layout);
    var s := Position(rank, p.layout);
    var t, k, i := rank / p.TotalRanks(), s.2, s.1;
    TopBottomEdgesWrap(p, t, k, i);
    var kn, ks := (k + 1 + n) % n, (k - 1 + n) % n;
    WrapStep(k, 1, n);
    WrapStep(k, -1, n);
    TopBottomEdgesWrap(p, t, kn, i);
    TopBottomEdgesWrap(p, t, ks, i);
    WrapStep(kn, -1, n);
    WrapStep(ks, 1, n);
  }

  /** On layout (2, 2), rank 0's east neighbour is rank 1. */
  lemma EastOfRankZero()
    ensures TilePartitioner((2, 2)).Boundary(East, 0) == SimpleBoundary(East, 0, 1, 0)
  {
    var p := TilePartitioner((2, 2));
    assert p.TotalRanks() == 4;
    assert p.SubtileIndex(0) == (0, 0, 0, 0);
  }
}
