/**
 * The seams of the cubed sphere on an n-by-n layout.
 *
 * Every edge of a rank then faces exactly one rank, and the seams follow a
 * fixed table: leaving tile t through one side enters a named side of a
 * named tile, turned by a quarter turn or not at all. The table is stated
 * here on its own; the lemmas show that the edge methods compute it, that
 * every seam can be walked back, and what the corners come to.
 */
module CubeSeams {
  import opened Wrappers
  import opened Ranks
  import opened Tile
  import opened FanOut
  import opened Cube

  /** Where an edge step arrives: tile, row, column, and the quarter turns taken. */
  datatype Step = Step(tile: int, row: int, column: int, rotations: int)

  /**
   * The cube's seams on an n-by-n layout, as a table. Even tiles reach two
   * tiles back through their left edge and two tiles on through their top
   * edge, turned; odd tiles reach two tiles on through their right edge and
   * four tiles on through their bottom edge, turned; the other seams join
   * neighbouring tiles edge to edge.
   */
  function SeamNeighbour(n: int, d: Direction, t: int, k: int, i: int): Step
    requires IsEdge(d)
  {
    if d == West then
      if i > 0 then Step(t, k, i - 1, 0)
      else if IsEven(t) then Step((t + 4) % 6, n - 1, n - 1 - k, 1)
      else Step(t - 1, k, n - 1, 0)
    else if d == East then
      if i < n - 1 then Step(t, k, i + 1, 0)
      else if !IsEven(t) then Step((t + 2) % 6, 0, n - 1 - k, 1)
      else Step(t + 1, k, 0, 0)
    else if d == North then
      if k < n - 1 then Step(t, k + 1, i, 0)
      else if IsEven(t) then Step((t + 2) % 6, n - 1 - i, 0, 3)
      else Step((t + 1) % 6, 0, i, 0)
    else
      if k > 0 then Step(t, k - 1, i, 0)
      else if !IsEven(t) then Step((t + 4) % 6, n - 1 - i, n - 1, 3)
      else Step((t + 5) % 6, n - 1, i, 0)
  }

  /** The direction that walks a seam back, given the quarter turns the seam took. */
  function BackDirection(d: Direction, rotations: int): (e: Direction)
    requires IsEdge(d)
    ensures IsEdge(e)
  {
    if rotations == 1 then (if d == West then North else South)
    else if rotations == 3 then (if d == North then West else East)
    else match d
      case West => East
      case East => West
      case North => South
      case _ => North
  }

  predicate OnCube(n: int, t: int, k: int, i: int) {
    0 <= t < 6 && 0 <= k < n && 0 <= i < n
  }

  /** Every seam arrives on the cube, with zero, one or three quarter turns. */
  lemma SeamNeighbourOnCube(n: int, d: Direction, t: int, k: int, i: int)
    requires IsEdge(d) && OnCube(n, t, k, i)
    ensures var s := SeamNeighbour(n, d, t, k, i);
      OnCube(n, s.tile, s.row, s.column) && s.rotations in {0, 1, 3}
  {
  }

  /** Walking a seam back returns to the cell it left, and the turns cancel. */
  lemma SeamsAreReciprocal(n: int, d: Direction, t: int, k: int, i: int)
    requires IsEdge(d) && OnCube(n, t, k, i)
    ensures var s := SeamNeighbour(n, d, t, k, i);
      var b := SeamNeighbour(n, BackDirection(d, s.rotations), s.tile, s.row, s.column);
      b.tile == t && b.row == k && b.column == i && (s.rotations + b.rotations) % 4 == 0
  {
    SixTileSteps(t);
  }

  /** How the seams' tile steps compose and change parity, for each of the six tiles. */
  lemma SixTileSteps(t: int)
    requires 0 <= t < 6
    ensures ((t + 4) % 6 + 2) % 6 == t && ((t + 2) % 6 + 4) % 6 == t
    ensures ((t + 1) % 6 + 5) % 6 == t && ((t + 5) % 6 + 1) % 6 == t
    ensures IsEven((t + 4) % 6) == IsEven(t) && IsEven((t + 2) % 6) == IsEven(t)
    ensures IsEven((t + 1) % 6) != IsEven(t) && IsEven((t + 5) % 6) != IsEven(t)
  {
    if t == 0 {
    } else if t == 1 {
    } else if t == 2 {
    } else if t == 3 {
    } else if t == 4 {
    } else {
    }
  }

  // ---------------------------------------------------------------------------
  // Ranks of cells

  predicate Square(p: CubedSpherePartitioner) {
    p.Layout().0 == p.Layout().1
  }

  /** A cell of the cube on any layout: tile, row and column in range. */
  predicate IsCell(p: CubedSpherePartitioner, t: int, k: int, i: int) {
    0 <= t < 6 && 0 <= k < p.Layout().1 && 0 <= i < p.Layout().0
  }

  /** The rank of a step's arrival cell. */
  function StepRank(p: CubedSpherePartitioner, s: Step): int {
    RankOf(p.Layout(), s.tile, s.row, s.column)
  }

  /** The single boundary an edge step across the table gives. */
  function TableBoundary(p: CubedSpherePartitioner, d: Direction, t: int, k: int, i: int): SimpleBoundary
    requires IsEdge(d)
  {
    var s := SeamNeighbour(p.Layout().0, d, t, k, i);
    SimpleBoundary(d, RankOf(p.Layout(), t, k, i), StepRank(p, s), s.rotations)
  }

  /** Moving `j` tiles moves the rank by `j` tiles' worth of ranks. */
  lemma RankOfShift(layout: Layout, t: int, k: int, i: int, j: int)
    ensures RankOf(layout, t, k, i) + j * RanksPerTile(layout) == RankOf(layout, t + j, k, i)
  {
    assert (t + j) * RanksPerTile(layout) == t * RanksPerTile(layout) + j * RanksPerTile(layout);
  }

  /** A cell of tiles 0 to 5 has a rank in `[0, 6 * ranks per tile)`, read back as the same tile. */
  lemma RankOfOnCube(p: CubedSpherePartitioner, t: int, k: int, i: int)
    requires IsCell(p, t, k, i)
    ensures var rank := RankOf(p.Layout(), t, k, i);
      && 0 <= rank < p.TotalRanks()
      && rank % p.TotalRanks() == rank
      && p.TileIndex(rank) == t
      && p.TileRootRank(rank) == t * p.tile.TotalRanks()
  {
    var rank, n := RankOf(p.Layout(), t, k, i), p.tile.TotalRanks();
    LocateRankOf(p.Layout(), t, k, i);
    DivBounds(rank, n);
    MulMonotone(t + 1, 6, n);
    MulMonotone(0, t, n);
    DivModUnique(rank, p.TotalRanks(), 0, rank);
  }

  /** Reducing a rank modulo the total reduces its tile modulo six. */
  lemma RankOfMod(p: CubedSpherePartitioner, t: int, k: int, i: int)
    requires 0 <= k < p.Layout().1 && 0 <= i < p.Layout().0
    ensures RankOf(p.Layout(), t, k, i) % p.TotalRanks() == RankOf(p.Layout(), t % 6, k, i)
  {
    var q, r := t / 6, t % 6;
    RankOfOnCube(p, r, k, i);
    ShiftBySixTiles(p.Layout(), r, k, i, q);
    DivModUnique(RankOf(p.Layout(), t, k, i), p.TotalRanks(), q, RankOf(p.Layout(), r, k, i));
  }

  /** Moving `6 * q` tiles moves the rank by `q` times the total. */
  lemma ShiftBySixTiles(layout: Layout, r: int, k: int, i: int, q: int)
    ensures RankOf(layout, r + q * 6, k, i) == q * (6 * RanksPerTile(layout)) + RankOf(layout, r, k, i)
  {
    var n := RanksPerTile(layout);
    RankOfShift(layout, r, k, i, q * 6);
    assert q * 6 * n == q * (6 * n);
  }

  // ---------------------------------------------------------------------------
  // What the cube reads off a cell

  /** The tile, the row, the column and the four side tests of a cell's rank. */
  lemma {:induction false} CellFacts(p: CubedSpherePartitioner, t: int, k: int, i: int)
    requires IsCell(p, t, k, i)
    ensures var layout, rank := p.Layout(), RankOf(p.Layout(), t, k, i);
      && p.TileIndex(rank) == t
      && RowPosition(layout, rank) == k && ColumnPosition(layout, rank) == i
      && (p.tile.OnTileLeft(rank) <==> i == 0)
      && (p.tile.OnTileRight(rank) <==> i == layout.0 - 1)
      && (p.tile.OnTileBottom(rank) <==> k == 0)
      && (p.tile.OnTileTop(rank) <==> k == layout.1 - 1)
  {
    LocateRankOf(p.Layout(), t, k, i);
    EdgeTestsReadRowAndColumn(p.Layout(), t, k, i);
  }

  /** On an n-by-n layout the tile partitioner's four edges of a cell, wrapping at the tile's sides. */
  lemma {:induction false} TileEdgesOfCell(p: CubedSpherePartitioner, t: int, k: int, i: int)
    requires Square(p) && IsCell(p, t, k, i)
    ensures var layout, n, rank := p.Layout(), p.Layout().0, RankOf(p.Layout(), t, k, i);
      && p.tile.LeftEdge(rank) == SimpleBoundary(West, rank, RankOf(layout, t, k, if i == 0 then n - 1 else i - 1), 0)
      && p.tile.RightEdge(rank) == SimpleBoundary(East, rank, RankOf(layout, t, k, if i == n - 1 then 0 else i + 1), 0)
      && p.tile.TopEdge(rank) == SimpleBoundary(North, rank, RankOf(layout, t, if k == n - 1 then 0 else k + 1, i), 0)
      && p.tile.BottomEdge(rank) == SimpleBoundary(South, rank, RankOf(layout, t, if k == 0 then n - 1 else k - 1, i), 0)
  {
    var n := p.Layout().0;
    LeftRightEdgesWrap(p.tile, t, k, i);
    TopBottomEdgesWrap(p.tile, t, k, i);
    WrapStep(i, -1, n);
    WrapStep(i, 1, n);
    WrapStep(k, 1, n);
    WrapStep(k, -1, n);
  }

  /** The lowest rank of the tile two back, which a cell's left seam faces, skipping back past tile 0. */
  lemma {:induction false} WestRootOfCell(p: CubedSpherePartitioner, t: int, k: int, i: int)
    requires IsCell(p, t, k, i)
    ensures p.WestRootRank(RankOf(p.Layout(), t, k, i)) == ((t + 4) % 6) * p.tile.TotalRanks()
  {
    var layout := p.Layout();
    RankOfShift(layout, t, k, i, -2);
    RankOfMod(p, t - 2, k, i);
    assert (t - 2) % 6 == (t + 4) % 6;
    RankOfOnCube(p, (t + 4) % 6, k, i);
  }

  /** The lowest rank of the tile two on, which a cell's right and top seams face, before any reducing. */
  lemma {:induction false} EastRootOfCell(p: CubedSpherePartitioner, t: int, k: int, i: int)
    requires IsCell(p, t, k, i)
    ensures p.EastRootRank(RankOf(p.Layout(), t, k, i)) == (t + 2) * p.tile.TotalRanks()
    ensures p.NorthRootRank(RankOf(p.Layout(), t, k, i)) == (t + 2) * p.tile.TotalRanks()
  {
    RankOfOnCube(p, t, k, i);
  }

  /** The lowest rank of the tile four on, which a cell's bottom seam faces, past tile 5 back to the start. */
  lemma {:induction false} SouthRootOfCell(p: CubedSpherePartitioner, t: int, k: int, i: int)
    requires IsCell(p, t, k, i)
    ensures p.SouthRootRank(RankOf(p.Layout(), t, k, i)) == ((t + 4) % 6) * p.tile.TotalRanks()
  {
    var layout := p.Layout();
    RankOfOnCube(p, t, k, i);
    RankOfShift(layout, t, 0, 0, 4);
    RankOfMod(p, t + 4, 0, 0);
  }

  /** A fan-out to one target rank is that one boundary. */
  lemma FanOutOfOne(d: Direction, rank: int, x: int, rotations: int, total: int)
    requires total > 0
    ensures FanOutBoundaries(d, rank, [x], rotations, total) == [SimpleBoundary(d, rank, x % total, rotations)]
  {
  }

  // ---------------------------------------------------------------------------
  // The edge methods compute the table

  /** The three rows of the table for a west step. */
  lemma WestTable(p: CubedSpherePartitioner, t: int, k: int, i: int)
    ensures var L, n, rank := p.Layout(), p.Layout().0, RankOf(p.Layout(), t, k, i);
      && (i > 0 ==> TableBoundary(p, West, t, k, i) == SimpleBoundary(West, rank, RankOf(L, t, k, i - 1), 0))
      && (i == 0 && IsEven(t) ==> TableBoundary(p, West, t, k, i) == SimpleBoundary(West, rank, RankOf(L, (t + 4) % 6, n - 1, n - 1 - k), 1))
      && (i == 0 && !IsEven(t) ==> TableBoundary(p, West, t, k, i) == SimpleBoundary(West, rank, RankOf(L, t - 1, k, n - 1), 0))
  {
  }

  /** On an n-by-n layout the western boundaries of a rank are the one the table names. */
  lemma {:induction false} WestOnSquare(p: CubedSpherePartitioner, t: int, k: int, i: int)
    requires Square(p) && OnCube(p.Layout().0, t, k, i)
    ensures p.WestBoundaries(RankOf(p.Layout(), t, k, i)) == [TableBoundary(p, West, t, k, i)]
  {
    WestTable(p, t, k, i);
    if i > 0 {
      WestWithinTile(p, t, k, i);
    } else if IsEven(t) {
      WestTurnedSeam(p, t, k);
    } else {
      WestStraightSeam(p, t, k);
    }
  }

  /** Away from the tile's left side a west step stays on the tile. */
  lemma {:induction false} WestWithinTile(p: CubedSpherePartitioner, t: int, k: int, i: int)
    requires Square(p) && IsCell(p, t, k, i) && i > 0
    ensures var rank := RankOf(p.Layout(), t, k, i);
      p.WestBoundaries(rank) == [SimpleBoundary(West, rank, RankOf(p.Layout(), t, k, i - 1), 0)]
  {
    CellFacts(p, t, k, i);
    TileEdgesOfCell(p, t, k, i);
  }

  /** The left edge of an odd tile meets the right edge of the tile before, edge to edge. */
  lemma {:induction false} WestStraightSeam(p: CubedSpherePartitioner, t: int, k: int)
    requires Square(p) && IsCell(p, t, k, 0) && !IsEven(t)
    ensures var n, rank := p.Layout().0, RankOf(p.Layout(), t, k, 0);
      p.WestBoundaries(rank) == [SimpleBoundary(West, rank, RankOf(p.Layout(), t - 1, k, n - 1), 0)]
  {
    var n := p.Layout().0;
    CellFacts(p, t, k, 0);
    TileEdgesOfCell(p, t, k, 0);
    RankOfShift(p.Layout(), t, k, n - 1, -1);
    RankOfOnCube(p, t - 1, k, n - 1);
  }

  /** The left edge of an even tile faces the top row of the tile two back, reversed and turned once. */
  lemma {:induction false} WestTurnedSeam(p: CubedSpherePartitioner, t: int, k: int)
    requires Square(p) && IsCell(p, t, k, 0) && IsEven(t)
    ensures var n, rank := p.Layout().0, RankOf(p.Layout(), t, k, 0);
      p.WestBoundaries(rank) == [SimpleBoundary(West, rank, RankOf(p.Layout(), (t + 4) % 6, n - 1, n - 1 - k), 1)]
  {
    var layout, n, rank := p.Layout(), p.Layout().0, RankOf(p.Layout(), t, k, 0);
    var x := RankOf(layout, (t + 4) % 6, n - 1, n - 1 - k);
    WestTurnedFacts(p, t, k);
    LrTargetOfLeftEdge(layout, rank, p.WestRootRank(rank), k);
    WestFanOutStep(p, rank, x);
  }

  /** What the left seam of an even tile reads off its cell, apart from the western boundaries themselves. */
  lemma {:induction false} WestTurnedFacts(p: CubedSpherePartitioner, t: int, k: int)
    requires Square(p) && IsCell(p, t, k, 0) && IsEven(t)
    ensures var layout, n, rank := p.Layout(), p.Layout().0, RankOf(p.Layout(), t, k, 0);
      var x := RankOf(layout, (t + 4) % 6, n - 1, n - 1 - k);
      && p.tile.OnTileLeft(rank) && IsEven(p.TileIndex(rank)) && RowPosition(layout, rank) == k
      && p.WestRootRank(rank) + (n - 1) * n + (n - 1 - k) == x
      && x % p.TotalRanks() == x
  {
    var layout, n, rank := p.Layout(), p.Layout().0, RankOf(p.Layout(), t, k, 0);
    CellFacts(p, t, k, 0);
    WestRootOfCell(p, t, k, 0);
    RankOfOnCube(p, (t + 4) % 6, n - 1, n - 1 - k);
  }

  /** The left edge of an even tile fanned out to one target rank. */
  lemma WestFanOutStep(p: CubedSpherePartitioner, rank: int, x: int)
    requires p.tile.OnTileLeft(rank) && IsEven(p.TileIndex(rank))
    requires LrTargets(p.Layout(), rank, p.WestRootRank(rank)) == [x]
    ensures p.WestBoundaries(rank) == [SimpleBoundary(West, rank, x % p.TotalRanks(), 1)]
  {
    FanOutOfOne(West, rank, x, 1, p.TotalRanks());
  }

  /** On an n-by-n layout the lr fan-out of row y of a left edge is rank n - 1 - y of the target's top row. */
  lemma LrTargetOfLeftEdge(layout: Layout, rank: int, root: int, y: int)
    requires layout.0 == layout.1 && TilePartitioner(layout).OnTileLeft(rank) && RowPosition(layout, rank) == y
    ensures LrTargets(layout, rank, root) == [root + (layout.0 - 1) * layout.0 + (layout.0 - 1 - y)]
  {
    var n := layout.0;
    LrTargetsOnSquare(layout, rank, root);
    assert n * (n - 1) == (n - 1) * n;
  }

  /** The three rows of the table for a east step. */
  lemma EastTable(p: CubedSpherePartitioner, t: int, k: int, i: int)
    ensures var L, n, rank := p.Layout(), p.Layout().0, RankOf(p.Layout(), t, k, i);
      && (i < n - 1 ==> TableBoundary(p, East, t, k, i) == SimpleBoundary(East, rank, RankOf(L, t, k, i + 1), 0))
      && (i == n - 1 && !IsEven(t) ==> TableBoundary(p, East, t, k, i) == SimpleBoundary(East, rank, RankOf(L, (t + 2) % 6, 0, n - 1 - k), 1))
      && (i == n - 1 && IsEven(t) ==> TableBoundary(p, East, t, k, i) == SimpleBoundary(East, rank, RankOf(L, t + 1, k, 0), 0))
  {
  }

  /** On an n-by-n layout the eastern boundaries of a rank are the one the table names. */
  lemma {:induction false} EastOnSquare(p: CubedSpherePartitioner, t: int, k: int, i: int)
    requires Square(p) && OnCube(p.Layout().0, t, k, i)
    ensures p.EastBoundaries(RankOf(p.Layout(), t, k, i)) == [TableBoundary(p, East, t, k, i)]
  {
    EastTable(p, t, k, i);
    if i < p.Layout().0 - 1 {
      EastWithinTile(p, t, k, i);
    } else if !IsEven(t) {
      EastTurnedSeam(p, t, k);
    } else {
      EastStraightSeam(p, t, k);
    }
  }

  /** Away from the tile's right side an east step stays on the tile. */
  lemma {:induction false} EastWithinTile(p: CubedSpherePartitioner, t: int, k: int, i: int)
    requires Square(p) && IsCell(p, t, k, i) && i < p.Layout().0 - 1
    ensures var rank := RankOf(p.Layout(), t, k, i);
      p.EastBoundaries(rank) == [SimpleBoundary(East, rank, RankOf(p.Layout(), t, k, i + 1), 0)]
  {
    CellFacts(p, t, k, i);
    TileEdgesOfCell(p, t, k, i);
  }

  /** The right edge of an even tile meets the left edge of the next tile, edge to edge. */
  lemma {:induction false} EastStraightSeam(p: CubedSpherePartitioner, t: int, k: int)
    requires Square(p) && IsCell(p, t, k, p.Layout().0 - 1) && IsEven(t)
    ensures var n := p.Layout().0; var rank := RankOf(p.Layout(), t, k, n - 1);
      p.EastBoundaries(rank) == [SimpleBoundary(East, rank, RankOf(p.Layout(), t + 1, k, 0), 0)]
  {
    var n := p.Layout().0;
    CellFacts(p, t, k, n - 1);
    TileEdgesOfCell(p, t, k, n - 1);
    RankOfShift(p.Layout(), t, k, 0, 1);
    RankOfOnCube(p, t + 1, k, 0);
  }

  /** The right edge of an odd tile faces the bottom row of the tile two on, reversed and turned once. */
  lemma {:induction false} EastTurnedSeam(p: CubedSpherePartitioner, t: int, k: int)
    requires Square(p) && IsCell(p, t, k, p.Layout().0 - 1) && !IsEven(t)
    ensures var n := p.Layout().0; var rank := RankOf(p.Layout(), t, k, n - 1);
      p.EastBoundaries(rank) == [SimpleBoundary(East, rank, RankOf(p.Layout(), (t + 2) % 6, 0, n - 1 - k), 1)]
  {
    var layout, n := p.Layout(), p.Layout().0;
    var rank := RankOf(layout, t, k, n - 1);
    var x := RankOf(layout, t + 2, 0, n - 1 - k);
    EastTurnedFacts(p, t, k);
    LrTargetOfRightEdge(layout, rank, p.EastRootRank(rank), k);
    EastFanOutStep(p, rank, x);
  }

  /** What the right seam of an odd tile reads off its cell, apart from the eastern boundaries themselves. */
  lemma {:induction false} EastTurnedFacts(p: CubedSpherePartitioner, t: int, k: int)
    requires Square(p) && IsCell(p, t, k, p.Layout().0 - 1) && !IsEven(t)
    ensures var layout, n := p.Layout(), p.Layout().0;
      var rank, x := RankOf(layout, t, k, n - 1), RankOf(layout, t + 2, 0, n - 1 - k);
      && p.tile.OnTileRight(rank) && !IsEven(p.TileIndex(rank)) && RowPosition(layout, rank) == k
      && (p.tile.OnTileLeft(rank) ==> n == 1)
      && p.EastRootRank(rank) + (n - 1 - k) == x
      && x % p.TotalRanks() == RankOf(layout, (t + 2) % 6, 0, n - 1 - k)
  {
    var layout, n := p.Layout(), p.Layout().0;
    var rank := RankOf(layout, t, k, n - 1);
    CellFacts(p, t, k, n - 1);
    EastRootOfCell(p, t, k, n - 1);
    RankOfMod(p, t + 2, 0, n - 1 - k);
  }

  /** The right edge of an odd tile fanned out to one target rank. */
  lemma EastFanOutStep(p: CubedSpherePartitioner, rank: int, x: int)
    requires p.tile.OnTileRight(rank) && !IsEven(p.TileIndex(rank))
    requires LrTargets(p.Layout(), rank, p.EastRootRank(rank)) == [x]
    ensures p.EastBoundaries(rank) == [SimpleBoundary(East, rank, x % p.TotalRanks(), 1)]
  {
    FanOutOfOne(East, rank, x, 1, p.TotalRanks());
  }

  /**
   * On an n-by-n layout the lr fan-out of row y of a right edge is rank
   * n - 1 - y of the target's bottom row (a right edge is also a left edge only when n is 1).
   */
  lemma LrTargetOfRightEdge(layout: Layout, rank: int, root: int, y: int)
    requires layout.0 == layout.1 && RowPosition(layout, rank) == y
    requires TilePartitioner(layout).OnTileLeft(rank) ==> layout.0 == 1
    ensures LrTargets(layout, rank, root) == [root + (layout.0 - 1 - y)]
  {
    LrTargetsOnSquare(layout, rank, root);
  }

  /** The three rows of the table for a north step. */
  lemma NorthTable(p: CubedSpherePartitioner, t: int, k: int, i: int)
    ensures var L, n, rank := p.Layout(), p.Layout().0, RankOf(p.Layout(), t, k, i);
      && (k < n - 1 ==> TableBoundary(p, North, t, k, i) == SimpleBoundary(North, rank, RankOf(L, t, k + 1, i), 0))
      && (k == n - 1 && IsEven(t) ==> TableBoundary(p, North, t, k, i) == SimpleBoundary(North, rank, RankOf(L, (t + 2) % 6, n - 1 - i, 0), 3))
      && (k == n - 1 && !IsEven(t) ==> TableBoundary(p, North, t, k, i) == SimpleBoundary(North, rank, RankOf(L, (t + 1) % 6, 0, i), 0))
  {
  }

  /** On an n-by-n layout the northern boundaries of a rank are the one the table names. */
  lemma {:induction false} NorthOnSquare(p: CubedSpherePartitioner, t: int, k: int, i: int)
    requires Square(p) && OnCube(p.Layout().0, t, k, i)
    ensures p.NorthBoundaries(RankOf(p.Layout(), t, k, i)) == Success([TableBoundary(p, North, t, k, i)])
  {
    NorthTable(p, t, k, i);
    if k < p.Layout().0 - 1 {
      NorthWithinTile(p, t, k, i);
    } else if IsEven(t) {
      NorthTurnedSeam(p, t, i);
    } else {
      NorthStraightSeam(p, t, i);
    }
  }

  /** Away from the tile's top side a north step stays on the tile. */
  lemma {:induction false} NorthWithinTile(p: CubedSpherePartitioner, t: int, k: int, i: int)
    requires Square(p) && IsCell(p, t, k, i) && k < p.Layout().0 - 1
    ensures var rank := RankOf(p.Layout(), t, k, i);
      p.NorthBoundaries(rank) == Success([SimpleBoundary(North, rank, RankOf(p.Layout(), t, k + 1, i), 0)])
  {
    CellFacts(p, t, k, i);
    TileEdgesOfCell(p, t, k, i);
  }

  /** The top edge of an odd tile meets the bottom row of the next tile, edge to edge. */
  lemma {:induction false} NorthStraightSeam(p: CubedSpherePartitioner, t: int, i: int)
    requires Square(p) && IsCell(p, t, p.Layout().0 - 1, i) && !IsEven(t)
    ensures var n := p.Layout().0; var rank := RankOf(p.Layout(), t, n - 1, i);
      p.NorthBoundaries(rank) == Success([SimpleBoundary(North, rank, RankOf(p.Layout(), (t + 1) % 6, 0, i), 0)])
  {
    var n := p.Layout().0;
    CellFacts(p, t, n - 1, i);
    TileEdgesOfCell(p, t, n - 1, i);
    NorthFixUp(p, t, i);
  }

  /** The fix-up of the top edge of an odd tile steps one tile on, from tile 5 back to tile 0. */
  lemma {:induction false} NorthFixUp(p: CubedSpherePartitioner, t: int, i: int)
    requires IsCell(p, t, 0, i)
    ensures ShiftUp(RankOf(p.Layout(), t, 0, i) + p.tile.TotalRanks(), p.TotalRanks())
         == RankOf(p.Layout(), (t + 1) % 6, 0, i)
  {
    RankOfShift(p.Layout(), t, 0, i, 1);
    RankOfMod(p, t + 1, 0, i);
    RankOfOnCube(p, (t + 1) % 6, 0, i);
    RankOfOnCube(p, t, 0, i);
  }

  /** The top edge of an even tile faces the first column of the tile two on, reversed and turned three times. */
  lemma {:induction false} NorthTurnedSeam(p: CubedSpherePartitioner, t: int, i: int)
    requires Square(p) && IsCell(p, t, p.Layout().0 - 1, i) && IsEven(t)
    ensures var n := p.Layout().0; var rank := RankOf(p.Layout(), t, n - 1, i);
      p.NorthBoundaries(rank) == Success([SimpleBoundary(North, rank, RankOf(p.Layout(), (t + 2) % 6, n - 1 - i, 0), 3)])
  {
    var layout, n := p.Layout(), p.Layout().0;
    var rank := RankOf(layout, t, n - 1, i);
    var x := RankOf(layout, t + 2, n - 1 - i, 0);
    NorthTurnedFacts(p, t, i);
    UlTargetOfTopEdge(layout, rank, p.NorthRootRank(rank), i);
    NorthFanOutStep(p, rank, x);
  }

  /** What the top seam of an even tile reads off its cell, apart from the northern boundaries themselves. */
  lemma {:induction false} NorthTurnedFacts(p: CubedSpherePartitioner, t: int, i: int)
    requires Square(p) && IsCell(p, t, p.Layout().0 - 1, i) && IsEven(t)
    ensures var layout, n := p.Layout(), p.Layout().0;
      var rank, x := RankOf(layout, t, n - 1, i), RankOf(layout, t + 2, n - 1 - i, 0);
      && p.tile.OnTileTop(rank) && IsEven(p.TileIndex(rank)) && ColumnPosition(layout, rank) == i
      && p.NorthRootRank(rank) + (n - 1 - i) * n == x
      && x % p.TotalRanks() == RankOf(layout, (t + 2) % 6, n - 1 - i, 0)
  {
    var layout, n := p.Layout(), p.Layout().0;
    var rank := RankOf(layout, t, n - 1, i);
    CellFacts(p, t, n - 1, i);
    EastRootOfCell(p, t, n - 1, i);
    RankOfMod(p, t + 2, n - 1 - i, 0);
  }

  /** The top edge of an even tile fanned out to one target rank. */
  lemma NorthFanOutStep(p: CubedSpherePartitioner, rank: int, x: int)
    requires p.tile.OnTileTop(rank) && IsEven(p.TileIndex(rank))
    requires UlTargets(p.Layout(), rank, p.NorthRootRank(rank)) == Success([x])
    ensures p.NorthBoundaries(rank) == Success([SimpleBoundary(North, rank, x % p.TotalRanks(), 3)])
  {
    FanOutOfOne(North, rank, x, 3, p.TotalRanks());
  }

  /** On an n-by-n layout the ul fan-out of column c of a top edge is rank n - 1 - c of the target's first column. */
  lemma UlTargetOfTopEdge(layout: Layout, rank: int, root: int, c: int)
    requires layout.0 == layout.1 && TilePartitioner(layout).OnTileTop(rank) && ColumnPosition(layout, rank) == c
    ensures UlTargets(layout, rank, root) == Success([root + (layout.0 - 1 - c) * layout.0])
  {
    var n := layout.0;
    UlTargetsOnSquare(layout, rank, root);
    assert n * (n - 1 - c) == (n - 1 - c) * n;
  }

  /** The three rows of the table for a south step. */
  lemma SouthTable(p: CubedSpherePartitioner, t: int, k: int, i: int)
    ensures var L, n, rank := p.Layout(), p.Layout().0, RankOf(p.Layout(), t, k, i);
      && (k > 0 ==> TableBoundary(p, South, t, k, i) == SimpleBoundary(South, rank, RankOf(L, t, k - 1, i), 0))
      && (k == 0 && !IsEven(t) ==> TableBoundary(p, South, t, k, i) == SimpleBoundary(South, rank, RankOf(L, (t + 4) % 6, n - 1 - i, n - 1), 3))
      && (k == 0 && IsEven(t) ==> TableBoundary(p, South, t, k, i) == SimpleBoundary(South, rank, RankOf(L, (t + 5) % 6, n - 1, i), 0))
  {
  }

  /** On an n-by-n layout the southern boundaries of a rank are the one the table names. */
  lemma {:induction false} SouthOnSquare(p: CubedSpherePartitioner, t: int, k: int, i: int)
    requires Square(p) && OnCube(p.Layout().0, t, k, i)
    ensures p.SouthBoundaries(RankOf(p.Layout(), t, k, i)) == Success([TableBoundary(p, South, t, k, i)])
  {
    SouthTable(p, t, k, i);
    if k > 0 {
      SouthWithinTile(p, t, k, i);
    } else if !IsEven(t) {
      SouthTurnedSeam(p, t, i);
    } else {
      SouthStraightSeam(p, t, i);
    }
  }

  /** Away from the tile's bottom side a south step stays on the tile. */
  lemma {:induction false} SouthWithinTile(p: CubedSpherePartitioner, t: int, k: int, i: int)
    requires Square(p) && IsCell(p, t, k, i) && k > 0
    ensures var rank := RankOf(p.Layout(), t, k, i);
      p.SouthBoundaries(rank) == Success([SimpleBoundary(South, rank, RankOf(p.Layout(), t, k - 1, i), 0)])
  {
    CellFacts(p, t, k, i);
    TileEdgesOfCell(p, t, k, i);
  }

  /** The bottom edge of an even tile meets the top row of the tile before, from tile 0 back to tile 5. */
  lemma {:induction false} SouthStraightSeam(p: CubedSpherePartitioner, t: int, i: int)
    requires Square(p) && IsCell(p, t, 0, i) && IsEven(t)
    ensures var n, rank := p.Layout().0, RankOf(p.Layout(), t, 0, i);
      p.SouthBoundaries(rank) == Success([SimpleBoundary(South, rank, RankOf(p.Layout(), (t + 5) % 6, n - 1, i), 0)])
  {
    var n := p.Layout().0;
    CellFacts(p, t, 0, i);
    TileEdgesOfCell(p, t, 0, i);
    SouthFixUp(p, t, i);
  }

  /** The fix-up of the bottom edge of an even tile steps one tile back, from tile 0 to tile 5. */
  lemma {:induction false} SouthFixUp(p: CubedSpherePartitioner, t: int, i: int)
    requires IsCell(p, t, p.Layout().1 - 1, i)
    ensures var k := p.Layout().1 - 1;
      ShiftDown(RankOf(p.Layout(), t, k, i) - p.tile.TotalRanks(), p.TotalRanks())
        == RankOf(p.Layout(), (t + 5) % 6, k, i)
  {
    var k := p.Layout().1 - 1;
    RankOfShift(p.Layout(), t, k, i, -1);
    RankOfMod(p, t - 1, k, i);
    assert (t - 1) % 6 == (t + 5) % 6;
    RankOfOnCube(p, (t + 5) % 6, k, i);
    RankOfOnCube(p, t, k, i);
  }

  /** The bottom edge of an odd tile faces the last column of the tile four on, reversed and turned three times. */
  lemma {:induction false} SouthTurnedSeam(p: CubedSpherePartitioner, t: int, i: int)
    requires Square(p) && IsCell(p, t, 0, i) && !IsEven(t)
    ensures var n, rank := p.Layout().0, RankOf(p.Layout(), t, 0, i);
      p.SouthBoundaries(rank) == Success([SimpleBoundary(South, rank, RankOf(p.Layout(), (t + 4) % 6, n - 1 - i, n - 1), 3)])
  {
    var layout, n, rank := p.Layout(), p.Layout().0, RankOf(p.Layout(), t, 0, i);
    var x := RankOf(layout, (t + 4) % 6, n - 1 - i, n - 1);
    SouthTurnedFacts(p, t, i);
    UlTargetOfBottomEdge(layout, rank, p.SouthRootRank(rank), i);
    SouthFanOutStep(p, rank, x);
  }

  /** What the bottom seam of an odd tile reads off its cell, apart from the southern boundaries themselves. */
  lemma {:induction false} SouthTurnedFacts(p: CubedSpherePartitioner, t: int, i: int)
    requires Square(p) && IsCell(p, t, 0, i) && !IsEven(t)
    ensures var layout, n, rank := p.Layout(), p.Layout().0, RankOf(p.Layout(), t, 0, i);
      var x := RankOf(layout, (t + 4) % 6, n - 1 - i, n - 1);
      && p.tile.OnTileBottom(rank) && !IsEven(p.TileIndex(rank)) && ColumnPosition(layout, rank) == i
      && (p.tile.OnTileTop(rank) ==> n == 1)
      && p.SouthRootRank(rank) + (n - 1 - i) * n + (n - 1) == x
      && x % p.TotalRanks() == x
  {
    var layout, n, rank := p.Layout(), p.Layout().0, RankOf(p.Layout(), t, 0, i);
    CellFacts(p, t, 0, i);
    SouthRootOfCell(p, t, 0, i);
    RankOfOnCube(p, (t + 4) % 6, n - 1 - i, n - 1);
  }

  /** The bottom edge of an odd tile fanned out to one target rank. */
  lemma SouthFanOutStep(p: CubedSpherePartitioner, rank: int, x: int)
    requires p.tile.OnTileBottom(rank) && !IsEven(p.TileIndex(rank))
    requires UlTargets(p.Layout(), rank, p.SouthRootRank(rank)) == Success([x])
    ensures p.SouthBoundaries(rank) == Success([SimpleBoundary(South, rank, x % p.TotalRanks(), 3)])
  {
    FanOutOfOne(South, rank, x, 3, p.TotalRanks());
  }

  /**
   * On an n-by-n layout the ul fan-out of column c of a bottom edge is rank
   * n - 1 - c of the target's last column (a bottom edge is also a top edge only when n is 1).
   */
  lemma UlTargetOfBottomEdge(layout: Layout, rank: int, root: int, c: int)
    requires layout.0 == layout.1 && ColumnPosition(layout, rank) == c
    requires TilePartitioner(layout).OnTileTop(rank) ==> layout.0 == 1
    ensures UlTargets(layout, rank, root) == Success([root + (layout.0 - 1 - c) * layout.0 + (layout.0 - 1)])
  {
    var n := layout.0;
    UlTargetsOnSquare(layout, rank, root);
    assert n * (n - 1 - c) == (n - 1 - c) * n;
  }

  /** On an n-by-n layout every edge of a rank faces the one rank the table names. */
  lemma {:induction false} EdgeOnSquare(p: CubedSpherePartitioner, d: Direction, t: int, k: int, i: int)
    requires IsEdge(d) && Square(p) && OnCube(p.Layout().0, t, k, i)
    ensures p.EdgeBoundaries(d, RankOf(p.Layout(), t, k, i)) == Success([TableBoundary(p, d, t, k, i)])
  {
    if d == West {
      WestOnSquare(p, t, k, i);
    } else if d == East {
      EastOnSquare(p, t, k, i);
    } else if d == North {
      NorthOnSquare(p, t, k, i);
    } else {
      SouthOnSquare(p, t, k, i);
    }
  }

  /** A rank of the cube is the rank of its tile, row and column. */
  lemma CellOfRank(p: CubedSpherePartitioner, rank: int) returns (t: int, k: int, i: int)
    requires 0 <= rank < p.TotalRanks()
    ensures IsCell(p, t, k, i) && rank == RankOf(p.Layout(), t, k, i) && t == p.TileIndex(rank)
  {
    DecomposeRank(rank, p.Layout());
    var s := Position(rank, p.Layout());
    t, k, i := p.TileIndex(rank), s.2, s.1;
  }

  /** The table's seams, walked there and back, at the level of ranks. */
  lemma {:induction false} TableIsReciprocal(p: CubedSpherePartitioner, d: Direction, t: int, k: int, i: int)
    requires IsEdge(d) && Square(p) && OnCube(p.Layout().0, t, k, i)
    ensures var layout, n := p.Layout(), p.Layout().0;
      var s := SeamNeighbour(n, d, t, k, i);
      var b := TableBoundary(p, d, t, k, i);
      && OnCube(n, s.tile, s.row, s.column)
      && b == SimpleBoundary(d, RankOf(layout, t, k, i), RankOf(layout, s.tile, s.row, s.column), s.rotations)
      && 0 <= b.toRank < p.TotalRanks()
      && var c := TableBoundary(p, BackDirection(d, s.rotations), s.tile, s.row, s.column);
      && c.toRank == RankOf(layout, t, k, i)
      && (s.rotations + c.nClockwiseRotations) % 4 == 0
  {
    var n := p.Layout().0;
    var s := SeamNeighbour(n, d, t, k, i);
    SeamNeighbourOnCube(n, d, t, k, i);
    RankOfOnCube(p, s.tile, s.row, s.column);
    SeamsAreReciprocal(n, d, t, k, i);
  }

  /**
   * On an n-by-n layout every edge of every rank faces exactly one rank of
   * the cube, and walking back along the seam in the direction the quarter
   * turns give returns to the rank, with the turns cancelling.
   */
  lemma {:induction false} EdgesAreReciprocal(p: CubedSpherePartitioner, d: Direction, rank: int)
    requires IsEdge(d) && Square(p) && 0 <= rank < p.TotalRanks()
    ensures var e := p.EdgeBoundaries(d, rank);
      && e.Success? && |e.value| == 1
      && var b := e.value[0];
      && b.boundaryType == d && b.fromRank == rank && 0 <= b.toRank < p.TotalRanks()
      && var back := p.EdgeBoundaries(BackDirection(d, b.nClockwiseRotations), b.toRank);
      && back.Success? && |back.value| == 1
      && back.value[0].toRank == rank
      && (b.nClockwiseRotations + back.value[0].nClockwiseRotations) % 4 == 0
  {
    var n := p.Layout().0;
    var t, k, i := CellOfRank(p, rank);
    var s := SeamNeighbour(n, d, t, k, i);
    EdgeOnSquare(p, d, t, k, i);
    TableIsReciprocal(p, d, t, k, i);
    EdgeOnSquare(p, BackDirection(d, s.rotations), s.tile, s.row, s.column);
  }

  // ---------------------------------------------------------------------------
  // Corners

  /** A corner has no boundary exactly at the tile vertex it points to, on every layout. */
  lemma {:induction false} VertexOfCell(p: CubedSpherePartitioner, d: Direction, t: int, k: int, i: int)
    requires !IsEdge(d) && 0 <= k < p.Layout().1 && 0 <= i < p.Layout().0
    ensures p.AtVertex(d, RankOf(p.Layout(), t, k, i)) <==>
      && k == (if RowStep(d) == 1 then p.Layout().1 - 1 else 0)
      && i == (if ColumnStep(d) == -1 then 0 else p.Layout().0 - 1)
  {
    EdgeTestsReadRowAndColumn(p.Layout(), t, k, i);
  }

  /**
   * On an n-by-n layout a corner away from its vertex takes the two table
   * steps in turn, and its quarter turns are the two steps' turns added.
   */
  lemma {:induction false} CornerOnSquare(p: CubedSpherePartitioner, d: Direction, t: int, k: int, i: int)
    requires !IsEdge(d) && Square(p) && OnCube(p.Layout().0, t, k, i)
    ensures var n, rank := p.Layout().0, RankOf(p.Layout(), t, k, i);
      var s1 := SeamNeighbour(n, p.FirstEdge(d), t, k, i);
      var s2 := SeamNeighbour(n, p.SecondEdge(d, rank), s1.tile, s1.row, s1.column);
      p.CornerOf(d, rank) ==
        if p.AtVertex(d, rank) then Success(None)
        else Success(Some(SimpleBoundary(d, rank, StepRank(p, s2), s1.rotations + s2.rotations)))
  {
    var n, rank := p.Layout().0, RankOf(p.Layout(), t, k, i);
    var first, second := p.FirstEdge(d), p.SecondEdge(d, rank);
    var s1 := SeamNeighbour(n, first, t, k, i);
    EdgeOnSquare(p, first, t, k, i);
    SeamNeighbourOnCube(n, first, t, k, i);
    EdgeOnSquare(p, second, s1.tile, s1.row, s1.column);
  }

  /** On an n-by-n layout a corner of a rank inside its tile is the diagonal neighbour, not turned. */
  lemma {:induction false} InteriorCornerIsDiagonal(p: CubedSpherePartitioner, d: Direction, t: int, k: int, i: int)
    requires !IsEdge(d) && Square(p) && 0 <= t < 6
    requires 0 < k < p.Layout().0 - 1 && 0 < i < p.Layout().0 - 1
    ensures var rank := RankOf(p.Layout(), t, k, i);
      p.CornerOf(d, rank) ==
        Success(Some(SimpleBoundary(d, rank, RankOf(p.Layout(), t, k + RowStep(d), i + ColumnStep(d)), 0)))
  {
    CornerOnSquare(p, d, t, k, i);
    VertexOfCell(p, d, t, k, i);
    EdgeTestsReadRowAndColumn(p.Layout(), t, k, i);
    RankOfOnCube(p, t, k, i);
  }

  /** On an n-by-n layout `boundary` of an edge is the table's one boundary; its target needs no reducing. */
  lemma {:induction false} BoundaryOfEdgeOnSquare(p: CubedSpherePartitioner, d: Direction, t: int, k: int, i: int)
    requires IsEdge(d) && Square(p) && OnCube(p.Layout().0, t, k, i)
    ensures p.BoundaryOf(d, RankOf(p.Layout(), t, k, i)) == Success(Edge([TableBoundary(p, d, t, k, i)]))
  {
    var n, b := p.Layout().0, TableBoundary(p, d, t, k, i);
    var s := SeamNeighbour(n, d, t, k, i);
    EdgeOnSquare(p, d, t, k, i);
    SeamNeighbourOnCube(n, d, t, k, i);
    RankOfOnCube(p, s.tile, s.row, s.column);
    assert ReduceAll([b], p.TotalRanks()) == [Reduce(b, p.TotalRanks())];
  }

  /**
   * On an n-by-n layout `boundary` never fails: an edge gives one boundary
   * whose target is a rank of the cube, and a corner gives none exactly at
   * its vertex and otherwise one whose target is a rank of the cube.
   */
  lemma {:induction false} BoundaryOnSquare(p: CubedSpherePartitioner, d: Direction, rank: int)
    requires Square(p) && 0 <= rank < p.TotalRanks()
    ensures var r := p.BoundaryOf(d, rank);
      && r.Success?
      && (IsEdge(d) ==> r.value.Edge? && |r.value.boundaries| == 1
                        && r.value.boundaries[0].fromRank == rank
                        && 0 <= r.value.boundaries[0].toRank < p.TotalRanks())
      && (!IsEdge(d) ==> r.value.Corner? && (r.value.corner.None? <==> p.AtVertex(d, rank))
                         && (r.value.corner.Some? ==>
                               r.value.corner.value.fromRank == rank
                               && 0 <= r.value.corner.value.toRank < p.TotalRanks()))
  {
    var t, k, i := CellOfRank(p, rank);
    if IsEdge(d) {
      EdgeOnSquare(p, d, t, k, i);
    } else {
      CornerOnSquare(p, d, t, k, i);
    }
  }
}
