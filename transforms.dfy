/**
 * Rank re-indexing transforms.
 *
 * The source builds the rank grid `np.arange(L0 * L1).reshape(layout)` (row
 * `r`, column `c` holds `r * L1 + c`), applies a numpy transform to it, finds
 * where the given rank went (`np.where`), and reads the original grid at that
 * position. Here the transformed grid is given entry by entry, the position
 * `np.where` finds is written in closed form, and a lemma proves that it is the
 * only position holding the rank.
 */
module Transforms {
  import opened Wrappers
  import opened Ranks

  datatype GridTransform =
    | Rot90      // np.rot90: a quarter turn counter-clockwise
    | Transpose  // np.transpose
    | FlipLR     // np.fliplr: mirror along a vertical axis
    | FlipUD     // np.flipud: mirror along a horizontal axis

  /** The entry in row r, column c of the rank grid (shape layout.0 by layout.1). */
  function GridEntry(layout: Layout, r: int, c: int): int {
    r * layout.1 + c
  }

  /** The (rows, columns) shape of the rank grid after transform t. */
  function TransformedShape(t: GridTransform, layout: Layout): (int, int) {
    match t
    case Rot90 => (layout.1, layout.0)
    case Transpose => (layout.1, layout.0)
    case FlipLR => (layout.0, layout.1)
    case FlipUD => (layout.0, layout.1)
  }

  /** The entry in row p, column q of the transformed rank grid, as numpy defines t. */
  function TransformedEntry(t: GridTransform, layout: Layout, p: int, q: int): int {
    match t
    case Rot90 => GridEntry(layout, q, layout.1 - 1 - p)
    case Transpose => GridEntry(layout, q, p)
    case FlipLR => GridEntry(layout, p, layout.1 - 1 - q)
    case FlipUD => GridEntry(layout, layout.0 - 1 - p, q)
  }

  predicate InShape(shape: (int, int), p: int, q: int) {
    0 <= p < shape.0 && 0 <= q < shape.1
  }

  /** The position of `rank` in the transformed grid, in closed form. */
  function WherePosition(t: GridTransform, layout: Layout, rank: int): (int, int) {
    var r, c := rank / layout.1, rank % layout.1;
    match t
    case Rot90 => (layout.1 - 1 - c, r)
    case Transpose => (c, r)
    case FlipLR => (r, layout.1 - 1 - c)
    case FlipUD => (layout.0 - 1 - r, c)
  }

  /** The rank grid holds every rank of the tile once: row rank / layout.1, column rank % layout.1. */
  lemma GridEntryDecodes(layout: Layout, r: int, c: int)
    requires 0 <= r < layout.0 && 0 <= c < layout.1
    ensures 0 <= GridEntry(layout, r, c) < RanksPerTile(layout)
    ensures GridEntry(layout, r, c) / layout.1 == r && GridEntry(layout, r, c) % layout.1 == c
  {
    GridEntryInRange(layout, r, c);
    DivModUnique(GridEntry(layout, r, c), layout.1, r, c);
  }

  /** Row and column of a rank of the tile in the rank grid. */
  lemma GridPositionOf(layout: Layout, rank: int)
    requires 0 <= rank < RanksPerTile(layout)
    ensures 0 <= rank / layout.1 < layout.0 && 0 <= rank % layout.1 < layout.1
    ensures rank == GridEntry(layout, rank / layout.1, rank % layout.1)
  {
    assert RanksPerTile(layout) == layout.1 * layout.0;
    QuotientBounds(rank, layout.1, layout.0);
  }

  /**
   * For a rank of the tile, the closed-form position lies in the transformed
   * grid and is the one and only position there holding the rank (what
   * `np.where` finds).
   */
  lemma {:induction false} WherePositionIsTheOnlyMatch(t: GridTransform, layout: Layout, rank: int, p: int, q: int)
    requires 0 <= rank < RanksPerTile(layout)
    requires InShape(TransformedShape(t, layout), p, q)
    ensures InShape(TransformedShape(t, layout), WherePosition(t, layout, rank).0, WherePosition(t, layout, rank).1)
    ensures TransformedEntry(t, layout, p, q) == rank <==> (p, q) == WherePosition(t, layout, rank)
  {
    GridPositionOf(layout, rank);
    match t
    case Rot90 =>
      GridEntryDecodes(layout, q, layout.1 - 1 - p);
    case Transpose =>
      GridEntryDecodes(layout, q, p);
    case FlipLR =>
      GridEntryDecodes(layout, p, layout.1 - 1 - q);
    case FlipUD =>
      GridEntryDecodes(layout, layout.0 - 1 - p, q);
  }

  function TransformSubtileRank(t: GridTransform, rank: int, layout: Layout): (result: Result<int>)
    ensures result.Success? <==>
      && 0 <= rank < RanksPerTile(layout)
      && InShape(layout, WherePosition(t, layout, rank).0, WherePosition(t, layout, rank).1)
    ensures result.Failure? ==> result.error == IndexError
  {
    if !(0 <= rank < RanksPerTile(layout)) then Failure(IndexError)
    else
      var (p, q) := WherePosition(t, layout, rank);
      if InShape(layout, p, q) then Success(GridEntry(layout, p, q)) else Failure(IndexError)
  }

  /**
   * The transform reads the rank grid at the position where the transformed
   * grid holds `rank`, and fails with IndexError when that position lies
   * outside the rank grid.
   */
  lemma {:induction false} TransformReadsWhereRankWent(t: GridTransform, rank: int, layout: Layout, p: int, q: int)
    requires 0 <= rank < RanksPerTile(layout)
    requires InShape(TransformedShape(t, layout), p, q) && TransformedEntry(t, layout, p, q) == rank
    ensures TransformSubtileRank(t, rank, layout) ==
      if InShape(layout, p, q) then Success(GridEntry(layout, p, q)) else Failure(IndexError)
  {
    WherePositionIsTheOnlyMatch(t, layout, rank, p, q);
  }

  /** A rank outside the tile is found nowhere in the grid: IndexError. */
  lemma {:induction false} TransformRejectsForeignRank(t: GridTransform, rank: int, layout: Layout)
    requires !(0 <= rank < RanksPerTile(layout))
    ensures forall p, q :: InShape(TransformedShape(t, layout), p, q) ==> TransformedEntry(t, layout, p, q) != rank
    ensures TransformSubtileRank(t, rank, layout) == Failure(IndexError)
  {
    forall p, q | InShape(TransformedShape(t, layout), p, q)
      ensures TransformedEntry(t, layout, p, q) != rank
    {
      match t
      case Rot90 => GridEntryInRange(layout, q, layout.1 - 1 - p);
      case Transpose => GridEntryInRange(layout, q, p);
      case FlipLR => GridEntryInRange(layout, p, layout.1 - 1 - q);
      case FlipUD => GridEntryInRange(layout, layout.0 - 1 - p, q);
    }
  }

  function TransposeSubtileRank(rank: int, layout: Layout): Result<int> {
    TransformSubtileRank(Transpose, rank, layout)
  }

  function FliplrSubtileRank(rank: int, layout: Layout): Result<int> {
    TransformSubtileRank(FlipLR, rank, layout)
  }

  function FlipudSubtileRank(rank: int, layout: Layout): Result<int> {
    TransformSubtileRank(FlipUD, rank, layout)
  }

  function RotateSubtileRank(rank: int, layout: Layout, nClockwiseRotations: int): (result: Result<int>)
    ensures nClockwiseRotations == 0 ==> result == Success(rank)
    ensures nClockwiseRotations !in {0, 1} ==> result == Failure(NotImplementedError)
  {
    if nClockwiseRotations == 0 then Success(rank)
    else if nClockwiseRotations == 1 then TransformSubtileRank(Rot90, rank, layout)
    else Failure(NotImplementedError)
  }

  // ---------------------------------------------------------------------------
  // Properties

  /** fliplr moves the rank in row r, column c to column layout.1-1-c and is an involution. */
  lemma {:induction false} FliplrIsInvolution(rank: int, layout: Layout)
    requires 0 <= rank < RanksPerTile(layout)
    ensures var r, c := rank / layout.1, rank % layout.1;
      FliplrSubtileRank(rank, layout) == Success(GridEntry(layout, r, layout.1 - 1 - c))
    ensures var m := FliplrSubtileRank(rank, layout).value;
      0 <= m < RanksPerTile(layout) && FliplrSubtileRank(m, layout) == Success(rank)
  {
    GridPositionOf(layout, rank);
    var r, c := rank / layout.1, rank % layout.1;
    GridEntryDecodes(layout, r, layout.1 - 1 - c);
  }

  /** flipud moves the rank in row r, column c to row layout.0-1-r and is an involution. */
  lemma {:induction false} FlipudIsInvolution(rank: int, layout: Layout)
    requires 0 <= rank < RanksPerTile(layout)
    ensures var r, c := rank / layout.1, rank % layout.1;
      FlipudSubtileRank(rank, layout) == Success(GridEntry(layout, layout.0 - 1 - r, c))
    ensures var m := FlipudSubtileRank(rank, layout).value;
      0 <= m < RanksPerTile(layout) && FlipudSubtileRank(m, layout) == Success(rank)
  {
    GridPositionOf(layout, rank);
    var r, c := rank / layout.1, rank % layout.1;
    GridEntryDecodes(layout, layout.0 - 1 - r, c);
  }

  /** On an n-by-n layout the transpose swaps row and column and is an involution. */
  lemma {:induction false} TransposeIsInvolutionOnSquare(rank: int, layout: Layout)
    requires layout.0 == layout.1
    requires 0 <= rank < RanksPerTile(layout)
    ensures var r, c := rank / layout.1, rank % layout.1;
      TransposeSubtileRank(rank, layout) == Success(GridEntry(layout, c, r))
    ensures var m := TransposeSubtileRank(rank, layout).value;
      0 <= m < RanksPerTile(layout) && TransposeSubtileRank(m, layout) == Success(rank)
  {
    GridPositionOf(layout, rank);
    var r, c := rank / layout.1, rank % layout.1;
    GridEntryDecodes(layout, c, r);
  }

  /** One clockwise rotation of an n-by-n layout sends row r, column c to row n-1-c, column r. */
  lemma {:induction false} RotateOnSquare(rank: int, layout: Layout)
    requires layout.0 == layout.1
    requires 0 <= rank < RanksPerTile(layout)
    ensures var n, r, c := layout.0, rank / layout.0, rank % layout.0;
      RotateSubtileRank(rank, layout, 1) == Success((n - 1 - c) * n + r)
    ensures 0 <= RotateSubtileRank(rank, layout, 1).value < RanksPerTile(layout)
  {
    var n, r, c := layout.0, rank / layout.0, rank % layout.0;
    QuotientBounds(rank, n, n);
    GridEntryInRange(layout, n - 1 - c, r);
  }

  /** The quarter turn in row and column terms: (r, c) goes to (n-1-c, r). */
  lemma RotateCell(layout: Layout, r: int, c: int)
    requires layout.0 == layout.1
    requires 0 <= r < layout.0 && 0 <= c < layout.0
    ensures RotateSubtileRank(GridEntry(layout, r, c), layout, 1) == Success(GridEntry(layout, layout.0 - 1 - c, r))
  {
    GridEntryDecodes(layout, r, c);
    RotateOnSquare(GridEntry(layout, r, c), layout);
  }

  /** Four clockwise quarter turns of an n-by-n layout bring every rank back. */
  lemma {:induction false} RotateFourTimesIsIdentity(rank: int, layout: Layout)
    requires layout.0 == layout.1
    requires 0 <= rank < RanksPerTile(layout)
    ensures RotateSubtileRank(rank, layout, 1).Success?
    ensures var r1 := RotateSubtileRank(rank, layout, 1).value;
      RotateSubtileRank(r1, layout, 1).Success? &&
      var r2 := RotateSubtileRank(r1, layout, 1).value;
      RotateSubtileRank(r2, layout, 1).Success? &&
      var r3 := RotateSubtileRank(r2, layout, 1).value;
      RotateSubtileRank(r3, layout, 1) == Success(rank)
  {
    var n := layout.0;
    GridPositionOf(layout, rank);
    var r, c := rank / n, rank % n;
    var e1, e2, e3 := GridEntry(layout, n - 1 - c, r), GridEntry(layout, n - 1 - r, n - 1 - c), GridEntry(layout, c, n - 1 - r);
    RotateCell(layout, r, c);
    assert RotateSubtileRank(rank, layout, 1) == Success(e1);
    RotateCell(layout, n - 1 - c, r);
    assert RotateSubtileRank(e1, layout, 1) == Success(e2);
    RotateCell(layout, n - 1 - r, n - 1 - c);
    assert RotateSubtileRank(e2, layout, 1) == Success(e3);
    RotateCell(layout, c, n - 1 - r);
    assert RotateSubtileRank(e3, layout, 1) == Success(GridEntry(layout, n - 1 - (n - 1 - r), c));
  }

  /** On an n-by-n layout one quarter turn maps [0, n*n) into itself. */
  lemma {:induction false} RotateStaysOnTile(layout: Layout)
    requires layout.0 == layout.1
    ensures forall a :: 0 <= a < RanksPerTile(layout) ==>
      RotateSubtileRank(a, layout, 1).Success? &&
      0 <= RotateSubtileRank(a, layout, 1).value < RanksPerTile(layout)
  {
    forall a | 0 <= a < RanksPerTile(layout)
      ensures RotateSubtileRank(a, layout, 1).Success?
      ensures 0 <= RotateSubtileRank(a, layout, 1).value < RanksPerTile(layout)
    {
      RotateOnSquare(a, layout);
    }
  }

  /** On an n-by-n layout no two ranks of the tile turn into the same rank. */
  lemma {:induction false} RotateIsInjective(layout: Layout)
    requires layout.0 == layout.1
    ensures forall a, b ::
      (0 <= a < RanksPerTile(layout) && 0 <= b < RanksPerTile(layout) &&
       RotateSubtileRank(a, layout, 1) == RotateSubtileRank(b, layout, 1)) ==> a == b
  {
    forall a, b | 0 <= a < RanksPerTile(layout) && 0 <= b < RanksPerTile(layout) &&
      RotateSubtileRank(a, layout, 1) == RotateSubtileRank(b, layout, 1)
      ensures a == b
    {
      RotateFourTimesIsIdentity(a, layout);
      RotateFourTimesIsIdentity(b, layout);
    }
  }

  /**
   * On an n-by-n layout every rank `m` of the tile is the quarter turn of a
   * rank of the tile; the preimage is three quarter turns of `m`.
   */
  lemma RotatePreimage(m: int, layout: Layout) returns (a: int)
    requires layout.0 == layout.1
    requires 0 <= m < RanksPerTile(layout)
    ensures 0 <= a < RanksPerTile(layout) && RotateSubtileRank(a, layout, 1) == Success(m)
  {
    var n := layout.0;
    GridPositionOf(layout, m);
    var r, c := m / n, m % n;
    a := GridEntry(layout, c, n - 1 - r);
    RotateCell(layout, c, n - 1 - r);
    GridEntryInRange(layout, c, n - 1 - r);
    assert GridEntry(layout, n - 1 - (n - 1 - r), c) == m;
  }

  lemma GridEntryInRange(layout: Layout, r: int, c: int)
    requires 0 <= r < layout.0 && 0 <= c < layout.1
    ensures 0 <= GridEntry(layout, r, c) < RanksPerTile(layout)
  {
    MulMonotone(r, layout.0 - 1, layout.1);
    assert layout.0 * layout.1 == (layout.0 - 1) * layout.1 + layout.1;
  }
}
