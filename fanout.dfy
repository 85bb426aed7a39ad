/**
 * Fan-out across a seam between two tiles whose rank counts along the shared
 * edge differ.
 *
 * A rank on the left/right edge of a tile faces the bottom or top row of
 * another tile; a rank on the top/bottom edge faces its first or last
 * column. When the two edges hold different numbers of ranks, one rank
 * faces several. The boundary sequence counts, for each rank along the
 * source edge, how many target ranks it faces; its running sum cuts the
 * reversed target row or column into the spans each source rank receives.
 */
module FanOut {
  import opened Wrappers
  import opened Ranks
  import opened Tile

  /** One tile count along an axis divides the other. */
  predicate Divisible(layout: Layout) {
    layout.0 % layout.1 == 0 || layout.1 % layout.0 == 0
  }

  /** The row of a rank on its tile, `(rank % ranks per tile) // layout.0`. */
  function RowPosition(layout: Layout, rank: int): (y: int)
    ensures 0 <= y < layout.1 && y == Position(rank, layout).2
  {
    DecomposeRank(rank, layout);
    (rank % RanksPerTile(layout)) / layout.0
  }

  /** The column of a rank on its tile, `(rank % ranks per tile) % layout.0`. */
  function ColumnPosition(layout: Layout, rank: int): (x: int)
    ensures 0 <= x < layout.0 && x == Position(rank, layout).1
  {
    (rank % RanksPerTile(layout)) % layout.0
  }

  // ---------------------------------------------------------------------------
  // Boundary sequences

  /** The count for position y >= 1 of a non-divisible sequence. */
  function SeqEntry(a: int, b: int, y: int): int
    requires b > 0
  {
    var num1 := a * b - y * a;
    var num2before := num1 / b + 1;
    var num2after := (num1 - a) / b + 1;
    num2before - num2after + 1
  }

  /**
   * The boundary sequence for `b` source ranks facing `a` target ranks:
   * `lr_boundary_seq` is (layout.0, layout.1), `ul_boundary_seq` the axes
   * swapped.
   */
  function BoundarySeq(a: int, b: int, divisible: bool): (s: seq<int>)
    requires a > 0 && b > 0
    ensures |s| == b
  {
    if divisible then
      var div := if a >= b then a / b else 1;
      seq(b, _ => div)
    else
      seq(b, y requires 0 <= y < b => if y == 0 then a / b + 1 else SeqEntry(a, b, y))
  }

  /** The list the non-divisible loop builds from position 1 on, appended to `[a // b + 1]`. */
  method FillBoundarySeq(a: int, b: int) returns (boundarySeq: seq<int>)
    requires a > 0 && b > 0
    ensures boundarySeq == BoundarySeq(a, b, false)
  {
    boundarySeq := [a / b + 1];
    var y := 1;
    while y < b
      invariant 1 <= y <= b
      invariant boundarySeq == BoundarySeq(a, b, false)[..y]
    {
      var num1 := a * b - y * a;
      var num2before := num1 / b + 1;
      var num2after := (num1 - a) / b + 1;
      var numadd := num2before - num2after + 1;
      boundarySeq := boundarySeq + [numadd];
      y := y + 1;
    }
  }

  method LrBoundarySeq(layout: Layout, rank: int) returns (nBoundary: int, boundarySeq: seq<int>)
    ensures boundarySeq == BoundarySeq(layout.0, layout.1, Divisible(layout))
    ensures nBoundary == boundarySeq[RowPosition(layout, rank)]
  {
    var rankPositionY := RowPosition(layout, rank);
    if Divisible(layout) {
      var div := if layout.0 >= layout.1 then layout.0 / layout.1 else 1;
      boundarySeq := seq(layout.1, _ => div);
    } else {
      boundarySeq := FillBoundarySeq(layout.0, layout.1);
    }
    nBoundary := boundarySeq[rankPositionY];
  }

  /**
   * `ul_boundary_seq` reads its count at the rank's row, `(rank % ranks per
   * tile) // layout.0`, in a list of length layout.0: IndexError when the
   * row is not below layout.0.
   */
  method UlBoundarySeq(layout: Layout, rank: int) returns (r: Result<(int, seq<int>)>)
    ensures r.Success? <==> RowPosition(layout, rank) < layout.0
    ensures r.Success? ==>
      && r.value.1 == BoundarySeq(layout.1, layout.0, Divisible(layout))
      && r.value.0 == r.value.1[RowPosition(layout, rank)]
    ensures r.Failure? ==> r.error == IndexError
  {
    var rankPositionX := RowPosition(layout, rank);
    var boundarySeq;
    if Divisible(layout) {
      var div := if layout.1 >= layout.0 then layout.1 / layout.0 else 1;
      boundarySeq := seq(layout.0, _ => div);
    } else {
      boundarySeq := FillBoundarySeq(layout.1, layout.0);
    }
    if rankPositionX < |boundarySeq| {
      r := Success((boundarySeq[rankPositionX], boundarySeq));
    } else {
      r := Failure(IndexError);
    }
  }

  // ---------------------------------------------------------------------------
  // Running sums and slices

  function Sum(s: seq<int>): int {
    if |s| == 0 then 0 else Sum(s[..|s| - 1]) + s[|s| - 1]
  }

  /** `np.cumsum`: entry k is the sum of the first k + 1 entries. */
  function CumSum(s: seq<int>): (c: seq<int>)
    ensures |c| == |s|
  {
    seq(|s|, k requires 0 <= k < |s| => Sum(s[..k + 1]))
  }

  /** The running sum `lr_to_ranks` and `ul_to_ranks` cut spans with. */
  function CumulatedBoundarySeq(layout: Layout, boundarySeq: seq<int>): (c: seq<int>)
    ensures |c| == |boundarySeq|
  {
    if Divisible(layout) then
      var div := layout.1 / layout.0;
      var cumsum := CumSum(boundarySeq);
      if div >= 1 then seq(|cumsum|, j requires 0 <= j < |cumsum| => cumsum[j] / div) else cumsum
    else
      CumSum(Decrements(boundarySeq))
  }

  /** `[x - 1 for x in s]`. */
  function Decrements(s: seq<int>): (d: seq<int>)
    ensures |d| == |s| && forall j :: 0 <= j < |s| ==> d[j] == s[j] - 1
  {
    seq(|s|, j requires 0 <= j < |s| => s[j] - 1)
  }

  function Reversed(s: seq<int>): (r: seq<int>)
    ensures |r| == |s| && forall j :: 0 <= j < |s| ==> r[j] == s[|s| - 1 - j]
  {
    if |s| == 0 then [] else [s[|s| - 1]] + Reversed(s[..|s| - 1])
  }

  /** A Python slice bound: negative counts from the end, then clamped to `[0, n]`. */
  function ClampIndex(x: int, n: nat): (c: int)
    ensures 0 <= c <= n
    ensures 0 <= x <= n ==> c == x
  {
    if x < 0 then (if x + n < 0 then 0 else x + n)
    else if x > n then n
    else x
  }

  /** `s[start:stop]` with Python's treatment of negative and out-of-range bounds. */
  function PySlice(s: seq<int>, start: int, stop: int): (r: seq<int>)
    ensures 0 <= start <= stop <= |s| ==> r == s[start..stop]
    ensures 0 <= stop <= start ==> r == []
    ensures forall x :: x in r ==> x in s
  {
    var lo, hi := ClampIndex(start, |s|), ClampIndex(stop, |s|);
    if lo < hi then s[lo..hi] else []
  }

  // ---------------------------------------------------------------------------
  // Target ranks

  /** Rank x of the target tile's bottom row, or of its top row when the rank is on its tile's left edge. */
  function LrEdgeRank(layout: Layout, rank: int, toRootRank: int, x: int): int {
    if TilePartitioner(layout).OnTileLeft(rank) then toRootRank + layout.0 * (layout.1 - 1) + x
    else toRootRank + x
  }

  /** Rank y of the target tile's first column when the rank is on its tile's top edge, else of its last column. */
  function UlEdgeRank(layout: Layout, rank: int, toRootRank: int, y: int): int {
    if TilePartitioner(layout).OnTileTop(rank) then toRootRank + layout.0 * y
    else toRootRank + layout.0 * y + layout.0 - 1
  }

  function LrEdgeRanks(layout: Layout, rank: int, toRootRank: int): seq<int> {
    seq(layout.0, x => LrEdgeRank(layout, rank, toRootRank, x))
  }

  function UlEdgeRanks(layout: Layout, rank: int, toRootRank: int): seq<int> {
    seq(layout.1, y => UlEdgeRank(layout, rank, toRootRank, y))
  }

  /**
   * The span of the reversed edge ranks that `lr_to_ranks` returns for the
   * rank in row y. `layout.0 / layout.1 >= 1` in floating point is written
   * as `layout.0 >= layout.1`.
   */
  function LrSlice(layout: Layout, y: int, cumsum: seq<int>, pot: seq<int>): seq<int>
    requires |cumsum| == layout.1 && 0 <= y < layout.1
  {
    if y == 0 then
      if Divisible(layout) then
        if layout.0 / layout.1 >= 1 then PySlice(pot, 0, cumsum[0])
        else
          var div := layout.1 / layout.0;
          PySlice(pot, 0, cumsum[0] / div)
      else PySlice(pot, 0, cumsum[0] + 1)
    else if Divisible(layout) then
      if layout.0 >= layout.1 then PySlice(pot, cumsum[y - 1], cumsum[y])
      else
        var div := layout.1 / layout.0;
        PySlice(pot, y / div, y / div + 1)
    else PySlice(pot, cumsum[y - 1], cumsum[y] + 1)
  }

  /** The span of the reversed edge ranks that `ul_to_ranks` returns for the rank in column x. */
  function UlSlice(layout: Layout, x: int, cumsum: seq<int>, pot: seq<int>): seq<int>
    requires |cumsum| == layout.0 && 0 <= x < layout.0
  {
    DivisibleShapes(layout);
    if x == 0 then
      if Divisible(layout) then
        if layout.1 / layout.0 > 1 then PySlice(pot, 0, layout.1 / layout.0)
        else PySlice(pot, 0, 1)
      else PySlice(pot, 0, cumsum[0] + 1)
    else if Divisible(layout) then
      if layout.1 / layout.0 > 1 then
        var div := layout.1 / layout.0;
        PySlice(pot, x * div, x * div + div)
      else
        var div := layout.0 / layout.1;
        PySlice(pot, x / div, x / div + 1)
    else PySlice(pot, cumsum[x - 1], cumsum[x] + 1)
  }

  /** The target ranks `lr_to_ranks` finds for `rank` on the tile rooted at `toRootRank`. */
  function LrTargets(layout: Layout, rank: int, toRootRank: int): seq<int> {
    var boundarySeq := BoundarySeq(layout.0, layout.1, Divisible(layout));
    LrSlice(layout, RowPosition(layout, rank), CumulatedBoundarySeq(layout, boundarySeq),
            Reversed(LrEdgeRanks(layout, rank, toRootRank)))
  }

  /** The target ranks `ul_to_ranks` finds, or the IndexError its boundary sequence raises. */
  function UlTargets(layout: Layout, rank: int, toRootRank: int): Result<seq<int>> {
    if RowPosition(layout, rank) >= layout.0 then Failure(IndexError)
    else
      var boundarySeq := BoundarySeq(layout.1, layout.0, Divisible(layout));
      Success(UlSlice(layout, ColumnPosition(layout, rank), CumulatedBoundarySeq(layout, boundarySeq),
                      Reversed(UlEdgeRanks(layout, rank, toRootRank))))
  }

  method LrToRanks(layout: Layout, rank: int, toRootRank: int) returns (toRanksSeq: seq<int>)
    ensures toRanksSeq == LrTargets(layout, rank, toRootRank)
  {
    var nBoundary, boundarySeq := LrBoundarySeq(layout, rank);
    var cumsumBoundarySeq := CumulatedBoundarySeq(layout, boundarySeq);
    var rankPositionY := RowPosition(layout, rank);
    var onLeft := TilePartitioner(layout).OnTileLeft(rank);
    var toRanksPot := [];
    var x := 0;
    while x < layout.0
      invariant 0 <= x <= layout.0
      invariant toRanksPot == LrEdgeRanks(layout, rank, toRootRank)[..x]
    {
      if onLeft {
        toRanksPot := toRanksPot + [toRootRank + layout.0 * (layout.1 - 1) + x];
      } else {
        toRanksPot := toRanksPot + [toRootRank + x];
      }
      x := x + 1;
    }
    assert toRanksPot == LrEdgeRanks(layout, rank, toRootRank);
    toRanksPot := Reversed(toRanksPot);
    toRanksSeq := LrSlice(layout, rankPositionY, cumsumBoundarySeq, toRanksPot);
  }

  method UlToRanks(layout: Layout, rank: int, toRootRank: int) returns (r: Result<seq<int>>)
    ensures r == UlTargets(layout, rank, toRootRank)
  {
    var b := UlBoundarySeq(layout, rank);
    if b.Failure? {
      return Failure(b.error);
    }
    var boundarySeq := b.value.1;
    var cumsumBoundarySeq := CumulatedBoundarySeq(layout, boundarySeq);
    var rankPositionX := ColumnPosition(layout, rank);
    var onTop := TilePartitioner(layout).OnTileTop(rank);
    var toRanksPot := [];
    var y := 0;
    while y < layout.1
      invariant 0 <= y <= layout.1
      invariant toRanksPot == UlEdgeRanks(layout, rank, toRootRank)[..y]
    {
      if onTop {
        toRanksPot := toRanksPot + [toRootRank + layout.0 * y];
      } else {
        toRanksPot := toRanksPot + [toRootRank + layout.0 * y + layout.0 - 1];
      }
      y := y + 1;
    }
    assert toRanksPot == UlEdgeRanks(layout, rank, toRootRank);
    toRanksPot := Reversed(toRanksPot);
    r := Success(UlSlice(layout, rankPositionX, cumsumBoundarySeq, toRanksPot));
  }

  // ---------------------------------------------------------------------------
  // Properties

  /**
   * A divisible layout is either wide, layout.0 a multiple m >= 1 of
   * layout.1, or tall, layout.1 a multiple m >= 2 of layout.0.
   */
  lemma DivisibleShapes(layout: Layout)
    ensures Divisible(layout) && layout.0 >= layout.1 ==> layout.0 == (layout.0 / layout.1) * layout.1
    ensures Divisible(layout) && layout.0 < layout.1 ==>
      layout.1 == (layout.1 / layout.0) * layout.0 && layout.1 / layout.0 >= 2
    ensures Divisible(layout) && layout.1 / layout.0 <= 1 ==> layout.0 >= layout.1 && layout.0 / layout.1 >= 1
  {
    var a, b := layout.0, layout.1;
    DivBounds(a, b);
    DivBounds(b, a);
    var qa, qb := a / b, b / a;
    if Divisible(layout) {
      if a >= b {
        if b % a == 0 {
          assert b == qb * a;
          if qb <= 0 { MulMonotone(qb, 0, a); }
          MulMonotone(1, qb, a);
          DivModUnique(a, b, 1, 0);
        }
        if qa <= 0 { MulMonotone(qa, 0, b); }
      } else {
        DivModUnique(a, b, 0, a);
        assert b == qb * a;
        if qb < 2 { MulMonotone(qb, 1, a); }
      }
    }
  }

  /** The sum of k + 1 copies of v. */
  lemma {:induction false} CumSumConstant(b: int, v: int, k: int)
    requires 0 <= k < b
    ensures CumSum(seq(b, _ => v))[k] == (k + 1) * v
  {
    var s := seq(b, _ => v);
    ConstantPrefixSum(s, v, k + 1);
  }

  lemma {:induction false} ConstantPrefixSum(s: seq<int>, v: int, m: int)
    requires 0 <= m <= |s| && forall j :: 0 <= j < |s| ==> s[j] == v
    ensures Sum(s[..m]) == m * v
  {
    if m > 0 {
      assert s[..m][..m - 1] == s[..m - 1];
      ConstantPrefixSum(s, v, m - 1);
    }
  }

  /** `(a * m) // b`, the number of whole ranks of b in m ranks of a. */
  function Share(a: int, b: int, m: int): int
    requires b > 0
  {
    (a * m) / b
  }

  lemma DivMonotone(x: int, y: int, b: int)
    requires b > 0 && x <= y
    ensures x / b <= y / b
  {
    DivBounds(x, b);
    DivBounds(y, b);
    if x / b > y / b {
      MulMonotone(y / b + 1, x / b, b);
    }
  }

  lemma BoundarySeqEntry(a: int, b: int, y: int)
    requires a > 0 && b > 0 && 0 <= y < b
    ensures BoundarySeq(a, b, false)[y] == if y == 0 then a / b + 1 else SeqEntry(a, b, y)
  {
  }

  /** The count at position y >= 1 of a non-divisible sequence is one more than a difference of shares. */
  lemma SeqEntryIsShareStep(a: int, b: int, y: int)
    requires a > 0 && b > 0 && 1 <= y < b
    ensures SeqEntry(a, b, y) - 1 == Share(a, b, b - y) - Share(a, b, b - y - 1)
    ensures Share(a, b, b - y) >= Share(a, b, b - y - 1)
  {
    assert a * b - y * a == a * (b - y);
    assert a * b - y * a - a == a * (b - y - 1);
    MulMonotone(b - y - 1, b - y, a);
    assert (b - y - 1) * a == a * (b - y - 1) && (b - y) * a == a * (b - y);
    DivMonotone(a * (b - y - 1), a * (b - y), b);
  }

  /** The running sum of the non-divisible counts minus one telescopes. */
  lemma {:induction false} NonDivisibleCumSum(a: int, b: int, k: int)
    requires a > 0 && b > 0 && 0 <= k < b
    ensures var d := Decrements(BoundarySeq(a, b, false));
      Sum(d[..k + 1]) == a / b + Share(a, b, b - 1) - Share(a, b, b - 1 - k)
  {
    var d := Decrements(BoundarySeq(a, b, false));
    if k > 0 {
      NonDivisibleCumSum(a, b, k - 1);
      assert d[..k + 1][..k] == d[..k];
      assert Sum(d[..k + 1]) == Sum(d[..k]) + d[k];
      BoundarySeqEntry(a, b, k);
      SeqEntryIsShareStep(a, b, k);
    }
  }

  /**
   * When b does not divide a, every count is at least 1, the running sum is
   * non-decreasing from a // b, and it ends at a - 1: the spans
   * `[cumsum[k - 1], cumsum[k] + 1)` run from 0 to a, each sharing its first
   * index with the previous span's last, and span k holds count k ranks.
   */
  lemma {:induction false} NonDivisibleSpans(a: int, b: int)
    requires a > 0 && b > 0 && a % b != 0
    ensures var s := BoundarySeq(a, b, false);
      var c := CumSum(Decrements(s));
      && (forall k :: 0 <= k < b ==> s[k] >= 1)
      && c[0] == a / b && c[0] + 1 == s[0]
      && (forall k :: 0 < k < b ==> c[k - 1] <= c[k] && c[k] + 1 - c[k - 1] == s[k])
      && c[b - 1] == a - 1
  {
    var s := BoundarySeq(a, b, false);
    var c := CumSum(Decrements(s));
    forall k | 0 <= k < b
      ensures s[k] >= 1
    {
      NonDivisibleCountPositive(a, b, k);
    }
    NonDivisibleCumSum(a, b, 0);
    BoundarySeqEntry(a, b, 0);
    forall k | 0 < k < b
      ensures c[k - 1] <= c[k] && c[k] + 1 - c[k - 1] == s[k]
    {
      NonDivisibleSpanStep(a, b, k);
    }
    NonDivisibleSpanEnd(a, b);
  }

  lemma NonDivisibleCountPositive(a: int, b: int, k: int)
    requires a > 0 && b > 0 && 0 <= k < b
    ensures BoundarySeq(a, b, false)[k] >= 1
  {
    BoundarySeqEntry(a, b, k);
    if k > 0 { SeqEntryIsShareStep(a, b, k); }
  }

  lemma NonDivisibleSpanStep(a: int, b: int, k: int)
    requires a > 0 && b > 0 && 0 < k < b
    ensures var s := BoundarySeq(a, b, false);
      var c := CumSum(Decrements(s));
      c[k - 1] <= c[k] && c[k] + 1 - c[k - 1] == s[k]
  {
    NonDivisibleCumSum(a, b, k - 1);
    NonDivisibleCumSum(a, b, k);
    BoundarySeqEntry(a, b, k);
    SeqEntryIsShareStep(a, b, k);
  }

  lemma NonDivisibleSpanEnd(a: int, b: int)
    requires a > 0 && b > 0 && a % b != 0
    ensures CumSum(Decrements(BoundarySeq(a, b, false)))[b - 1] == a - 1
  {
    NonDivisibleCumSum(a, b, b - 1);
    var q, r := a / b, a % b;
    DivBounds(a, b);
    assert a * (b - 1) == (a - q - 1) * b + (b - r);
    DivModUnique(a * (b - 1), b, a - q - 1, b - r);
    assert Share(a, b, 0) == 0;
  }

  /** A slice takes its ranks from the reversed edge ranks. */
  lemma LrSliceFromPot(layout: Layout, y: int, cumsum: seq<int>, pot: seq<int>)
    requires |cumsum| == layout.1 && 0 <= y < layout.1
    ensures forall x :: x in LrSlice(layout, y, cumsum, pot) ==> x in pot
  {
  }

  lemma UlSliceFromPot(layout: Layout, x: int, cumsum: seq<int>, pot: seq<int>)
    requires |cumsum| == layout.0 && 0 <= x < layout.0
    ensures forall r :: r in UlSlice(layout, x, cumsum, pot) ==> r in pot
  {
  }

  /** The rank in row `row`, column `column` of the tile rooted at `toRootRank`, read back. */
  lemma CellOfTile(layout: Layout, toRootRank: int, row: int, column: int)
    requires 0 <= row < layout.1 && 0 <= column < layout.0
    ensures var x := toRootRank + row * layout.0 + column;
      && 0 <= x - toRootRank < RanksPerTile(layout)
      && (x - toRootRank) / layout.0 == row && (x - toRootRank) % layout.0 == column
  {
    assert RanksPerTile(layout) == (layout.1 - 1) * layout.0 + layout.0;
    MulMonotone(row, layout.1 - 1, layout.0);
    DivModUnique(row * layout.0 + column, layout.0, row, column);
  }

  /** A rank of the reversed lr edge ranks is a rank of the target row, at some column. */
  lemma LrPotRank(layout: Layout, rank: int, toRootRank: int, x: int) returns (column: int)
    requires x in Reversed(LrEdgeRanks(layout, rank, toRootRank))
    ensures 0 <= column < layout.0
    ensures x == toRootRank + (if TilePartitioner(layout).OnTileLeft(rank) then layout.1 - 1 else 0) * layout.0 + column
  {
    var pot := Reversed(LrEdgeRanks(layout, rank, toRootRank));
    var j :| 0 <= j < |pot| && pot[j] == x;
    column := layout.0 - 1 - j;
    assert x == LrEdgeRank(layout, rank, toRootRank, column);
    assert layout.0 * (layout.1 - 1) == (layout.1 - 1) * layout.0;
  }

  /** A rank of the reversed ul edge ranks is a rank of the target column, at some row. */
  lemma UlPotRank(layout: Layout, rank: int, toRootRank: int, x: int) returns (row: int)
    requires x in Reversed(UlEdgeRanks(layout, rank, toRootRank))
    ensures 0 <= row < layout.1
    ensures x == toRootRank + row * layout.0 + (if TilePartitioner(layout).OnTileTop(rank) then 0 else layout.0 - 1)
  {
    var pot := Reversed(UlEdgeRanks(layout, rank, toRootRank));
    var j :| 0 <= j < |pot| && pot[j] == x;
    row := layout.1 - 1 - j;
    assert x == UlEdgeRank(layout, rank, toRootRank, row);
    assert layout.0 * row == row * layout.0;
  }

  /** Every lr target is on the target tile, in its top row from a left edge and its bottom row otherwise. */
  lemma {:induction false} LrTargetsOnTargetRow(layout: Layout, rank: int, toRootRank: int)
    ensures forall x :: x in LrTargets(layout, rank, toRootRank) ==>
      && 0 <= x - toRootRank < RanksPerTile(layout)
      && (x - toRootRank) / layout.0 == (if TilePartitioner(layout).OnTileLeft(rank) then layout.1 - 1 else 0)
  {
    var pot := Reversed(LrEdgeRanks(layout, rank, toRootRank));
    var row := if TilePartitioner(layout).OnTileLeft(rank) then layout.1 - 1 else 0;
    var boundarySeq := BoundarySeq(layout.0, layout.1, Divisible(layout));
    LrSliceFromPot(layout, RowPosition(layout, rank), CumulatedBoundarySeq(layout, boundarySeq), pot);
    forall x | x in pot
      ensures 0 <= x - toRootRank < RanksPerTile(layout) && (x - toRootRank) / layout.0 == row
    {
      var column := LrPotRank(layout, rank, toRootRank, x);
      CellOfTile(layout, toRootRank, row, column);
    }
  }

  /** Every ul target is on the target tile, in its first column from a top edge and its last column otherwise. */
  lemma {:induction false} UlTargetsOnTargetColumn(layout: Layout, rank: int, toRootRank: int)
    requires UlTargets(layout, rank, toRootRank).Success?
    ensures forall x :: x in UlTargets(layout, rank, toRootRank).value ==>
      && 0 <= x - toRootRank < RanksPerTile(layout)
      && (x - toRootRank) % layout.0 == (if TilePartitioner(layout).OnTileTop(rank) then 0 else layout.0 - 1)
  {
    var pot := Reversed(UlEdgeRanks(layout, rank, toRootRank));
    var column := if TilePartitioner(layout).OnTileTop(rank) then 0 else layout.0 - 1;
    var boundarySeq := BoundarySeq(layout.1, layout.0, Divisible(layout));
    UlSliceFromPot(layout, ColumnPosition(layout, rank), CumulatedBoundarySeq(layout, boundarySeq), pot);
    forall x | x in pot
      ensures 0 <= x - toRootRank < RanksPerTile(layout) && (x - toRootRank) % layout.0 == column
    {
      var row := UlPotRank(layout, rank, toRootRank, x);
      CellOfTile(layout, toRootRank, row, column);
    }
  }

  /** A wide layout, layout.0 == m * layout.1, is divisible with quotient m. */
  lemma WideShape(layout: Layout, m: int)
    requires m >= 1 && layout.0 == m * layout.1
    ensures Divisible(layout) && layout.0 >= layout.1 && layout.0 / layout.1 == m
    ensures layout.1 / layout.0 == (if m == 1 then 1 else 0)
  {
    DivModUnique(layout.0, layout.1, m, 0);
    MulMonotone(1, m, layout.1);
    if m == 1 {
      DivModUnique(layout.1, layout.0, 1, 0);
    } else {
      MulMonotone(2, m, layout.1);
      DivModUnique(layout.1, layout.0, 0, layout.1);
    }
  }

  /** A tall layout, layout.1 == m * layout.0 with m >= 2, is divisible with quotient m. */
  lemma TallShape(layout: Layout, m: int)
    requires m >= 2 && layout.1 == m * layout.0
    ensures Divisible(layout) && layout.0 < layout.1 && layout.1 / layout.0 == m
    ensures layout.0 / layout.1 == 0
  {
    DivModUnique(layout.1, layout.0, m, 0);
    MulMonotone(2, m, layout.0);
    DivModUnique(layout.0, layout.1, 0, layout.0);
  }

  /** The running sum of a wide layout's counts: entry j is (j + 1) * m. */
  lemma WideCumulated(layout: Layout, m: int, j: int)
    requires m >= 1 && layout.0 == m * layout.1 && 0 <= j < layout.1
    ensures BoundarySeq(layout.0, layout.1, true)[j] == m
    ensures CumulatedBoundarySeq(layout, BoundarySeq(layout.0, layout.1, true))[j] == (j + 1) * m
  {
    WideShape(layout, m);
    var s := BoundarySeq(layout.0, layout.1, true);
    assert s == seq(layout.1, _ => m);
    CumSumConstant(layout.1, m, j);
    if m == 1 {
      assert (j + 1) * 1 / 1 == (j + 1) * 1;
    }
  }

  /** The span `[y * m, (y + 1) * m)` fits in a sequence of m * b entries when y < b. */
  lemma SpanFits(y: int, m: int, b: int)
    requires 0 <= y < b && m >= 1
    ensures 0 <= y * m <= y * m + m == (y + 1) * m <= m * b
  {
    MulMonotone(0, y, m);
    MulMonotone(y + 1, b, m);
  }

  /** A span of the reversed lr edge ranks, rank by rank. */
  lemma LrSpan(layout: Layout, rank: int, toRootRank: int, lo: int, m: int)
    requires 0 <= lo && 0 <= m && lo + m <= layout.0
    ensures Reversed(LrEdgeRanks(layout, rank, toRootRank))[lo..lo + m] ==
      seq(m, j => LrEdgeRank(layout, rank, toRootRank, layout.0 - 1 - (lo + j)))
  {
  }

  /** A span of the reversed ul edge ranks, rank by rank. */
  lemma UlSpan(layout: Layout, rank: int, toRootRank: int, lo: int, m: int)
    requires 0 <= lo && 0 <= m && lo + m <= layout.1
    ensures Reversed(UlEdgeRanks(layout, rank, toRootRank))[lo..lo + m] ==
      seq(m, j => UlEdgeRank(layout, rank, toRootRank, layout.1 - 1 - (lo + j)))
  {
  }

  /**
   * On a wide divisible layout (layout.0 == m * layout.1) the rank in row y
   * receives the m reversed edge ranks from y * m on, one count of the
   * boundary sequence; the spans of the rows partition the edge.
   */
  lemma {:induction false} LrTargetsWide(layout: Layout, rank: int, toRootRank: int, m: int)
    requires m >= 1 && layout.0 == m * layout.1
    ensures var y := RowPosition(layout, rank);
      && BoundarySeq(layout.0, layout.1, Divisible(layout))[y] == m
      && LrTargets(layout, rank, toRootRank) ==
         seq(m, j => LrEdgeRank(layout, rank, toRootRank, layout.0 - 1 - (y * m + j)))
  {
    var y := RowPosition(layout, rank);
    WideShape(layout, m);
    var s := BoundarySeq(layout.0, layout.1, true);
    var c := CumulatedBoundarySeq(layout, s);
    var pot := Reversed(LrEdgeRanks(layout, rank, toRootRank));
    WideCumulated(layout, m, y);
    SpanFits(y, m, layout.1);
    if y == 0 {
      assert LrSlice(layout, y, c, pot) == PySlice(pot, 0, c[0]);
    } else {
      WideCumulated(layout, m, y - 1);
      assert c[y - 1] == y * m;
      assert LrSlice(layout, y, c, pot) == PySlice(pot, c[y - 1], c[y]);
    }
    LrSpan(layout, rank, toRootRank, y * m, m);
  }

  /** The lr slice on a tall layout: nothing for row 0, the one rank at y // m for row y > 0. */
  lemma LrSliceTall(layout: Layout, y: int, pot: seq<int>, m: int)
    requires m >= 2 && layout.1 == m * layout.0 && 0 <= y < layout.1
    ensures BoundarySeq(layout.0, layout.1, Divisible(layout))[y] == 1
    ensures var c := CumulatedBoundarySeq(layout, BoundarySeq(layout.0, layout.1, Divisible(layout)));
      LrSlice(layout, y, c, pot) == if y == 0 then PySlice(pot, 0, 0) else PySlice(pot, y / m, y / m + 1)
  {
    TallShape(layout, m);
    var s := BoundarySeq(layout.0, layout.1, true);
    assert s == seq(layout.1, _ => 1);
    if y == 0 {
      var c := CumulatedBoundarySeq(layout, s);
      CumSumConstant(layout.1, 1, 0);
      assert c[0] == 1 / m;
      DivModUnique(1, m, 0, 1);
    }
  }

  /**
   * On a tall divisible layout (layout.1 == m * layout.0, m >= 2) row 0
   * receives no target rank although its count is 1, and row y > 0 receives
   * the one reversed edge rank at y // m.
   */
  lemma {:induction false} LrTargetsTall(layout: Layout, rank: int, toRootRank: int, m: int)
    requires m >= 2 && layout.1 == m * layout.0
    ensures var y := RowPosition(layout, rank);
      && BoundarySeq(layout.0, layout.1, Divisible(layout))[y] == 1
      && LrTargets(layout, rank, toRootRank) ==
         if y == 0 then [] else [LrEdgeRank(layout, rank, toRootRank, layout.0 - 1 - y / m)]
  {
    var y := RowPosition(layout, rank);
    var pot := Reversed(LrEdgeRanks(layout, rank, toRootRank));
    var c := CumulatedBoundarySeq(layout, BoundarySeq(layout.0, layout.1, Divisible(layout)));
    assert LrTargets(layout, rank, toRootRank) == LrSlice(layout, y, c, pot);
    LrSliceTall(layout, y, pot, m);
    if y > 0 {
      QuotientBelow(y, m, layout.0);
      LrSingle(layout, rank, toRootRank, y / m);
    }
  }

  /** The ul slice on a wide layout: the one rank at x // m. */
  lemma UlSliceWide(layout: Layout, x: int, cumsum: seq<int>, pot: seq<int>, m: int)
    requires m >= 1 && layout.0 == m * layout.1
    requires |cumsum| == layout.0 && 0 <= x < layout.0
    ensures UlSlice(layout, x, cumsum, pot) == PySlice(pot, x / m, x / m + 1)
  {
    WideShape(layout, m);
    if x == 0 {
      DivModUnique(0, m, 0, 0);
    }
  }

  /** The ul slice on a tall layout: the m ranks from x * m on. */
  lemma UlSliceTall(layout: Layout, x: int, cumsum: seq<int>, pot: seq<int>, m: int)
    requires m >= 2 && layout.1 == m * layout.0
    requires |cumsum| == layout.0 && 0 <= x < layout.0
    ensures UlSlice(layout, x, cumsum, pot) == PySlice(pot, x * m, x * m + m)
  {
    TallShape(layout, m);
  }

  /**
   * On a wide divisible layout (layout.0 == m * layout.1) the rank in
   * column x receives the one reversed edge rank at x // m; on an n-by-n
   * layout that is the rank at x.
   */
  lemma {:induction false} UlTargetsWide(layout: Layout, rank: int, toRootRank: int, m: int)
    requires m >= 1 && layout.0 == m * layout.1
    ensures UlTargets(layout, rank, toRootRank) ==
      Success([UlEdgeRank(layout, rank, toRootRank, layout.1 - 1 - ColumnPosition(layout, rank) / m)])
  {
    var a, b := layout.0, layout.1;
    var x := ColumnPosition(layout, rank);
    MulMonotone(1, m, b);
    assert RowPosition(layout, rank) < a;
    var c := CumulatedBoundarySeq(layout, BoundarySeq(b, a, Divisible(layout)));
    var pot := Reversed(UlEdgeRanks(layout, rank, toRootRank));
    UlSliceWide(layout, x, c, pot, m);
    QuotientBelow(x, m, b);
    UlSingle(layout, rank, toRootRank, x / m);
  }

  lemma QuotientBelow(x: int, m: int, b: int)
    requires m >= 1 && 0 <= x < m * b
    ensures 0 <= x / m < b
  {
    assert b * m == m * b;
    QuotientBounds(x, m, b);
  }

  /** The one-rank span at q of the reversed lr edge ranks. */
  lemma LrSingle(layout: Layout, rank: int, toRootRank: int, q: int)
    requires 0 <= q < layout.0
    ensures PySlice(Reversed(LrEdgeRanks(layout, rank, toRootRank)), q, q + 1) ==
      [LrEdgeRank(layout, rank, toRootRank, layout.0 - 1 - q)]
  {
    LrSpan(layout, rank, toRootRank, q, 1);
  }

  /** The one-rank span at q of the reversed ul edge ranks. */
  lemma UlSingle(layout: Layout, rank: int, toRootRank: int, q: int)
    requires 0 <= q < layout.1
    ensures PySlice(Reversed(UlEdgeRanks(layout, rank, toRootRank)), q, q + 1) ==
      [UlEdgeRank(layout, rank, toRootRank, layout.1 - 1 - q)]
  {
    UlSpan(layout, rank, toRootRank, q, 1);
  }

  /**
   * On a tall divisible layout (layout.1 == m * layout.0, m >= 2) a rank in
   * a row that exists in the boundary sequence receives the m reversed edge
   * ranks from x * m on, x its column; a rank in a higher row raises
   * IndexError.
   */
  lemma {:induction false} UlTargetsTall(layout: Layout, rank: int, toRootRank: int, m: int)
    requires m >= 2 && layout.1 == m * layout.0
    ensures var x := ColumnPosition(layout, rank);
      UlTargets(layout, rank, toRootRank) ==
        if RowPosition(layout, rank) >= layout.0 then Failure(IndexError)
        else Success(seq(m, j => UlEdgeRank(layout, rank, toRootRank, layout.1 - 1 - (x * m + j))))
  {
    var a, b := layout.0, layout.1;
    var x := ColumnPosition(layout, rank);
    if RowPosition(layout, rank) < a {
      var s := BoundarySeq(b, a, Divisible(layout));
      var c := CumulatedBoundarySeq(layout, s);
      var pot := Reversed(UlEdgeRanks(layout, rank, toRootRank));
      assert UlTargets(layout, rank, toRootRank) == Success(UlSlice(layout, x, c, pot));
      UlSliceTall(layout, x, c, pot, m);
      SpanFits(x, m, a);
      UlSpan(layout, rank, toRootRank, x * m, m);
    }
  }

  /**
   * When one count does not divide the other, the rank in row y receives
   * span y of the reversed edge ranks, all within bounds, and as many ranks
   * as its count in the boundary sequence.
   */
  lemma {:induction false} LrTargetsNonDivisible(layout: Layout, rank: int, toRootRank: int)
    requires !Divisible(layout)
    ensures var y := RowPosition(layout, rank);
      var s := BoundarySeq(layout.0, layout.1, false);
      var c := CumSum(Decrements(s));
      var lo := if y == 0 then 0 else c[y - 1];
      && 0 <= lo <= c[y] + 1 <= layout.0
      && LrTargets(layout, rank, toRootRank) == Reversed(LrEdgeRanks(layout, rank, toRootRank))[lo..c[y] + 1]
      && |LrTargets(layout, rank, toRootRank)| == s[y]
  {
    var a, b := layout.0, layout.1;
    var y := RowPosition(layout, rank);
    NonDivisibleSpans(a, b);
    var s := BoundarySeq(a, b, false);
    var c := CumSum(Decrements(s));
    NonDecreasingToEnd(c, y);
    if y > 0 {
      NonDecreasingToEnd(c, y - 1);
      NonDecreasingFromStart(c, y - 1);
    }
  }

  /** The same for ul targets, which take span x of the reversed edge ranks, x the rank's column. */
  lemma {:induction false} UlTargetsNonDivisible(layout: Layout, rank: int, toRootRank: int)
    requires !Divisible(layout) && RowPosition(layout, rank) < layout.0
    ensures var x := ColumnPosition(layout, rank);
      var s := BoundarySeq(layout.1, layout.0, false);
      var c := CumSum(Decrements(s));
      var lo := if x == 0 then 0 else c[x - 1];
      && 0 <= lo <= c[x] + 1 <= layout.1
      && UlTargets(layout, rank, toRootRank) == Success(Reversed(UlEdgeRanks(layout, rank, toRootRank))[lo..c[x] + 1])
      && |UlTargets(layout, rank, toRootRank).value| == s[x]
  {
    var a, b := layout.1, layout.0;
    var x := ColumnPosition(layout, rank);
    NonDivisibleSpans(a, b);
    var s := BoundarySeq(a, b, false);
    var c := CumSum(Decrements(s));
    NonDecreasingToEnd(c, x);
    if x > 0 {
      NonDecreasingToEnd(c, x - 1);
      NonDecreasingFromStart(c, x - 1);
    }
  }

  /** A sequence whose neighbours do not decrease is bounded by its last entry. */
  lemma {:induction false} NonDecreasingToEnd(c: seq<int>, k: int)
    requires 0 <= k < |c| && forall j :: 0 < j < |c| ==> c[j - 1] <= c[j]
    ensures c[k] <= c[|c| - 1]
    decreases |c| - k
  {
    if k < |c| - 1 {
      NonDecreasingToEnd(c, k + 1);
    }
  }

  /** A sequence whose neighbours do not decrease is bounded below by its first entry. */
  lemma {:induction false} NonDecreasingFromStart(c: seq<int>, k: int)
    requires 0 <= k < |c| && forall j :: 0 < j < |c| ==> c[j - 1] <= c[j]
    ensures c[0] <= c[k]
  {
    if k > 0 {
      NonDecreasingFromStart(c, k - 1);
    }
  }

  /** On an n-by-n layout an lr fan-out has the one target in the reversed edge at the rank's row. */
  lemma {:induction false} LrTargetsOnSquare(layout: Layout, rank: int, toRootRank: int)
    requires layout.0 == layout.1
    ensures var n, y := layout.0, RowPosition(layout, rank);
      LrTargets(layout, rank, toRootRank) ==
        [toRootRank + (if TilePartitioner(layout).OnTileLeft(rank) then n * (n - 1) else 0) + (n - 1 - y)]
  {
    LrTargetsWide(layout, rank, toRootRank, 1);
  }

  /** On an n-by-n layout a ul fan-out has the one target in the reversed edge at the rank's column. */
  lemma {:induction false} UlTargetsOnSquare(layout: Layout, rank: int, toRootRank: int)
    requires layout.0 == layout.1
    ensures var n, x := layout.0, ColumnPosition(layout, rank);
      UlTargets(layout, rank, toRootRank) ==
        Success([toRootRank + n * (n - 1 - x) + (if TilePartitioner(layout).OnTileTop(rank) then 0 else n - 1)])
  {
    UlTargetsWide(layout, rank, toRootRank, 1);
  }
}
