/**
 * Rank arithmetic: which tile a rank lives on, and where on its tile it sits.
 *
 * A layout `(layout.0, layout.1)` has `layout.0` ranks along a tile row and
 * `layout.1` rows, so a tile holds `layout.0 * layout.1` ranks. Within a tile a
 * rank `w` sits in row `w / layout.0` and column `w % layout.0`.
 */
module Ranks {
  import opened Wrappers

  /** A tile layout; both counts are positive. */
  type Layout = l: (int, int) | l.0 > 0 && l.1 > 0 witness (1, 1)

  /** The tuple `(j, i, k, l)` of subtile_index, kept with all four components. */
  type SubtilePosition = (int, int, int, int)

  function RanksPerTile(layout: Layout): (n: int)
    ensures n >= layout.0 && n >= layout.1
  {
    MulAtLeast(layout.0, layout.1);
    MulAtLeast(layout.1, layout.0);
    layout.0 * layout.1
  }

  function GetTileIndex(rank: int, totalRanks: nat): (r: Result<int>)
    ensures totalRanks % 6 != 0 ==> r == Failure(ValueError)
    ensures totalRanks == 0 ==> r == Failure(ZeroDivisionError)
    ensures r.Success? <==> totalRanks % 6 == 0 && totalRanks > 0
    ensures r.Success? ==>
      r.value * (totalRanks / 6) <= rank < (r.value + 1) * (totalRanks / 6)
    ensures r.Success? && 0 <= rank < totalRanks ==> 0 <= r.value < 6
  {
    if totalRanks % 6 != 0 then Failure(ValueError)
    else if totalRanks == 0 then Failure(ZeroDivisionError)
    else
      var ranksPerTile := totalRanks / 6;
      QuotientBounds(rank, ranksPerTile, 6);
      Success(rank / ranksPerTile)
  }

  /** A quotient by m of a value in [0, c * m) lies in [0, c). */
  lemma QuotientBounds(x: int, m: int, c: int)
    requires m > 0
    ensures (x / m) * m <= x < (x / m + 1) * m
    ensures 0 <= x < c * m ==> 0 <= x / m < c
  {
    var t := x / m;
    DivBounds(x, m);
    if 0 <= x < c * m {
      if t >= c { MulMonotone(c, t, m); }
      if t < 0 { MulMonotone(t + 1, 0, m); }
    }
  }

  /** The tile index never decreases as the rank grows. */
  lemma {:induction false} GetTileIndexMonotone(rank1: int, rank2: int, totalRanks: nat)
    requires rank1 <= rank2
    requires GetTileIndex(rank1, totalRanks).Success?
    ensures GetTileIndex(rank2, totalRanks).Success?
    ensures GetTileIndex(rank1, totalRanks).value <= GetTileIndex(rank2, totalRanks).value
  {
    var m := totalRanks / 6;
    var t1, t2 := GetTileIndex(rank1, totalRanks).value, GetTileIndex(rank2, totalRanks).value;
    if t1 > t2 {
      MulMonotone(t2 + 1, t1, m);
    }
  }

  function SubtileIndex(rank: int, ranksPerTile: int, layout: Layout): (s: SubtilePosition)
    requires ranksPerTile > 0
    ensures 0 <= s.1 < layout.0 && s.2 * layout.0 + s.1 == rank % ranksPerTile
    ensures 0 <= s.3 < layout.1 && s.0 * layout.1 + s.3 == rank % ranksPerTile
  {
    var withinTileRank := rank % ranksPerTile;
    DivBounds(withinTileRank, layout.0);
    DivBounds(withinTileRank, layout.1);
    (withinTileRank / layout.1, withinTileRank % layout.0,
     withinTileRank / layout.0, withinTileRank % layout.1)
  }

  predicate OnTileLeft(s: SubtilePosition) { s.1 == 0 }

  predicate OnTileRight(s: SubtilePosition, layout: Layout) { s.1 == layout.0 - 1 }

  predicate OnTileTop(s: SubtilePosition, layout: Layout) { s.2 == layout.1 - 1 }

  predicate OnTileBottom(s: SubtilePosition) { s.2 == 0 }

  predicate IsEven(value: int) { value % 2 == 0 }

  /** The subtile position of a rank on a tile of `layout`, as a tile partitioner reads it. */
  function Position(rank: int, layout: Layout): SubtilePosition {
    SubtileIndex(rank, RanksPerTile(layout), layout)
  }

  /** The rank on tile `t` in row `k` and column `i`. */
  function RankOf(layout: Layout, t: int, k: int, i: int): int {
    t * RanksPerTile(layout) + k * layout.0 + i
  }

  /** Building a rank from a tile, a row and a column and reading them back is the identity. */
  lemma {:induction false} LocateRankOf(layout: Layout, t: int, k: int, i: int)
    requires 0 <= k < layout.1 && 0 <= i < layout.0
    ensures var rank := RankOf(layout, t, k, i);
      && rank / RanksPerTile(layout) == t
      && rank % RanksPerTile(layout) == k * layout.0 + i
      && Position(rank, layout).1 == i
      && Position(rank, layout).2 == k
  {
    var n := RanksPerTile(layout);
    var w := k * layout.0 + i;
    MulMonotone(k, layout.1 - 1, layout.0);
    assert (layout.1 - 1) * layout.0 == n - layout.0;
    assert 0 <= w < n;
    DivModUnique(RankOf(layout, t, k, i), n, t, w);
    DivModUnique(w, layout.0, k, i);
  }

  /** Every rank is the rank of its own tile, row and column; the row is below layout.1. */
  lemma {:induction false} DecomposeRank(rank: int, layout: Layout)
    ensures var s := Position(rank, layout);
      && 0 <= s.2 < layout.1
      && rank == RankOf(layout, rank / RanksPerTile(layout), s.2, s.1)
  {
    var n := RanksPerTile(layout);
    var s := Position(rank, layout);
    var w := rank % n;
    assert s.2 * layout.0 + s.1 == w;
    if s.2 >= layout.1 {
      MulMonotone(layout.1, s.2, layout.0);
    }
    if s.2 < 0 {
      MulMonotone(s.2 + 1, 0, layout.0);
    }
  }

  /** The four edge tests read the column (left, right) and the row (bottom, top). */
  lemma {:induction false} EdgeTestsReadRowAndColumn(layout: Layout, t: int, k: int, i: int)
    requires 0 <= k < layout.1 && 0 <= i < layout.0
    ensures var s := Position(RankOf(layout, t, k, i), layout);
      && (OnTileLeft(s) <==> i == 0)
      && (OnTileRight(s, layout) <==> i == layout.0 - 1)
      && (OnTileBottom(s) <==> k == 0)
      && (OnTileTop(s, layout) <==> k == layout.1 - 1)
  {
    LocateRankOf(layout, t, k, i);
  }

  /** On a square layout the two redundant pairs of subtile_index agree. */
  lemma {:induction false} SquareSubtileIndexAgrees(rank: int, layout: Layout)
    requires layout.0 == layout.1
    ensures var s := Position(rank, layout); s.0 == s.2 && s.1 == s.3
  {
    var s := Position(rank, layout);
    var w := rank % RanksPerTile(layout);
    DivModUnique(w, layout.0, s.2, s.1);
  }

  // ---------------------------------------------------------------------------
  // Arithmetic helpers

  lemma MulAtLeast(a: int, b: int)
    requires a > 0 && b > 0
    ensures a * b >= a
  {
    MulMonotone(1, b, a);
  }

  lemma MulMonotone(a: int, b: int, m: int)
    requires a <= b && m >= 0
    ensures a * m <= b * m
  {
    assert b * m - a * m == (b - a) * m;
  }

  lemma DivBounds(x: int, m: int)
    requires m > 0
    ensures (x / m) * m <= x < (x / m + 1) * m
    ensures 0 <= x % m < m && x == (x / m) * m + x % m
  {
  }

  lemma DivModUnique(x: int, m: int, q: int, r: int)
    requires m > 0 && 0 <= r < m && x == q * m + r
    ensures x / m == q && x % m == r
  {
    var q', r' := x / m, x % m;
    DivBounds(x, m);
    if q' > q {
      MulMonotone(q + 1, q', m);
    } else if q' < q {
      MulMonotone(q' + 1, q, m);
    }
  }

  /** Reducing into [0, m) a value that is a known multiple of m away from [0, m). */
  lemma ModOfShifted(x: int, m: int, j: int)
    requires m > 0 && 0 <= x + j * m < m
    ensures x % m == x + j * m
  {
    DivModUnique(x, m, -j, x + j * m);
  }
}
