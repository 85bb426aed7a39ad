# Cubed-sphere domain decomposition, modelled in Dafny

This project models the partitioner of a cubed-sphere grid. The grid is six
square cube faces, called tiles. Each tile is cut into `layout.0 * layout.1`
ranks, one per processor. Ranks are numbered tile by tile, and row by row
inside a tile (`rank = t * ranks_per_tile + row * layout.0 + column`).

The partitioner answers three kinds of question:

- **Where a rank sits.** It gives a rank's tile, its position on the tile
  (`subtile_index`) and whether it lies on a tile side.
- **Who a rank's neighbours are.** It gives the boundary of a rank in each of
  the eight directions.
  - The tile partitioner wraps around each tile as on a doubly periodic domain.
  - The cubed-sphere partitioner crosses seams between tiles. Half of the
    seams join two tiles edge to edge. The other half join grids turned
    against each other, one or three quarter turns.
  - At a turned seam one rank may face several ranks. The lr and ul
    "fan-out" computes which ones, from a boundary sequence of counts.
  - A corner takes two edge steps in turn. There is no corner boundary at
    the tile vertex it points to.
- **How data is split.** It converts a quantity's extents between a rank, a
  tile and the cube, and gives the slice of a tile's data each rank holds.
  Interface dimensions share one point between neighbouring ranks.

Modules:

- `Wrappers`: `Option`, `Result` and the Python exceptions the code raises.
- `Ranks`: tile index, subtile index, edge tests and rank arithmetic.
- `Transforms`: the numpy grid transforms (transpose, fliplr, flipud, rot90)
  as closed forms.
- `Slicer`: extents and slices.
- `Tile`: the tile partitioner.
- `FanOut`: boundary sequences and the lr/ul target ranks.
- `Cube`: the cubed-sphere partitioner, with its edges, corners, boundary
  dispatch, extents and slices.
- `CubeSeams`: the seams on an n-by-n layout as a table, and proofs that
  each edge, corner and boundary agrees with it.
- `CubeProperties`: tall layouts, the two findings, and extent and selector
  round trips.

Partitioners hold only their layout and are never changed after
construction, so they are datatypes with member functions. The source's
loops become methods proved equal to specification functions:

- `extent_from_metadata`
- `subtile_slice`
- the boundary-sequence loops
- the lr/ul target loops
- the cube edges' `boundary_list` loops

Python's `//` and `%` are used here only with positive divisors, where they
agree with Dafny's.

## Model

| member | source | states |
|---|---|---|
| Ranks.GetTileIndex | projects/2021/groupH_cubedsphere_decomposition/partitioner.py:27-34 | ValueError when the total is not a multiple of 6, ZeroDivisionError when it is 0; otherwise succeeds with the tile whose block of `total/6` ranks holds `rank`, one of the six for a rank in range |
| Ranks.GetTileIndexMonotone | projects/2021/groupH_cubedsphere_decomposition/partitioner.py:27-34 | a higher rank never has a lower tile index |
| Ranks.RanksPerTile | projects/2021/groupH_cubedsphere_decomposition/partitioner.py:124-126 | a tile holds at least as many ranks as either layout count |
| Ranks.SubtileIndex | projects/2021/groupH_cubedsphere_decomposition/partitioner.py:851-859 | `(j, i, k, l)` with `k * layout.0 + i` and `j * layout.1 + l` both the rank within its tile, `i` and `l` in range |
| Ranks.LocateRankOf | projects/2021/groupH_cubedsphere_decomposition/partitioner.py:851-859 | a rank built from a tile, row and column reads back that tile, row and column |
| Ranks.DecomposeRank | projects/2021/groupH_cubedsphere_decomposition/partitioner.py:851-859 | every rank is the rank of its own tile, row (below layout.1) and column |
| Ranks.EdgeTestsReadRowAndColumn | projects/2021/groupH_cubedsphere_decomposition/partitioner.py:782-795 | left/right hold exactly at the first/last column, bottom/top exactly at the first/last row |
| Ranks.OnTileLeft | projects/2021/groupH_cubedsphere_decomposition/partitioner.py:782-783 | no contract of its own; Ranks.EdgeTestsReadRowAndColumn: holds exactly at column 0 |
| Ranks.OnTileRight | projects/2021/groupH_cubedsphere_decomposition/partitioner.py:786-787 | no contract of its own; Ranks.EdgeTestsReadRowAndColumn: holds exactly at column layout.0 - 1 |
| Ranks.OnTileTop | projects/2021/groupH_cubedsphere_decomposition/partitioner.py:790-791 | no contract of its own; Ranks.EdgeTestsReadRowAndColumn: holds exactly at row layout.1 - 1 |
| Ranks.OnTileBottom | projects/2021/groupH_cubedsphere_decomposition/partitioner.py:794-795 | no contract of its own; Ranks.EdgeTestsReadRowAndColumn: holds exactly at row 0 |
| Ranks.IsEven | projects/2021/groupH_cubedsphere_decomposition/partitioner.py:862-863 | no contract of its own: `value % 2 == 0`; CubeSeams.SixTileSteps states how the seams' tile steps change it |
| Ranks.SquareSubtileIndexAgrees | projects/2021/groupH_cubedsphere_decomposition/partitioner.py:851-859 | on a square layout the two position pairs of `subtile_index` coincide |
| Transforms.WherePositionIsTheOnlyMatch | projects/2021/groupH_cubedsphere_decomposition/partitioner.py:837-848 | the closed-form position is the one and only entry of the transformed grid equal to the rank |
| Transforms.TransformSubtileRank | projects/2021/groupH_cubedsphere_decomposition/partitioner.py:837-848 | succeeds exactly when the rank is on the tile and its position lies in the rank grid; otherwise IndexError |
| Transforms.TransformReadsWhereRankWent | projects/2021/groupH_cubedsphere_decomposition/partitioner.py:837-848 | the result is the rank grid's entry at the position where the transformed grid holds the rank, IndexError when that is off the grid |
| Transforms.TransformRejectsForeignRank | projects/2021/groupH_cubedsphere_decomposition/partitioner.py:837-848 | a rank off the tile matches no entry, giving IndexError |
| Transforms.TransposeSubtileRank | projects/2021/groupH_cubedsphere_decomposition/partitioner.py:816-820 | no contract of its own: the transform with a transposed grid; Transforms.TransposeIsInvolutionOnSquare |
| Transforms.FliplrSubtileRank | projects/2021/groupH_cubedsphere_decomposition/partitioner.py:823-827 | no contract of its own: the transform with columns mirrored; Transforms.FliplrIsInvolution |
| Transforms.FlipudSubtileRank | projects/2021/groupH_cubedsphere_decomposition/partitioner.py:830-834 | no contract of its own: the transform with rows mirrored; Transforms.FlipudIsInvolution |
| Transforms.RotateSubtileRank | projects/2021/groupH_cubedsphere_decomposition/partitioner.py:798-813 | zero rotations is the identity; any count other than 0 and 1 raises NotImplementedError |
| Transforms.FliplrIsInvolution | projects/2021/groupH_cubedsphere_decomposition/partitioner.py:823-827 | fliplr mirrors the column; applying it twice gives the rank back |
| Transforms.FlipudIsInvolution | projects/2021/groupH_cubedsphere_decomposition/partitioner.py:830-834 | flipud mirrors the row; applying it twice gives the rank back |
| Transforms.TransposeIsInvolutionOnSquare | projects/2021/groupH_cubedsphere_decomposition/partitioner.py:816-820 | on a square layout transpose swaps row and column and is its own inverse |
| Transforms.RotateOnSquare | projects/2021/groupH_cubedsphere_decomposition/partitioner.py:798-813 | one quarter turn on an n-by-n tile gives `(n-1-c) * n + r` for row r, column c, a rank of the tile |
| Transforms.RotateCell | projects/2021/groupH_cubedsphere_decomposition/partitioner.py:798-813 | a quarter turn moves cell (r, c) to cell (n-1-c, r) |
| Transforms.RotateFourTimesIsIdentity | projects/2021/groupH_cubedsphere_decomposition/partitioner.py:798-813 | four quarter turns bring every rank back |
| Transforms.RotateStaysOnTile | projects/2021/groupH_cubedsphere_decomposition/partitioner.py:798-813 | a quarter turn succeeds on every rank of the tile and stays on the tile |
| Transforms.RotateIsInjective | projects/2021/groupH_cubedsphere_decomposition/partitioner.py:798-813 | two ranks with the same quarter-turn image are equal |
| Transforms.RotatePreimage | projects/2021/groupH_cubedsphere_decomposition/partitioner.py:798-813 | every rank of the tile is the quarter-turn image of one, so the turn is a permutation |
| Slicer.TruncDiv | projects/2021/groupH_cubedsphere_decomposition/partitioner.py:908-919 | `int()` of `num/den`: floor division for non-negative numerators, exact when den divides num |
| Slicer.ScaledExtents | projects/2021/groupH_cubedsphere_decomposition/partitioner.py:908-919 | one extent per position of the three zipped lists, as many as the shortest |
| Slicer.ExtentFromMetadata | projects/2021/groupH_cubedsphere_decomposition/partitioner.py:908-919 | the loop builds exactly the scaled extents |
| Slicer.LayoutCounts | projects/2021/groupH_cubedsphere_decomposition/partitioner.py:866-884 | one positive rank count per dimension |
| Slicer.TileExtentFromRankMetadata | projects/2021/groupH_cubedsphere_decomposition/partitioner.py:866-884 | a tile's extent is `(e-1)*n + 1` along an interface dimension and `e*n` otherwise, for n ranks along it |
| Slicer.RankExtentFromTileMetadata | projects/2021/groupH_cubedsphere_decomposition/partitioner.py:887-905 | each rank extent is the tile extent scaled by `1/n`, one per zipped position |
| Slicer.RankExtentExact | projects/2021/groupH_cubedsphere_decomposition/partitioner.py:887-905 | when the points divide evenly the scaled extent is `(e - g)/n + g`, g the interface points |
| Slicer.RankTileRankRoundTrip | projects/2021/groupH_cubedsphere_decomposition/partitioner.py:866-905 | growing rank extents to a tile's and cutting back returns them unchanged |
| Slicer.TileRankTileRoundTrip | projects/2021/groupH_cubedsphere_decomposition/partitioner.py:866-905 | cutting evenly divisible tile extents to a rank's and growing back returns them unchanged |
| Slicer.IndexGenerator | projects/2021/groupH_cubedsphere_decomposition/partitioner.py:945-958 | one index record per zipped dimension |
| Slicer.IndexData1D.ExtentMinusGridcellCount | projects/2021/groupH_cubedsphere_decomposition/partitioner.py:933-938 | no contract of its own: 1 along an interface dimension, else 0; used by Slicer.AxisSliceBounds |
| Slicer.IndexData1D.BaseExtent | projects/2021/groupH_cubedsphere_decomposition/partitioner.py:929-931 | no contract of its own: the points no other rank shares; Slicer.AxisSliceBounds gives it as `(e - g) / n` |
| Slicer.IndexData1D.IsEndIndex | projects/2021/groupH_cubedsphere_decomposition/partitioner.py:940-942 | no contract of its own: the last rank along the axis; Slicer.AxisSlicesAbut shows its slice runs to the end |
| Slicer.SliceOf | projects/2021/groupH_cubedsphere_decomposition/partitioner.py:979-989 | no contract of its own: the loop body of `subtile_slice`; Slicer.AxisSliceBounds, Slicer.AxisSlicesHaveOneOwner and Slicer.AxisSlicesOverlap |
| Slicer.SubtileSlices | projects/2021/groupH_cubedsphere_decomposition/partitioner.py:961-989 | one slice per dimension, each the rank's slice of that dimension for its position and count |
| Slicer.SubtileSlice | projects/2021/groupH_cubedsphere_decomposition/partitioner.py:961-989 | the loop builds exactly those slices |
| Slicer.AxisSlicesAbut | projects/2021/groupH_cubedsphere_decomposition/partitioner.py:922-942 | without overlap the n slices start at 0, each ends where the next begins, and the last ends at the tile's extent |
| Slicer.AxisSliceBounds | projects/2021/groupH_cubedsphere_decomposition/partitioner.py:922-942 | rank i's slice is `[i*b, i*b + b)`, the last one running to the end; with overlap it also holds the interface points |
| Slicer.AxisSlicesHaveOneOwner | projects/2021/groupH_cubedsphere_decomposition/partitioner.py:961-989 | without overlap every point lies in exactly one rank's slice, the shared point going to the higher rank |
| Slicer.AxisSlicesOverlap | projects/2021/groupH_cubedsphere_decomposition/partitioner.py:961-989 | with overlap neighbouring slices share exactly the interface points and each slice holds the rank's whole extent |
| Slicer.NonHorizontalSliceIsWhole | projects/2021/groupH_cubedsphere_decomposition/partitioner.py:945-989 | a non-horizontal dimension is not split: every rank gets all of it |
| Tile.GetCorner | projects/2021/groupH_cubedsphere_decomposition/partitioner.py:299-313 | no contract of its own: the corner is the second edge step from where the first arrives, rotations added; its meaning is stated by Tile.TileBoundaryIsTorusNeighbour and Tile.CornerStepsCommute |
| Tile.CornerStepsCommute | projects/2021/groupH_cubedsphere_decomposition/partitioner.py:276-313 | on an n-by-n layout each tile corner reaches the same rank when its two edge steps are taken in the other order |
| Tile.TilePartitioner.SubtileSlice | projects/2021/groupH_cubedsphere_decomposition/partitioner.py:147-178 | the tile's slices are the slicer's for the rank's subtile position |
| Tile.TilePartitioner.TotalRanks | projects/2021/groupH_cubedsphere_decomposition/partitioner.py:124-126 | no contract of its own: `layout.0 * layout.1`; bounded below by Ranks.RanksPerTile |
| Tile.TilePartitioner.SubtileIndex | projects/2021/groupH_cubedsphere_decomposition/partitioner.py:120-122 | no contract of its own: the free `subtile_index` with the tile's rank count, whose contract is Ranks.SubtileIndex |
| Tile.TilePartitioner.OnTileTop | projects/2021/groupH_cubedsphere_decomposition/partitioner.py:180-181 | no contract of its own; Ranks.EdgeTestsReadRowAndColumn: holds exactly on the last row |
| Tile.TilePartitioner.OnTileBottom | projects/2021/groupH_cubedsphere_decomposition/partitioner.py:183-184 | no contract of its own; Ranks.EdgeTestsReadRowAndColumn: holds exactly on the first row |
| Tile.TilePartitioner.OnTileLeft | projects/2021/groupH_cubedsphere_decomposition/partitioner.py:186-187 | no contract of its own; Ranks.EdgeTestsReadRowAndColumn: holds exactly on the first column |
| Tile.TilePartitioner.OnTileRight | projects/2021/groupH_cubedsphere_decomposition/partitioner.py:189-190 | no contract of its own; Ranks.EdgeTestsReadRowAndColumn: holds exactly on the last column |
| Tile.TilePartitioner.Boundary | projects/2021/groupH_cubedsphere_decomposition/partitioner.py:192-222 | no contract of its own: dispatch by boundary type; Tile.TileBoundaryIsTorusNeighbour and Tile.TileBoundaryStaysOnTile state its value on n-by-n layouts |
| Tile.TilePartitioner.LeftEdge | projects/2021/groupH_cubedsphere_decomposition/partitioner.py:224-235 | no contract of its own; Tile.LeftRightEdgesWrap: one column left, wrapping, on every layout; Tile.EastUndoesWest |
| Tile.TilePartitioner.RightEdge | projects/2021/groupH_cubedsphere_decomposition/partitioner.py:237-248 | no contract of its own; Tile.LeftRightEdgesWrap: one column right, wrapping, on every layout; Tile.EastUndoesWest |
| Tile.TilePartitioner.TopEdge | projects/2021/groupH_cubedsphere_decomposition/partitioner.py:250-261 | no contract of its own; Tile.TopBottomEdgesWrap: one row up, wrapping, on n-by-n layouts; Tile.SouthUndoesNorth |
| Tile.TilePartitioner.BottomEdge | projects/2021/groupH_cubedsphere_decomposition/partitioner.py:263-274 | no contract of its own; Tile.TopBottomEdgesWrap: one row down, wrapping, on n-by-n layouts; Tile.SouthUndoesNorth |
| Tile.TilePartitioner.TopLeftCorner | projects/2021/groupH_cubedsphere_decomposition/partitioner.py:276-277 | no contract of its own; Tile.TileBoundaryIsTorusNeighbour: the diagonal neighbour up and left; Tile.CornerStepsCommute |
| Tile.TilePartitioner.TopRightCorner | projects/2021/groupH_cubedsphere_decomposition/partitioner.py:279-280 | no contract of its own; Tile.TileBoundaryIsTorusNeighbour: the diagonal neighbour up and right; Tile.CornerStepsCommute |
| Tile.TilePartitioner.BottomLeftCorner | projects/2021/groupH_cubedsphere_decomposition/partitioner.py:282-285 | no contract of its own; Tile.TileBoundaryIsTorusNeighbour: the diagonal neighbour down and left; Tile.CornerStepsCommute |
| Tile.TilePartitioner.BottomRightCorner | projects/2021/groupH_cubedsphere_decomposition/partitioner.py:287-290 | no contract of its own; Tile.TileBoundaryIsTorusNeighbour: the diagonal neighbour down and right; Tile.CornerStepsCommute |
| Tile.TilePartitioner.GlobalExtent | projects/2021/groupH_cubedsphere_decomposition/partitioner.py:128-139 | no contract of its own: Slicer.TileExtentFromRankMetadata with the tile's layout |
| Tile.TilePartitioner.SubtileExtent | projects/2021/groupH_cubedsphere_decomposition/partitioner.py:141-145 | no contract of its own: Slicer.RankExtentFromTileMetadata with the tile's layout |
| Tile.TilePartitioner.FliplrRank | projects/2021/groupH_cubedsphere_decomposition/partitioner.py:292-293 | no contract of its own: Transforms.FliplrSubtileRank with the tile's layout |
| Tile.TilePartitioner.RotateRank | projects/2021/groupH_cubedsphere_decomposition/partitioner.py:295-296 | no contract of its own: Transforms.RotateSubtileRank with the tile's layout |
| Tile.WrapStep | projects/2021/groupH_cubedsphere_decomposition/partitioner.py:224-274 | a step of -1, 0 or 1 modulo n wraps exactly at the two ends |
| Tile.LeftRightEdgesWrap | projects/2021/groupH_cubedsphere_decomposition/partitioner.py:224-248 | west and east move one column, wrapping at the tile's sides, on every layout |
| Tile.TopBottomEdgesWrap | projects/2021/groupH_cubedsphere_decomposition/partitioner.py:250-274 | on a square layout north and south move one row, wrapping at the top and bottom |
| Tile.TileBoundaryIsTorusNeighbour | projects/2021/groupH_cubedsphere_decomposition/partitioner.py:192-313 | on a square layout each of the eight boundaries is the torus neighbour one row and column step away, same tile, no rotation |
| Tile.TileBoundaryStaysOnTile | projects/2021/groupH_cubedsphere_decomposition/partitioner.py:192-290 | on a square layout every boundary leads to a rank of the same tile, of the requested type, from the rank |
| Tile.EastUndoesWest | projects/2021/groupH_cubedsphere_decomposition/partitioner.py:224-248 | a step east undoes a step west and the other way round |
| Tile.SouthUndoesNorth | projects/2021/groupH_cubedsphere_decomposition/partitioner.py:250-274 | on a square layout a step south undoes a step north and the other way round |
| Tile.EastOfRankZero | projects/2021/groupH_cubedsphere_decomposition/partitioner.py:237-248 | on layout (2, 2) the eastern neighbour of rank 0 is rank 1 |
| FanOut.RowPosition | projects/2021/groupH_cubedsphere_decomposition/partitioner.py:624-645 | the position `lr_boundary_seq` reads is the rank's row, below layout.1 |
| FanOut.ColumnPosition | projects/2021/groupH_cubedsphere_decomposition/partitioner.py:724-779 | the position `ul_to_ranks` slices at is the rank's column, below layout.0 |
| FanOut.BoundarySeq | projects/2021/groupH_cubedsphere_decomposition/partitioner.py:624-668 | the boundary sequence has one count per source rank |
| FanOut.FillBoundarySeq | projects/2021/groupH_cubedsphere_decomposition/partitioner.py:636-645 | the non-divisible loop builds exactly the boundary sequence |
| FanOut.LrBoundarySeq | projects/2021/groupH_cubedsphere_decomposition/partitioner.py:624-645 | returns the sequence for (layout.0, layout.1) and its count at the rank's row |
| FanOut.UlBoundarySeq | projects/2021/groupH_cubedsphere_decomposition/partitioner.py:647-668 | succeeds exactly when the rank's row is below layout.0, with the sequence for (layout.1, layout.0) and its count there; otherwise IndexError |
| FanOut.ClampIndex | projects/2021/groupH_cubedsphere_decomposition/partitioner.py:670-779 | a Python slice bound lands in `[0, n]` and is unchanged when already there |
| FanOut.PySlice | projects/2021/groupH_cubedsphere_decomposition/partitioner.py:670-779 | a Python slice is the Dafny slice for in-range bounds, empty for crossed bounds, and takes only elements of the list |
| FanOut.LrToRanks | projects/2021/groupH_cubedsphere_decomposition/partitioner.py:670-722 | the loops compute exactly the lr targets |
| FanOut.UlToRanks | projects/2021/groupH_cubedsphere_decomposition/partitioner.py:724-779 | the loops compute exactly the ul targets, or the IndexError of the boundary sequence |
| FanOut.LrTargets | projects/2021/groupH_cubedsphere_decomposition/partitioner.py:670-722 | no contract of its own: the spec of `lr_to_ranks`; FanOut.LrTargetsOnTargetRow, LrTargetsWide, LrTargetsTall, LrTargetsNonDivisible, LrTargetsOnSquare |
| FanOut.UlTargets | projects/2021/groupH_cubedsphere_decomposition/partitioner.py:724-779 | no contract of its own: the spec of `ul_to_ranks`; FanOut.UlTargetsOnTargetColumn, UlTargetsWide, UlTargetsTall, UlTargetsNonDivisible, UlTargetsOnSquare |
| FanOut.DivisibleShapes | projects/2021/groupH_cubedsphere_decomposition/partitioner.py:624-668 | a divisible layout is wide (layout.0 a multiple of layout.1) or tall with a quotient of at least 2 |
| FanOut.CumSumConstant | projects/2021/groupH_cubedsphere_decomposition/partitioner.py:670-779 | the running sum of a constant sequence at k is `(k+1) * v` |
| FanOut.NonDivisibleCumSum | projects/2021/groupH_cubedsphere_decomposition/partitioner.py:636-645 | the running sum of the counts less one telescopes to a difference of shares |
| FanOut.NonDivisibleSpans | projects/2021/groupH_cubedsphere_decomposition/partitioner.py:636-645 | in a non-divisible sequence every count is positive, the spans are contiguous, each as long as its count, and they end at the last target |
| FanOut.NonDivisibleSpanEnd | projects/2021/groupH_cubedsphere_decomposition/partitioner.py:636-645 | the running sum of the counts less one ends at `a - 1` |
| FanOut.LrTargetsOnTargetRow | projects/2021/groupH_cubedsphere_decomposition/partitioner.py:670-722 | every lr target is on the target tile, in its top row from a left edge and its bottom row otherwise |
| FanOut.UlTargetsOnTargetColumn | projects/2021/groupH_cubedsphere_decomposition/partitioner.py:724-779 | every ul target is on the target tile, in its first column from a top edge and its last column otherwise |
| FanOut.LrTargetsWide | projects/2021/groupH_cubedsphere_decomposition/partitioner.py:670-722 | on a layout m times wider than tall, row y receives the m reversed edge ranks from `y*m` on |
| FanOut.LrTargetsTall | projects/2021/groupH_cubedsphere_decomposition/partitioner.py:670-722 | on a layout m times taller than wide, row 0 receives nothing though its count is 1, and row y the one rank at `y // m` |
| FanOut.UlTargetsWide | projects/2021/groupH_cubedsphere_decomposition/partitioner.py:724-779 | on a wide divisible layout, column x receives the one reversed edge rank at `x // m` |
| FanOut.UlTargetsTall | projects/2021/groupH_cubedsphere_decomposition/partitioner.py:724-779 | on a tall layout, IndexError for rows at or past layout.0; otherwise column x receives the m ranks from `x*m` on |
| FanOut.LrTargetsNonDivisible | projects/2021/groupH_cubedsphere_decomposition/partitioner.py:670-722 | on a non-divisible layout row y receives its span of the reversed edge ranks, in bounds, as many as its count |
| FanOut.UlTargetsNonDivisible | projects/2021/groupH_cubedsphere_decomposition/partitioner.py:724-779 | the same for column x of a ul fan-out |
| FanOut.LrTargetsOnSquare | projects/2021/groupH_cubedsphere_decomposition/partitioner.py:670-722 | on an n-by-n layout row y faces the single rank `n-1-y` of the target's top or bottom row |
| FanOut.UlTargetsOnSquare | projects/2021/groupH_cubedsphere_decomposition/partitioner.py:724-779 | on an n-by-n layout column x faces the single rank `n-1-x` of the target's first or last column |
| Cube.ShiftUp | projects/2021/groupH_cubedsphere_decomposition/partitioner.py:404-406 | the corrected fix-up brings any target below twice the total into range, keeping it modulo the total |
| Cube.ShiftDown | projects/2021/groupH_cubedsphere_decomposition/partitioner.py:471-473 | the fix-up of a negative target brings it into range, keeping it modulo the total |
| Cube.ShiftUpAsWritten | projects/2021/groupH_cubedsphere_decomposition/partitioner.py:449-450 | no contract of its own: the source's `>` fix-up; CubeProperties.ShiftUpDiffersOnlyAtTotal |
| Cube.CubedSpherePartitioner.TotalRanks | projects/2021/groupH_cubedsphere_decomposition/partitioner.py:352-355 | the cube holds six tiles' worth of ranks, at least one |
| Cube.CubedSpherePartitioner.TileIndex | projects/2021/groupH_cubedsphere_decomposition/partitioner.py:340-342 | the tile index never fails on this total, and lies in [0, 6) for ranks in range |
| Cube.CubedSpherePartitioner.TileRootRank | projects/2021/groupH_cubedsphere_decomposition/partitioner.py:344-346 | the lowest rank of the rank's tile, within one tile of the rank |
| Cube.CubedSpherePartitioner.WestBoundaries | projects/2021/groupH_cubedsphere_decomposition/partitioner.py:390-410 | no contract of its own: the corrected western boundaries; CubeSeams.WestOnSquare states them on n-by-n layouts |
| Cube.CubedSpherePartitioner.WestBoundariesAsWritten | projects/2021/groupH_cubedsphere_decomposition/partitioner.py:403-406 | no contract of its own: the western boundaries with the source's `>`; CubeProperties.WestAsWrittenAgrees |
| Cube.CubedSpherePartitioner.EastBoundaries | projects/2021/groupH_cubedsphere_decomposition/partitioner.py:412-432 | no contract of its own: the corrected eastern boundaries; CubeSeams.EastOnSquare states them on n-by-n layouts |
| Cube.CubedSpherePartitioner.EastBoundariesAsWritten | projects/2021/groupH_cubedsphere_decomposition/partitioner.py:425-428 | no contract of its own: the eastern boundaries with the source's `>`; CubeProperties.EastAsWrittenAgrees |
| Cube.CubedSpherePartitioner.NorthBoundaries | projects/2021/groupH_cubedsphere_decomposition/partitioner.py:434-454 | no contract of its own: the corrected northern boundaries or IndexError; CubeSeams.NorthOnSquare and CubeProperties.NorthFailsOnTallLayouts |
| Cube.CubedSpherePartitioner.NorthBoundariesAsWritten | projects/2021/groupH_cubedsphere_decomposition/partitioner.py:447-450 | no contract of its own: the northern boundaries with the source's `>`; CubeProperties.NorthAsWrittenDiffers |
| Cube.CubedSpherePartitioner.SouthBoundaries | projects/2021/groupH_cubedsphere_decomposition/partitioner.py:456-475 | the bottom edge never fails, on any layout |
| Cube.CubedSpherePartitioner.AtVertex | projects/2021/groupH_cubedsphere_decomposition/partitioner.py:477-541 | no contract of its own: the vertex tests of the four corners; CubeSeams.VertexOfCell states where it holds |
| Cube.CubedSpherePartitioner.CornerOf | projects/2021/groupH_cubedsphere_decomposition/partitioner.py:477-541 | no contract of its own: the corrected corner; CubeSeams.CornerOnSquare and CubeSeams.InteriorCornerIsDiagonal |
| Cube.CubedSpherePartitioner.BoundaryOf | projects/2021/groupH_cubedsphere_decomposition/partitioner.py:357-388 | no contract of its own: the corrected boundary; CubeSeams.BoundaryOnSquare and CubeSeams.BoundaryOfEdgeOnSquare |
| Cube.CubedSpherePartitioner.BoundaryAsWritten | projects/2021/groupH_cubedsphere_decomposition/partitioner.py:372-388 | no contract of its own: `_cached_boundary` as written; CubeProperties.AsWrittenFindsNoBoundary and CubeProperties.AsWrittenFailsOnSquare |
| Cube.CubedSpherePartitioner.FanOutList | projects/2021/groupH_cubedsphere_decomposition/partitioner.py:396-401 | the loop builds one boundary per target, each target reduced modulo the total |
| Cube.CubedSpherePartitioner.LeftEdge | projects/2021/groupH_cubedsphere_decomposition/partitioner.py:390-410 | computes the corrected western boundaries, `>=` in the odd-tile fix-up at line 406; CubeProperties.WestAsWrittenAgrees shows the source's `>` gives the same for every rank of the cube |
| Cube.CubedSpherePartitioner.RightEdge | projects/2021/groupH_cubedsphere_decomposition/partitioner.py:412-432 | computes the corrected eastern boundaries, `>=` in the even-tile fix-up at line 428; CubeProperties.EastAsWrittenAgrees shows the source's `>` gives the same for every rank of the cube |
| Cube.CubedSpherePartitioner.TopEdge | projects/2021/groupH_cubedsphere_decomposition/partitioner.py:434-454 | computes the corrected northern boundaries (`>=` at line 450), or their IndexError; the source's `>` is NorthBoundariesAsWritten, which differs at one rank (CubeProperties.NorthAsWrittenDiffers) |
| Cube.CubedSpherePartitioner.BottomEdge | projects/2021/groupH_cubedsphere_decomposition/partitioner.py:456-475 | the method computes the southern boundaries |
| Cube.CubedSpherePartitioner.EdgeStep | projects/2021/groupH_cubedsphere_decomposition/partitioner.py:390-475 | the edge method for each edge direction |
| Cube.CubedSpherePartitioner.GetCorner | projects/2021/groupH_cubedsphere_decomposition/partitioner.py:543-558 | corrected corner of two edge steps: each step must give exactly one boundary, whose target the next step starts from, rotations added; otherwise the error or AttributeError. The source reads `.to_rank` of the list itself (Findings) |
| Cube.CubedSpherePartitioner.CornerStep | projects/2021/groupH_cubedsphere_decomposition/partitioner.py:477-541 | the four corner methods: no corner exactly at the tile vertex, else the corrected two-step corner with the first edge and the parity-chosen second edge of lines 477-541 |
| Cube.CubedSpherePartitioner.Boundary | projects/2021/groupH_cubedsphere_decomposition/partitioner.py:357-388 | the corrected `_cached_boundary`: dispatch by type, then every target of the edge list or the corner reduced modulo the total; the source's crash is BoundaryAsWritten (Findings) |
| Cube.CubedSpherePartitioner.GlobalExtent | projects/2021/groupH_cubedsphere_decomposition/partitioner.py:560-571 | six tiles, then one tile extent per zipped dimension |
| Cube.CubedSpherePartitioner.SubtileExtent | projects/2021/groupH_cubedsphere_decomposition/partitioner.py:573-582 | IndexError with no dimensions, NotImplementedError unless the first is the tile dimension |
| Cube.CubedSpherePartitioner.SubtileSlice | projects/2021/groupH_cubedsphere_decomposition/partitioner.py:584-621 | the loop builds exactly the rank's selectors |
| Cube.Reduce | projects/2021/groupH_cubedsphere_decomposition/partitioner.py:386-387 | a reduced boundary's target is a rank of the cube |
| Cube.ReduceAll | projects/2021/groupH_cubedsphere_decomposition/partitioner.py:386-387 | every boundary of the list is reduced, in order |
| CubeSeams.SeamNeighbourOnCube | projects/2021/groupH_cubedsphere_decomposition/partitioner.py:390-475 | every seam of the table lands on the cube, turned 0, 1 or 3 times |
| CubeSeams.SeamsAreReciprocal | projects/2021/groupH_cubedsphere_decomposition/partitioner.py:390-475 | walking each seam back returns to the cell, and the turns add to a multiple of four |
| CubeSeams.WestOnSquare | projects/2021/groupH_cubedsphere_decomposition/partitioner.py:390-410 | on an n-by-n layout the western boundaries are the single one the seam table names |
| CubeSeams.WestWithinTile | projects/2021/groupH_cubedsphere_decomposition/partitioner.py:408-409 | away from the left side a west step stays on the tile |
| CubeSeams.WestStraightSeam | projects/2021/groupH_cubedsphere_decomposition/partitioner.py:403-406 | an odd tile's left edge meets the previous tile's right edge |
| CubeSeams.WestTurnedSeam | projects/2021/groupH_cubedsphere_decomposition/partitioner.py:393-402 | an even tile's left edge faces the top row of the tile two back, reversed, one turn |
| CubeSeams.EastOnSquare | projects/2021/groupH_cubedsphere_decomposition/partitioner.py:412-432 | on an n-by-n layout the eastern boundaries are the single one the seam table names |
| CubeSeams.EastWithinTile | projects/2021/groupH_cubedsphere_decomposition/partitioner.py:430-431 | away from the right side an east step stays on the tile |
| CubeSeams.EastStraightSeam | projects/2021/groupH_cubedsphere_decomposition/partitioner.py:425-428 | an even tile's right edge meets the next tile's left edge |
| CubeSeams.EastTurnedSeam | projects/2021/groupH_cubedsphere_decomposition/partitioner.py:415-424 | an odd tile's right edge faces the bottom row of the tile two on, reversed, one turn |
| CubeSeams.NorthOnSquare | projects/2021/groupH_cubedsphere_decomposition/partitioner.py:434-454 | on an n-by-n layout the corrected northern boundaries are the single one the seam table names |
| CubeSeams.NorthWithinTile | projects/2021/groupH_cubedsphere_decomposition/partitioner.py:452-453 | away from the top side a north step stays on the tile |
| CubeSeams.NorthStraightSeam | projects/2021/groupH_cubedsphere_decomposition/partitioner.py:447-450 | an odd tile's top edge meets the bottom row of the next tile, tile 5 wrapping to tile 0 |
| CubeSeams.NorthFixUp | projects/2021/groupH_cubedsphere_decomposition/partitioner.py:448-450 | the corrected fix-up of an odd tile's top edge steps one tile on, tile 5 to tile 0 |
| CubeSeams.NorthTurnedSeam | projects/2021/groupH_cubedsphere_decomposition/partitioner.py:437-446 | an even tile's top edge faces the first column of the tile two on, reversed, three turns |
| CubeSeams.SouthOnSquare | projects/2021/groupH_cubedsphere_decomposition/partitioner.py:456-475 | on an n-by-n layout the southern boundaries are the single one the seam table names |
| CubeSeams.SouthWithinTile | projects/2021/groupH_cubedsphere_decomposition/partitioner.py:468-469 | away from the bottom side a south step stays on the tile |
| CubeSeams.SouthStraightSeam | projects/2021/groupH_cubedsphere_decomposition/partitioner.py:468-474 | an even tile's bottom edge meets the top row of the previous tile, tile 0 wrapping to tile 5 |
| CubeSeams.SouthFixUp | projects/2021/groupH_cubedsphere_decomposition/partitioner.py:470-474 | the fix-up of an even tile's bottom edge steps one tile back, tile 0 to tile 5 |
| CubeSeams.SouthTurnedSeam | projects/2021/groupH_cubedsphere_decomposition/partitioner.py:458-467 | an odd tile's bottom edge faces the last column of the tile four on, reversed, three turns |
| CubeSeams.EdgeOnSquare | projects/2021/groupH_cubedsphere_decomposition/partitioner.py:390-475 | every edge of every cell gives exactly the table's single boundary |
| CubeSeams.TableIsReciprocal | projects/2021/groupH_cubedsphere_decomposition/partitioner.py:390-475 | the table's boundary lands on the cube, and the back direction's boundary returns to the rank with the turns cancelling |
| CubeSeams.EdgesAreReciprocal | projects/2021/groupH_cubedsphere_decomposition/partitioner.py:390-475 | on an n-by-n layout each edge of each rank gives one boundary to a rank of the cube, and that rank's edge back leads to the rank, turns summing to a multiple of four |
| CubeSeams.VertexOfCell | projects/2021/groupH_cubedsphere_decomposition/partitioner.py:477-541 | a corner is missing exactly at the tile vertex it points to |
| CubeSeams.CornerOnSquare | projects/2021/groupH_cubedsphere_decomposition/partitioner.py:477-558 | away from its vertex a corner lands where the two table steps lead, with their turns added |
| CubeSeams.InteriorCornerIsDiagonal | projects/2021/groupH_cubedsphere_decomposition/partitioner.py:477-558 | inside the tile a corner is the diagonal neighbour, with no turns |
| CubeSeams.BoundaryOfEdgeOnSquare | projects/2021/groupH_cubedsphere_decomposition/partitioner.py:357-388 | the corrected `boundary` of an edge is the table's single boundary |
| CubeSeams.BoundaryOnSquare | projects/2021/groupH_cubedsphere_decomposition/partitioner.py:357-388 | on an n-by-n layout the corrected `boundary` never fails; edges give one boundary into the cube; a corner is absent exactly at its vertex, otherwise into the cube |
| CubeProperties.NorthFailsOnTallLayouts | projects/2021/groupH_cubedsphere_decomposition/partitioner.py:434-446 | the top edge fails, with IndexError, exactly on an even tile's top row of a layout with more rows than columns |
| CubeProperties.NorthAsWrittenDiffers | projects/2021/groupH_cubedsphere_decomposition/partitioner.py:447-450 | on an n-by-n layout the source's `>` changes only the top-left rank of tile 5, whose target stays at the total |
| CubeProperties.NorthAsWrittenElsewhere | projects/2021/groupH_cubedsphere_decomposition/partitioner.py:434-454 | off an odd tile's top row the source's and the corrected northern boundaries agree |
| CubeProperties.NorthAsWrittenOddTop | projects/2021/groupH_cubedsphere_decomposition/partitioner.py:447-450 | on an odd tile's top row the two part only at tile 5, column 0 |
| CubeProperties.NorthOddTopStep | projects/2021/groupH_cubedsphere_decomposition/partitioner.py:447-450 | both top-row fix-ups of an odd tile, side by side |
| CubeProperties.NorthFixUpAsWritten | projects/2021/groupH_cubedsphere_decomposition/partitioner.py:448-450 | the source's fix-up steps one tile on, except from tile 5, column 0, where it gives the total |
| CubeProperties.NorthOfRank22 | projects/2021/groupH_cubedsphere_decomposition/partitioner.py:447-450 | on layout (2, 2) the source's northern target of rank 22 is 24, which is not a rank |
| CubeProperties.ShiftUpDiffersOnlyAtTotal | projects/2021/groupH_cubedsphere_decomposition/partitioner.py:406 | the source's `>` and the corrected `>=` differ only for a target equal to the total |
| CubeProperties.WestAsWrittenAgrees | projects/2021/groupH_cubedsphere_decomposition/partitioner.py:403-406 | on every layout the source's `>` in the odd-tile left-edge fix-up gives the corrected western boundaries for every rank of the cube |
| CubeProperties.WestOddLeftStep | projects/2021/groupH_cubedsphere_decomposition/partitioner.py:403-406 | both fix-ups of an odd tile's left edge, side by side, from the tile step one column to the right end |
| CubeProperties.WestFixUpAsWritten | projects/2021/groupH_cubedsphere_decomposition/partitioner.py:403-406 | one tile back from an odd tile lands on the cube, where neither `>` nor `>=` acts |
| CubeProperties.EastAsWrittenAgrees | projects/2021/groupH_cubedsphere_decomposition/partitioner.py:425-428 | on every layout the source's `>` in the even-tile right-edge fix-up gives the corrected eastern boundaries for every rank of the cube |
| CubeProperties.EastEvenRightStep | projects/2021/groupH_cubedsphere_decomposition/partitioner.py:425-428 | both fix-ups of an even tile's right edge, side by side, from the tile step back to column 0 |
| CubeProperties.EastFixUpAsWritten | projects/2021/groupH_cubedsphere_decomposition/partitioner.py:425-428 | one tile on from an even tile lands on the cube, where neither `>` nor `>=` acts |
| CubeProperties.AsWrittenFindsNoBoundary | projects/2021/groupH_cubedsphere_decomposition/partitioner.py:372-388 | as written, `_cached_boundary` succeeds only for a corner at its vertex |
| CubeProperties.AsWrittenFailsOnSquare | projects/2021/groupH_cubedsphere_decomposition/partitioner.py:372-388 | on an n-by-n layout the source fails with AttributeError wherever the corrected version finds a boundary |
| CubeProperties.CubeExtentRoundTrip | projects/2021/groupH_cubedsphere_decomposition/partitioner.py:560-582 | rank extents grown to the cube's and cut back come back unchanged |
| CubeProperties.CubeExtentRoundTripFromCube | projects/2021/groupH_cubedsphere_decomposition/partitioner.py:560-582 | evenly divisible cube extents cut to a rank's and grown back come back unchanged |
| CubeProperties.SubtileSelectorsShape | projects/2021/groupH_cubedsphere_decomposition/partitioner.py:584-621 | fails exactly without a leading tile dimension; otherwise it selects the rank's tile, one of six, then one range per dimension |
| CubeProperties.NonHorizontalSelectorIsWhole | projects/2021/groupH_cubedsphere_decomposition/partitioner.py:584-621 | a non-horizontal dimension of a cube quantity is selected whole |

## Left out

- `functools.lru_cache` and `copy.copy` in `boundary`. The model recomputes each result, which gives the same values.
- `from_namelist` of both partitioners, and the deprecated `get_tile_number`. They only read configuration.
- The `isinstance` TypeError check in the cubed-sphere constructor. The type of the `tile` field makes it hold always.
- `_ensure_square_layout` is never called in the source. The square-layout restriction appears instead as a precondition of the proofs that need it.
- The boundary, constants, utils and quantity-metadata modules are not part of this model.
  - `SimpleBoundary` is a datatype. The boundary constants form `Direction`.
  - The z-dimension and interface lookups of `utils.list_by_dims` are abstracted: each `Dim` carries its axis and an interface flag.
  - `QuantityMetadata` is reduced to its dims and extent lists.
- numpy is replaced by closed forms.
  - `np.where` on a transformed `arange` grid becomes a position function that is proved to be the one match.
  - `np.cumsum` becomes `CumSum`, and `np.array(...) % total` becomes `FanOutBoundaries`.
- Floating-point layout factors (`1 / n` in the extent functions, and `layout[0] / layout[1] >= 1` in `lr_to_ranks`) are exact rationals. `int()` becomes truncation toward zero, and the ratio test is written `layout.0 >= layout.1`. Float rounding is not modelled.
- `Tile.TilePartitioner.FliplrRank` and `Tile.TilePartitioner.RotateRank` only delegate to the transform functions and carry no contract of their own.
- `Tile.TilePartitioner.TopEdge` and `BottomEdge` step by `layout[1]` between rows, as the source does. The torus properties are proved for square layouts only, where this equals the row width.
- The tile partitioner's boundary and corner functions carry no contracts. Their properties are the Tile lemmas above.
- `Transforms.TransposeIsInvolutionOnSquare`, `RotateOnSquare` and the other rotate lemmas are stated for square layouts only. On other layouts the rotated or transposed grid has a different shape, and no property is proved there.
- `CubeSeams` lemmas are stated for n-by-n layouts only. Non-square layouts are covered by the general FanOut lemmas and `CubeProperties.NorthFailsOnTallLayouts`; no seam table is proved for them.
- `FanOut.LrTargetsTall` records the source as written: on a tall layout, row 0 of an lr fan-out gets no target although its count is 1. This is left as the source has it, not corrected.
- `FanOut.UlBoundarySeq` reads its count at the rank's row but `ul_to_ranks` slices at the rank's column. This is modelled as written, including the IndexError on tall layouts.
- Cube.CubedSpherePartitioner.TopEdge: models line 450 corrected to `>=`; the source's `>` is kept in NorthBoundariesAsWritten (Findings).
- Cube.CubedSpherePartitioner.LeftEdge and RightEdge: use `>=` at lines 406 and 428 as well; the source's `>` is kept in WestBoundariesAsWritten and EastBoundariesAsWritten and proved to give the same result for every rank.
- Cube.CubedSpherePartitioner.GetCorner and CornerStep: step through the single boundary of each edge list, where the source reads `.to_rank` of the list at lines 550-551 and fails (Findings).
- Cube.CubedSpherePartitioner.Boundary: reduces each boundary of an edge list, where the source sets `.to_rank` on the list at lines 386-387 and fails; the source's behaviour is BoundaryAsWritten (Findings).
- The four corner methods of the cubed-sphere partitioner are one method, Cube.CubedSpherePartitioner.CornerStep, with the per-corner vertex test and second-edge rule as functions of the direction.
- Corners in the corrected model compose through edges that return a single boundary. When a step fans out to several ranks, the corner fails with AttributeError, since there is no single rank to step from.

## Findings

| source | as written | input that shows it | evidently intended | confidence | as-written member | corrected member |
|---|---|---|---|---|---|---|
| projects/2021/groupH_cubedsphere_decomposition/partitioner.py:450 | after stepping onto the next tile, the target is reduced only when it is `> total_ranks`. The same test at lines 406 and 428 cannot reach the total for a rank of the cube (CubeProperties.WestAsWrittenAgrees, CubeProperties.EastAsWrittenAgrees), so only line 450 matters | layout (2, 2), rank 22, NORTH: the target stays at 24, which is not a rank | reduce when the target is `>= total_ranks`, giving rank 0 of tile 0 | not executed | CubeProperties.NorthAsWrittenDiffers, CubeProperties.NorthOfRank22 | CubeSeams.NorthOnSquare |
| projects/2021/groupH_cubedsphere_decomposition/partitioner.py:386-387 | `_cached_boundary` sets `boundary.to_rank` on the list the edge functions return, and `_get_corner` (lines 550-551) reads `.to_rank` of that list | layout (2, 2), rank 0, WEST: AttributeError instead of a boundary | reduce each boundary of the list, and step a corner through the single boundary of each edge | not executed | CubeProperties.AsWrittenFailsOnSquare | CubeSeams.BoundaryOnSquare |
