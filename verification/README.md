# Block grading of the terrain block mesher, in Dafny

This project models the core of the terrain block mesher of iwesolFoamTools.
It also proves properties of that model.

The centre of the model is the block grading of the terrain module,
`TerrainManagerModuleBlockGrading::getDeltaLists`. Each of the two base axes
has a length (`dimensions[dir]`), a block count (`blockNrs[dir]`) and a
per-block cell count (`cellNrs[dir]`). It may also have an ordered list of
grading regions, each declared as (width, blocks, type). The function
computes two lists for each axis:

- `blockGrading`: a leading 0, then the width of every block;
- `cellGrading`: the cell-size ratio of every block, then a trailing 0.

It gets there in five steps, and each step has its own module:

| module | step |
|---|---|
| `GradingRegions` | Normalises the declarations into a partition of the axis length and of its blocks. The last region takes whatever remains. |
| `GradingLinear` | Lays out block end positions at uniform spacing inside every region. |
| `GradingInterpolation` | Re-blends the interior end positions of every region of type `"interpolating"` with more than one block. The new positions are the mean of a left sweep and a right sweep. |
| `GradingOutput` | Turns positions into weights (width over axis length) and weights into block widths that add up to the axis length. It then computes each block's cell grading as the mean of a left-to-right and a right-to-left width ratio. An axis without regions gets equal widths and cell grading 1. |

Around the grading the model covers several small pieces of the library:

- `Globals`: `chop`, the 3x3 matrix-vector `dot`, `getLinearList`, and the dotted hash keys `key(i, j[, k[, l]])`.
- `Patches`: the `Patch` record with its cyclic flag and face index.
- `Splines`: the `Spline` accessors.
- `ClassModules`: the `ClassModule` construct/load/ready lifecycle.
- `BlockManagers`: the inline parts of `BlockManager`, meaning the patch registry, the count accessors, `walkBoxMaximum`, and the default `check` and `calcTopology`.

All floating-point numbers are modelled as exact `real`, so the rescaling
and partition identities hold exactly. The grading operations carry two
kinds of precondition:

- every region, the remainder region included, holds at least one block
  (`ValidSpecs`); "## Left out" says what the source does otherwise;
- the axis length and the cell count are not 0, and with regions no block
  has width 0; otherwise the source divides by zero.

Most grading operations are recursive functions over sequences. Their
properties are lemmas that relate each operation to a partner:

- a reference definition, such as the width-ratio definitions `LeftRatio` and `RightRatio` against the accumulator loops;
- an invariant, such as the partition of the axis or the sum of the widths;
- an inverse, such as `Unkey` for the key builders.

The source's loop counter `currentBlock` is replaced, in the interpolation
pass and the cell-ratio loops, by the block numbers it provably equals: the
region's `firstBlock`, and the block index itself.

The code computes the cell-size ratios whenever an axis has regions, even
when no region interpolates. Two such regions with different block widths
therefore do not give cell grading 1 at their boundary.
`TwoUniformRegionsBoundary` proves that the boundary block's grading is the
mean of 1 and the ratio of the two block widths, and that it is 1 exactly
when the widths agree. `TwoUniformRegionsExample` gives a concrete case. On a
150 long axis of 50 blocks whose first region is 100 long with 40 blocks,
blocks 2.5 wide meet blocks 5 wide, and block 39 gets cell grading 1.5.

## Model

| member | source | states |
|---|---|---|
| GradingRegions.NormaliseFrom | iwesol/iwesolFoamTools/applications/mesher/terrainBlockMesher/modules/blockGrading/TerrainManagerModuleBlockGrading.C:101-120 | Region `rI` starts at the running width and block totals. Every region ends at its start plus its width and its last block is `firstBlock + blocks - 1`. Each region starts where the previous ended, with the next block. Every region keeps its declared type, and all but the last keep their declared width and block count. The last region ends at the axis length and at block `blockNr - 1`. |
| GradingRegions.Normalise | iwesol/iwesolFoamTools/applications/mesher/terrainBlockMesher/modules/blockGrading/TerrainManagerModuleBlockGrading.C:97-120 | The normalised regions, one per declaration, are chained: they tile `[0, dimension]` and the blocks `0 .. blockNr - 1` in order, keeping types and, except for the last, widths and block counts. |
| GradingRegions.NormaliseRunningTotals | iwesol/iwesolFoamTools/applications/mesher/terrainBlockMesher/modules/blockGrading/TerrainManagerModuleBlockGrading.C:98-118 | Region `k` starts at the sum of the declared widths before it, and its first block is the sum of the declared block counts before it. The last region gets the axis length less the declared widths, and the block count less the declared blocks. |
| GradingRegions.RunningTotalsUpTo | iwesol/iwesolFoamTools/applications/mesher/terrainBlockMesher/modules/blockGrading/TerrainManagerModuleBlockGrading.C:103-109 | The start and first block of one region `k` are the running totals of the declarations before it (the induction step of the previous row). |
| GradingRegions.ChainedTotals | iwesol/iwesolFoamTools/applications/mesher/terrainBlockMesher/modules/blockGrading/TerrainManagerModuleBlockGrading.C:101-120 | The widths of chained regions add up to the axis length, and their block counts to the axis block count. |
| GradingRegions.ValidSpecsIffPositive | iwesol/iwesolFoamTools/applications/mesher/terrainBlockMesher/modules/blockGrading/TerrainManagerModuleBlockGrading.C:105-117 | The declarations give every region at least one block, the remainder region included, exactly when every declared region has blocks and they leave some over. |
| GradingRegions.ChainedBlockBounds | iwesol/iwesolFoamTools/applications/mesher/terrainBlockMesher/modules/blockGrading/TerrainManagerModuleBlockGrading.C:117-118 | In chained regions that each hold a block, every region's blocks lie in `0 .. blockNr - 1`, and all blocks of a region come before those of every later region. |
| GradingRegions.ValidSpecsPartition | iwesol/iwesolFoamTools/applications/mesher/terrainBlockMesher/modules/blockGrading/TerrainManagerModuleBlockGrading.C:101-120 | Valid declarations normalise to a partition of the axis and of its blocks. |
| GradingLinear.LinearFrom | iwesol/iwesolFoamTools/applications/mesher/terrainBlockMesher/modules/blockGrading/TerrainManagerModuleBlockGrading.C:123-137 | The linear loop, region by region: it appends `blocks` positions `width / blocks` apart after the last position written, or after 0 for the first region. `LinearFromSpec` proves where each one lands. |
| GradingLinear.RegionOf | iwesol/iwesolFoamTools/applications/mesher/terrainBlockMesher/modules/blockGrading/TerrainManagerModuleBlockGrading.C:125-136 | Every block of the axis lies in some region, at or after the region the search starts from. |
| GradingLinear.LinearFromSpec | iwesol/iwesolFoamTools/applications/mesher/terrainBlockMesher/modules/blockGrading/TerrainManagerModuleBlockGrading.C:123-137 | The linear loop, resumed at region `k` after the earlier regions' positions, lays out exactly `blockNr` positions. Each block of each region ends at its uniform position, because `p0` is always the region's start. |
| GradingLinear.LinearPositions | iwesol/iwesolFoamTools/applications/mesher/terrainBlockMesher/modules/blockGrading/TerrainManagerModuleBlockGrading.C:123-137 | After the linear pass there is one position per block. Block `p` of region `j` ends at `start + (p - firstBlock + 1) * width / blocks`. |
| GradingLinear.LinearPassEnds | iwesol/iwesolFoamTools/applications/mesher/terrainBlockMesher/modules/blockGrading/TerrainManagerModuleBlockGrading.C:123-137 | After the linear pass each region's last position is its end, and the final position is the axis length. |
| GradingLinear.LinearBlockWidths | iwesol/iwesolFoamTools/applications/mesher/terrainBlockMesher/modules/blockGrading/TerrainManagerModuleBlockGrading.C:131-136 | After the linear pass every block of a region, its first included, is exactly the region's `width / blocks` wide. |
| GradingLinear.LinearPositionsIncrease | iwesol/iwesolFoamTools/applications/mesher/terrainBlockMesher/modules/blockGrading/TerrainManagerModuleBlockGrading.C:131-136 | With positive region widths the linear positions start above 0 and increase strictly. |
| GradingInterpolation.InterpolateRegion | iwesol/iwesolFoamTools/applications/mesher/terrainBlockMesher/modules/blockGrading/TerrainManagerModuleBlockGrading.C:147-197 | Interpolating one region changes no position outside `firstBlock .. lastBlock - 1`: the region's end and everything outside it stay. Nothing changes unless the type is "interpolating" and the region has more than one block. |
| GradingInterpolation.LeftSweep | iwesol/iwesolFoamTools/applications/mesher/terrainBlockMesher/modules/blockGrading/TerrainManagerModuleBlockGrading.C:169-178 | The left sweep: one blended position per inner block, each a `j / jmax` mix of the linear position and the previous sweep value plus the left goal spacing. |
| GradingInterpolation.RightSweep | iwesol/iwesolFoamTools/applications/mesher/terrainBlockMesher/modules/blockGrading/TerrainManagerModuleBlockGrading.C:181-189 | The right sweep: one blended position per inner block, counted back from the region end, each mixing the linear position with the next sweep value less the right goal spacing. |
| GradingInterpolation.InteriorPositions | iwesol/iwesolFoamTools/applications/mesher/terrainBlockMesher/modules/blockGrading/TerrainManagerModuleBlockGrading.C:150-197 | The new interior positions of an interpolating region: `blocks - 1` values, the mean of the left sweep and the right sweep. |
| GradingInterpolation.InterpolateFrom | iwesol/iwesolFoamTools/applications/mesher/terrainBlockMesher/modules/blockGrading/TerrainManagerModuleBlockGrading.C:141-202 | The interpolation loop from region `k` on keeps every position that is not interior to an interpolating region from `k` on. |
| GradingInterpolation.InterpolationPass | iwesol/iwesolFoamTools/applications/mesher/terrainBlockMesher/modules/blockGrading/TerrainManagerModuleBlockGrading.C:139-202 | The whole pass keeps one position per block and every position not interior to an interpolating region. |
| GradingInterpolation.InterpolationKeepsEnds | iwesol/iwesolFoamTools/applications/mesher/terrainBlockMesher/modules/blockGrading/TerrainManagerModuleBlockGrading.C:147-197 | The pass keeps every region's end position, the axis end included, and leaves every block of a region that does not interpolate untouched. |
| GradingInterpolation.NoInterpolationKeepsPositions | iwesol/iwesolFoamTools/applications/mesher/terrainBlockMesher/modules/blockGrading/TerrainManagerModuleBlockGrading.C:147-147 | When no region interpolates, the pass returns the positions unchanged. |
| GradingInterpolation.LeftSweepUniform | iwesol/iwesolFoamTools/applications/mesher/terrainBlockMesher/modules/blockGrading/TerrainManagerModuleBlockGrading.C:168-178 | When the goal spacing equals the region's spacing and the sweep starts one spacing before the first position, the left sweep reproduces the uniform positions. |
| GradingInterpolation.RightSweepUniform | iwesol/iwesolFoamTools/applications/mesher/terrainBlockMesher/modules/blockGrading/TerrainManagerModuleBlockGrading.C:180-189 | Under the same conditions, counted back from the position one spacing after the last inner one, the right sweep reproduces the uniform positions. |
| GradingInterpolation.UniformInterior | iwesol/iwesolFoamTools/applications/mesher/terrainBlockMesher/modules/blockGrading/TerrainManagerModuleBlockGrading.C:150-197 | Suppose a region's positions are uniform and both goal spacings equal its own spacing. Then the averaged sweeps equal the region's interior positions. |
| GradingInterpolation.InterpolateRegionFixedPoint | iwesol/iwesolFoamTools/applications/mesher/terrainBlockMesher/modules/blockGrading/TerrainManagerModuleBlockGrading.C:147-197 | Interpolating such a region leaves the whole position list unchanged. |
| GradingInterpolation.SingleInterpolatingRegionUnchanged | iwesol/iwesolFoamTools/applications/mesher/terrainBlockMesher/modules/blockGrading/TerrainManagerModuleBlockGrading.C:154-197 | A single interpolating region spanning the axis is a fixed point of the pass. Block `p` ends at `(p + 1) * dimension / blockNr` before and after the pass. |
| GradingOutput.InitialWeights | iwesol/iwesolFoamTools/applications/mesher/terrainBlockMesher/modules/blockGrading/TerrainManagerModuleBlockGrading.C:84-86 | Before any region is read there is one weight per block, and the weights add up to the block count. |
| GradingOutput.Weights | iwesol/iwesolFoamTools/applications/mesher/terrainBlockMesher/modules/blockGrading/TerrainManagerModuleBlockGrading.C:204-209 | One weight per position: the block gap over the axis length. Multiplied by the axis length, each weight gives back its block gap. |
| GradingOutput.WeightsTelescope | iwesol/iwesolFoamTools/applications/mesher/terrainBlockMesher/modules/blockGrading/TerrainManagerModuleBlockGrading.C:204-209 | The weights `(p1 - p0) / dimension` telescope: they add up to the last position over the axis length. |
| GradingOutput.BlockGrading | iwesol/iwesolFoamTools/applications/mesher/terrainBlockMesher/modules/blockGrading/TerrainManagerModuleBlockGrading.C:219-227 | The block grading holds one entry per weight after a leading 0. |
| GradingOutput.SumBlockWidths | iwesol/iwesolFoamTools/applications/mesher/terrainBlockMesher/modules/blockGrading/TerrainManagerModuleBlockGrading.C:219-227 | The widths `dimension * w / total` are additive: their sum is the width of the summed weight. |
| GradingOutput.BlockGradingSum | iwesol/iwesolFoamTools/applications/mesher/terrainBlockMesher/modules/blockGrading/TerrainManagerModuleBlockGrading.C:215-227 | The block widths add up exactly to the axis length. |
| GradingOutput.LeftRatiosFromSpec | iwesol/iwesolFoamTools/applications/mesher/terrainBlockMesher/modules/blockGrading/TerrainManagerModuleBlockGrading.C:270-283 | Resumed at any block, the left loop gives each block the ratio of its width to its left neighbour's width, because the cell count cancels. |
| GradingOutput.LeftRatiosSpec | iwesol/iwesolFoamTools/applications/mesher/terrainBlockMesher/modules/blockGrading/TerrainManagerModuleBlockGrading.C:263-284 | The left ratio of block 0 is 1 and that of block `b > 0` is `width[b] / width[b - 1]`, whatever the cell count. |
| GradingOutput.RightRatiosFromSpec | iwesol/iwesolFoamTools/applications/mesher/terrainBlockMesher/modules/blockGrading/TerrainManagerModuleBlockGrading.C:323-336 | Resumed at any block and run downwards, the right loop gives each block the ratio of its right neighbour's width to its own. |
| GradingOutput.RightRatiosSpec | iwesol/iwesolFoamTools/applications/mesher/terrainBlockMesher/modules/blockGrading/TerrainManagerModuleBlockGrading.C:316-337 | The right ratio of the last block is 1 and that of any other block `b` is `width[b + 1] / width[b]`, whatever the cell count. |
| GradingOutput.LeftRatiosFrom | iwesol/iwesolFoamTools/applications/mesher/terrainBlockMesher/modules/blockGrading/TerrainManagerModuleBlockGrading.C:263-284 | The left loop: one ratio per remaining block, the cell width of this block over that of the block before it. `LeftRatiosFromSpec` ties it to `LeftRatio`. |
| GradingOutput.RightRatiosFrom | iwesol/iwesolFoamTools/applications/mesher/terrainBlockMesher/modules/blockGrading/TerrainManagerModuleBlockGrading.C:316-337 | The right loop, run downwards: one ratio per remaining block, the next block's cell width over this block's. `RightRatiosFromSpec` ties it to `RightRatio`. |
| GradingOutput.CellGrading | iwesol/iwesolFoamTools/applications/mesher/terrainBlockMesher/modules/blockGrading/TerrainManagerModuleBlockGrading.C:341-345 | One cell grading per block and a trailing 0: the mean of the two ratio lists with regions, 1 without. |
| GradingOutput.CellGradingRatios | iwesol/iwesolFoamTools/applications/mesher/terrainBlockMesher/modules/blockGrading/TerrainManagerModuleBlockGrading.C:341-345 | With regions, each block's cell grading is the mean of its left and right width ratios. Without regions it is 1. |
| GradingOutput.EqualWidthsUngraded | iwesol/iwesolFoamTools/applications/mesher/terrainBlockMesher/modules/blockGrading/TerrainManagerModuleBlockGrading.C:341-345 | Blocks of equal width get cell grading 1 in both modes. |
| GradingOutput.PositionWidths | iwesol/iwesolFoamTools/applications/mesher/terrainBlockMesher/modules/blockGrading/TerrainManagerModuleBlockGrading.C:204-227 | For positions that end at the axis length, the weights add up to 1. Block `b`'s width is then exactly the gap between positions `b - 1` and `b`, and the widths add up to the axis length. |
| GradingOutput.PositionGrading | iwesol/iwesolFoamTools/applications/mesher/terrainBlockMesher/modules/blockGrading/TerrainManagerModuleBlockGrading.C:204-227 | Grading an axis with regions from its positions gives one width and one cell grading per block, a leading 0 width, a trailing 0 cell grading, and widths adding up to the axis length. |
| GradingOutput.PositionGradingSpec | iwesol/iwesolFoamTools/applications/mesher/terrainBlockMesher/modules/blockGrading/TerrainManagerModuleBlockGrading.C:204-345 | Graded from its positions, each block of an axis is as wide as the gap between its end positions. Its cell grading is the mean of its width ratios to its neighbours. |
| GradingOutput.GradedPositions | iwesol/iwesolFoamTools/applications/mesher/terrainBlockMesher/modules/blockGrading/TerrainManagerModuleBlockGrading.C:97-202 | The three passes in order: normalise, lay out linearly, interpolate. There is one position per block, and the last is the axis length. |
| GradingOutput.UniformGrading | iwesol/iwesolFoamTools/applications/mesher/terrainBlockMesher/modules/blockGrading/TerrainManagerModuleBlockGrading.C:78-227 | An axis without regions gets one width and one cell grading per block, a leading 0 width, a trailing 0 cell grading, and widths adding up to the axis length. |
| GradingOutput.GradeAxis | iwesol/iwesolFoamTools/applications/mesher/terrainBlockMesher/modules/blockGrading/TerrainManagerModuleBlockGrading.C:89-227 | One axis, with or without regions: `blockNr + 1` entries in both lists, `blockGrading[0] == 0`, `cellGrading[blockNr] == 0`, and widths adding up to the axis length. |
| GradingOutput.UngradedAxis | iwesol/iwesolFoamTools/applications/mesher/terrainBlockMesher/modules/blockGrading/TerrainManagerModuleBlockGrading.C:215-227 | Without regions every block is `dimension / blockNr` wide and has cell grading 1. |
| GradingOutput.GradedAxis | iwesol/iwesolFoamTools/applications/mesher/terrainBlockMesher/modules/blockGrading/TerrainManagerModuleBlockGrading.C:204-345 | With regions, block `b` is as wide as the gap between graded positions `b - 1` and `b`. Its cell grading is the mean of its width ratios to its neighbours. |
| GradingOutput.GetDeltaLists | iwesol/iwesolFoamTools/applications/mesher/terrainBlockMesher/modules/blockGrading/TerrainManagerModuleBlockGrading.C:75-351 | Both output lists hold three directions. The third stays empty. The two base directions each get `blockNrs[dir] + 1` widths and cell gradings, a leading 0 width, a trailing 0 cell grading, and widths adding up to the axis length. |
| GradingOutput.TwoUniformRegionsWidths | iwesol/iwesolFoamTools/applications/mesher/terrainBlockMesher/modules/blockGrading/TerrainManagerModuleBlockGrading.C:123-137 | Take two regions that do not interpolate. Every block of the first is `first.width / first.blocks` wide, and every block of the second is `(dimension - first.width) / (blockNr - first.blocks)` wide. |
| GradingOutput.SteppedBoundary | iwesol/iwesolFoamTools/applications/mesher/terrainBlockMesher/modules/blockGrading/TerrainManagerModuleBlockGrading.C:264-345 | Take positions whose blocks are `s1` wide up to a boundary and `s2` wide after it. The last block before the boundary gets cell grading `(1 + s2 / s1) / 2`. |
| GradingOutput.TwoUniformRegionsBoundary | iwesol/iwesolFoamTools/applications/mesher/terrainBlockMesher/modules/blockGrading/TerrainManagerModuleBlockGrading.C:341-345 | With two such regions, the last block of the first region gets cell grading `(1 + s2 / s1) / 2`, from the two regions' block widths `s1` and `s2`. It is 1 exactly when `s1 == s2`. |
| GradingOutput.TwoUniformRegionsExample | iwesol/iwesolFoamTools/applications/mesher/terrainBlockMesher/modules/blockGrading/TerrainManagerModuleBlockGrading.C:341-345 | Take a 150 long axis of 50 blocks whose first region is 100 long with 40 blocks. Block 39 gets cell grading 1.5. |
| Globals.Chop | iwesol/iwesolFoamTools/src/basics/globals/Globals.H:151-153 | The result is 0 or the input, it is 0 exactly when the magnitude is below the tolerance or the input is 0, and it is never larger in magnitude. |
| Globals.ChopIdempotent | iwesol/iwesolFoamTools/src/basics/globals/Globals.H:151-153 | Chopping twice is chopping once, for any tolerance. |
| Globals.ChopGap | iwesol/iwesolFoamTools/src/basics/globals/Globals.H:151-153 | A chopped number is 0 or at least the tolerance in magnitude. |
| Globals.ChopInPlace | iwesol/iwesolFoamTools/src/basics/globals/Globals.H:155-160 | The in-place vector chop chops every component with the scalar chop. |
| Globals.ChopCopy | iwesol/iwesolFoamTools/src/basics/globals/Globals.H:162-165 | The copying vector chop gives the same components as the in-place one. |
| Globals.MatVecDot | iwesol/iwesolFoamTools/src/basics/globals/Globals.H:167-182 | Component `row` of `dot(M, U)` is `M[row][0] * U[0] + M[row][1] * U[1] + M[row][2] * U[2]`. |
| Globals.InnerPointOnLine | iwesol/iwesolFoamTools/src/basics/globals/Globals.H:243-248 | The inner point `((jmax - j) * A + j * B) / jmax` is the point `j` steps of `(B - A) / jmax` from `A`. |
| Globals.LinearList | iwesol/iwesolFoamTools/src/basics/globals/Globals.H:223-256 | The list has `innerPoints + (withStart ? 1 : 0) + (withEnd ? 1 : 0)` elements. It starts with `A` when `withStart` and ends with `B` when `withEnd`. Inner point `j` lies `j` steps of `(B - A) / (innerPoints + 1)` from `A`. |
| Globals.LinearListEquallySpaced | iwesol/iwesolFoamTools/src/basics/globals/Globals.H:223-256 | With both ends the list runs from `A` to `B` in equal steps of `(B - A) / (innerPoints + 1)`, and is constant when `A == B`. |
| Globals.LabelToString | iwesol/iwesolFoamTools/src/basics/globals/Globals.H:199-199 | A label's rendering, taken to be plain decimal with a leading '-' for negatives, is non-empty and holds no '.'. |
| Globals.ParseLabelToString | iwesol/iwesolFoamTools/src/basics/globals/Globals.H:199-199 | Reading a label's decimal rendering back gives the label. |
| Globals.UnkeyKey2 | iwesol/iwesolFoamTools/src/basics/globals/Globals.H:198-200 | Splitting `key(i, j)` at the dots and reading the fields back gives `[i, j]`. |
| Globals.UnkeyKey3 | iwesol/iwesolFoamTools/src/basics/globals/Globals.H:202-204 | Splitting `key(i, j, k)` at the dots and reading the fields back gives `[i, j, k]`. |
| Globals.UnkeyKey4 | iwesol/iwesolFoamTools/src/basics/globals/Globals.H:206-208 | Splitting `key(i, j, k, l)` at the dots and reading the fields back gives `[i, j, k, l]`. |
| Globals.Key2Injective | iwesol/iwesolFoamTools/src/basics/globals/Globals.H:198-200 | Two-label keys are equal exactly when the labels are. |
| Globals.Key3Injective | iwesol/iwesolFoamTools/src/basics/globals/Globals.H:202-204 | Three-label keys are equal exactly when the labels are. |
| Globals.Key4Injective | iwesol/iwesolFoamTools/src/basics/globals/Globals.H:206-208 | Four-label keys are equal exactly when the labels are. |
| BlockManagers.NewManager | iwesol/iwesolFoamTools/src/blockMeshing/blockManager/BlockManager.H:98-103 | The constructor keeps the given resolution and counts and starts with an empty patch registry. |
| BlockManagers.NewManagerDefaults | iwesol/iwesolFoamTools/src/blockMeshing/blockManager/BlockManager.H:98-103 | Without arguments the resolution is 0.001, and every direction has 5 blocks and 5 cells. |
| BlockManagers.GetCellNr | iwesol/iwesolFoamTools/src/blockMeshing/blockManager/BlockManager.H:140-140 | `getCellNr(i)`: the cell count of direction `i`. |
| BlockManagers.GetBlockNr | iwesol/iwesolFoamTools/src/blockMeshing/blockManager/BlockManager.H:143-143 | `getBlockNr(i)`: the block count of direction `i`. |
| BlockManagers.GetSplinePointNr | iwesol/iwesolFoamTools/src/blockMeshing/blockManager/BlockManager.H:146-146 | `getSplinePointNr(i)`: the spline point count of direction `i`. |
| BlockManagers.TopologyReady | iwesol/iwesolFoamTools/src/blockMeshing/blockManager/BlockManager.H:173-173 | `topologyReady()`: the flag that the topology has been calculated. |
| BlockManagers.GetPatch | iwesol/iwesolFoamTools/src/blockMeshing/blockManager/BlockManager.H:149-149 | A name finds a patch exactly when it is registered, and the patch found is one of the stored patches. |
| BlockManagers.AddPatch | iwesol/iwesolFoamTools/src/blockMeshing/blockManager/BlockManager.H:349-352 | Slot `i` gets a fresh patch of the given name and type, and the name is registered to slot `i`. No other slot, no other name's registration and no other field changes. |
| BlockManagers.GetPatchAfterAddPatch | iwesol/iwesolFoamTools/src/blockMeshing/blockManager/BlockManager.H:349-352 | After `addPatch(i, name, type)`, `getPatch(name)` is a patch of that name and type. Another name keeps its patch unless it was registered to slot `i`, and an unregistered name still finds nothing. |
| BlockManagers.WalkBoxMaximum | iwesol/iwesolFoamTools/src/blockMeshing/blockManager/BlockManager.H:354-356 | `2 * (blockNrs[X] + blockNrs[Y])` is the number of steps of one walk around the border of the base box. |
| BlockManagers.Check | iwesol/iwesolFoamTools/src/blockMeshing/blockManager/BlockManager.H:122-122 | The default check is the constant true: it accepts every manager at every tolerance. |
| BlockManagers.CalcTopology | iwesol/iwesolFoamTools/src/blockMeshing/blockManager/BlockManager.H:345-345 | The default topology calculation runs the neighbour search and reports success. |
| Patches.NewPatch | iwesol/iwesolFoamTools/src/blockMeshing/fundamentals/Patch.H:74-74 | A new patch has the given name and type (by default "PATCH" and "patch"), no faces and no face keys. |
| Patches.IsCyclic | iwesol/iwesolFoamTools/src/blockMeshing/fundamentals/Patch.H:89-89 | A patch is cyclic exactly when its type is "cyclic". |
| Patches.Size | iwesol/iwesolFoamTools/src/blockMeshing/fundamentals/Patch.H:95-95 | The number of stored faces. In a valid patch every face key points at a slot below it. |
| Patches.Found | iwesol/iwesolFoamTools/src/blockMeshing/fundamentals/Patch.H:110-110 | A key is found exactly when the face index holds it. `getFace` returns a face for exactly these keys. |
| Patches.SetCyclic | iwesol/iwesolFoamTools/src/blockMeshing/fundamentals/Patch.H:92-92 | After `setCyclic(partner)` the patch is cyclic with that partner. Its name and faces are unchanged. |
| Patches.GetFace | iwesol/iwesolFoamTools/src/blockMeshing/fundamentals/Patch.H:107-110 | A key finds a face exactly when `found(key)`, and the face found is a stored face. |
| Patches.DefaultPatchNotCyclic | iwesol/iwesolFoamTools/src/blockMeshing/fundamentals/Patch.H:74-89 | A default patch is not cyclic, and a new patch is cyclic exactly when its type is "cyclic". |
| Patches.SetCyclicTwice | iwesol/iwesolFoamTools/src/blockMeshing/fundamentals/Patch.H:92-110 | The last `setCyclic` wins. Neither the face count nor the face keys change. |
| Splines.MakeSpline | iwesol/iwesolFoamTools/src/blockMeshing/fundamentals/Spline.H:72-77 | A constructed spline keeps its vertex labels and holds the points in between plus the two vertex points. |
| Splines.Size | iwesol/iwesolFoamTools/src/blockMeshing/fundamentals/Spline.H:108-111 | The number of points in the chain, vertices included. `getLastPoint` reads point `size() - 1`. |
| Splines.GetVertexA | iwesol/iwesolFoamTools/src/blockMeshing/fundamentals/Spline.H:90-90 | `getVertexA()`: the label of the first vertex. |
| Splines.GetVertexB | iwesol/iwesolFoamTools/src/blockMeshing/fundamentals/Spline.H:93-93 | `getVertexB()`: the label of the second vertex. |
| Splines.GetPoint | iwesol/iwesolFoamTools/src/blockMeshing/fundamentals/Spline.H:96-99 | `getPoint(i)` is a point of the chain, for `i < size()`. |
| Splines.GetFirstPoint | iwesol/iwesolFoamTools/src/blockMeshing/fundamentals/Spline.H:101-105 | The first point is point 0 and needs a non-empty spline. |
| Splines.GetLastPoint | iwesol/iwesolFoamTools/src/blockMeshing/fundamentals/Spline.H:107-111 | The last point is point `size() - 1` and needs a non-empty spline. |
| Splines.SplineEndpointsAreVertices | iwesol/iwesolFoamTools/src/blockMeshing/fundamentals/Spline.H:72-111 | A constructed spline's first and last points are its vertices' points, its vertex labels are the ones given, and its point `k + 1` is the `k`-th point in between. |
| ClassModules.Construct | iwesol/iwesolFoamTools/src/basics/globals/ClassModule.H:100-106 | A freshly constructed module keeps its host and is not ready. |
| ClassModules.Load | iwesol/iwesolFoamTools/src/basics/globals/ClassModule.H:75-77 | Loading reports true exactly when the module has a host. What it reports is the new state's readiness, and the host is kept. |
| ClassModules.Ready | iwesol/iwesolFoamTools/src/basics/globals/ClassModule.H:80-80 | A module is ready exactly when it has a host and has been loaded. |
| ClassModules.ModuleBase | iwesol/iwesolFoamTools/src/basics/globals/ClassModule.H:86-86 | The host object. It exists only when there is a host, since the source dereferences the host pointer. |
| ClassModules.LoadIdempotent | iwesol/iwesolFoamTools/src/basics/globals/ClassModule.H:75-80 | Loading twice is loading once. |
| ClassModules.ConstructLoadReady | iwesol/iwesolFoamTools/src/basics/globals/ClassModule.H:75-106 | A new module is not ready. Loading it makes it ready exactly when it was given a host, and `moduleBase()` is then the host given at construction. |

## Left out

- Reading the grading regions from the dictionary (`load`, `readScalar`, `lookup`, `getDictTasks`) is left out. The regions are an input sequence of (width, blocks, type) records, and the two axes' region lists are a parameter of `GetDeltaLists`.
- The direction labels `TerrainBlock::BASE1`/`BASE2` and `BasicBlock::X`/`Y` are taken as 0 and 1. Their definitions are not part of this model.
- IEEE floating point is left out: every `scalar` is an exact `real`. A zero axis length, a zero cell count or an empty block makes the source divide by zero and compute with infinities or NaN; the preconditions exclude these inputs.
- GradingOutput.GetDeltaLists: requires `Gradable` for both axes. That means a non-zero length and cell count, region declarations that satisfy `ValidSpecs`, and no empty block whenever the axis has regions.
- GradingOutput.GradeAxis: requires `Gradable`, for the same reasons.
- GradingRegions.ValidSpecs: excludes declarations that leave a region with no blocks, which the source handles. The source's `delta` of such a region is never used, because its loops run zero times. The next region starts from the last position written. The rescaling by the weight sum then restores the axis length, and the cell-ratio loops skip the region. So, for example, an 8 long axis of 5 blocks declared as (2, 5) plus a remainder gives five blocks 1.6 wide in the source. The model does not cover such input.
- GradingRegions.ValidSpecs: also excludes declarations whose block counts exceed the axis block count. The source's linear pass then writes past the end of its position list, which is undefined behaviour.
- Under `ValidSpecs` the weights add up to exactly 1 (`PositionWidths`), so the source's rescaling by the weight sum is the identity in this model. It only matters for the zero-block regions excluded above.
- The source's `label` is a 32-bit integer; the model's integers are unbounded, so overflow of block counts or of `walkBoxMaximum` is not modelled.
- BlockManagers.WalkBoxMaximum: does not model 32-bit overflow of the doubled sum, because the counts are unbounded `int`s here.
- Globals.LabelToString: `key(label, ...)` renders labels with `blib::String`, whose body is not part of this model. The model takes it to be plain decimal with a leading '-' for negatives. `ParseLabelToString`, `UnkeyKey2`/`3`/`4` and `Key2`/`3`/`4Injective` rest on that rendering.
- Globals.ChopInPlace: the source's non-const `chop(vector&)` modifies its argument and returns a reference to it. The model returns the chopped vector as a new value, so the aliasing is not modelled.
- Globals.Chop: the library constant `CHOP` is not part of this model, so it is the parameter `tol`.
- `getLinearList` is a template; the model instantiates it for `real` only.
- `getCos`, `getAngleRad` and `normalize` are left out because they use `acos` and square roots. `key(const point&)` and the templated `key` are left out because they use stream formatting of doubles.
- Unkey is not part of the source. It is the inverse the model uses to prove that the key builders are injective.
- The constructor bodies of `BlockManager`, `Patch` and `Spline` live in `.C` files that are not part of this model. Only the header defaults are modelled.
  - A new patch is assumed to have no partner and no faces.
  - A spline's chain is assumed to run from vertex A's point through the given points to vertex B's point, as the header comments on the first and last point say.
- BlockManagers.CalcTopology: `findAllNeighbors` is not part of this model; it is passed in as a function.
- BlockManagers.Check: the default check is the constant true; overriding checks are not part of this model.
- The block walk `walkBox` itself is not part of this model. `BoxWalk` only stands for the sequence of steps once around the border, so that `walkBoxMaximum` can be stated as its length.
- BlockManagers.NewManager: starts with an empty patch list. The code that sizes the patch list lives in a `.C` file that is not part of this model, so a manager built by `NewManager` alone has no slot for `AddPatch`.
- The rest of `BlockManager` is left out: `findAllNeighbors`, `setInterBlockSpline`, the spline interpolation helpers, `getGradingCommand`, the grading-factor helpers and the output data. Their bodies are not part of this model.
- `Patch::addPatch` and `dictEntry`, and `Spline::order`, `mixWithLinear` and `dictEntry`, are left out. Their bodies are not part of this model.
- The cylinder and orography-modification modules, `KasmiMassonHill`, `PointLinePath` and the `terrainBlockMesher` driver are left out. They are I/O, external geometry, or declarations without bodies.
- The unused accumulator `pc` of the width loop is not modelled.
