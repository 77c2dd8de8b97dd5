/** Steps 4 and 5 of the block grading of one axis, and the two-axis entry
    point `getDeltaLists`: block widths from the block weights, then the
    cell grading of every block from the width ratios to its neighbours. */
module GradingOutput {
  import opened GradingRegions
  import opened GradingLinear
  import opened GradingInterpolation

  // ---------------------------------------------------------------------
  // sums
  // ---------------------------------------------------------------------

  /** Sum of a list, accumulated front to back. */
  function Sum(s: seq<real>): real {
    if |s| == 0 then 0.0 else Sum(s[..|s| - 1]) + s[|s| - 1]
  }

  lemma {:induction false} SumCons(a: real, s: seq<real>)
    ensures Sum([a] + s) == a + Sum(s)
    decreases |s|
  {
    if |s| > 0 {
      assert ([a] + s)[..|s|] == [a] + s[..|s| - 1];
      SumCons(a, s[..|s| - 1]);
    } else {
      assert ([a] + s)[..0] == [];
    }
  }

  lemma {:induction false} SumConstant(n: nat, c: real)
    ensures Sum(seq(n, _ => c)) == n as real * c
  {
    if n > 0 {
      assert seq(n, _ => c)[..n - 1] == seq(n - 1, _ => c);
      SumConstant(n - 1, c);
    }
  }

  lemma QuotientsAdd(a: real, b: real, d: real)
    requires d != 0.0
    ensures a / d + (b - a) / d == b / d
  {
    assert (a / d) * d == a && ((b - a) / d) * d == b - a && (b / d) * d == b;
    assert (a / d + (b - a) / d) * d == b;
  }


  // ---------------------------------------------------------------------
  // weights and block widths
  // ---------------------------------------------------------------------

  /** The weights before any region is read: 1 per block. */
  function InitialWeights(blockNr: nat): (w: seq<real>)
    ensures |w| == blockNr
    ensures Sum(w) == blockNr as real
  {
    SumConstant(blockNr, 1.0);
    seq(blockNr, _ => 1.0)
  }

  /** The weight of each block: its width as a fraction of the axis length. */
  function Weights(positions: seq<real>, dimension: real): (w: seq<real>)
    requires dimension != 0.0
    ensures |w| == |positions|
    ensures forall p :: 0 <= p < |w| ==> w[p] * dimension == Gap(positions, p)
  {
    seq(|positions|, p requires 0 <= p < |positions| => Gap(positions, p) / dimension)
  }

  /** The weights telescope: they add up to the last position over the
      axis length. */
  lemma {:induction false} WeightsTelescope(positions: seq<real>, dimension: real)
    requires dimension != 0.0
    ensures Sum(Weights(positions, dimension)) == LastOrZero(positions) / dimension
    decreases |positions|
  {
    if |positions| > 0 {
      var n := |positions|;
      var init := positions[..n - 1];
      var w := Weights(positions, dimension);
      forall p | 0 <= p < n - 1
        ensures w[p] == Weights(init, dimension)[p]
      {
        assert Gap(positions, p) == Gap(init, p);
      }
      assert w[..n - 1] == Weights(init, dimension);
      WeightsTelescope(init, dimension);
      var a, b := LastOrZero(init), positions[n - 1];
      assert Previous(positions, n - 1) == a;
      assert Sum(w) == Sum(w[..n - 1]) + w[n - 1];
      QuotientsAdd(a, b, dimension);
    }
  }

  /** `blockGrading` of an axis: 0, then the width of every block. */
  function BlockGrading(weights: seq<real>, dimension: real): (g: seq<real>)
    requires |weights| > 0 ==> Sum(weights) != 0.0
    ensures |g| == |weights| + 1 && g[0] == 0.0
  {
    [0.0] + BlockWidths(weights, dimension, Sum(weights))
  }

  /** The width of a block of the given weight: its share of the total
      weight times the axis length. */
  function Width(weight: real, dimension: real, total: real): real
    requires total != 0.0
  {
    dimension * weight / total
  }

  function BlockWidths(weights: seq<real>, dimension: real, total: real): (widths: seq<real>)
    requires |weights| > 0 ==> total != 0.0
    ensures |widths| == |weights|
  {
    seq(|weights|, b requires 0 <= b < |weights| => Width(weights[b], dimension, total))
  }

  lemma WidthsAdd(sum: real, sumInit: real, last: real, total: real, d: real, x: real, y: real, t: real)
    requires t != 0.0 && sum == sumInit + last && sumInit == Width(x, d, t) && last == Width(y, d, t)
    requires total == x + y
    ensures sum == Width(total, d, t)
  {
    assert (d * x / t) * t == d * x;
    assert (d * y / t) * t == d * y;
    assert (d * (x + y) / t) * t == d * (x + y);
  }

  lemma WidthOfTotal(d: real, t: real)
    requires t != 0.0
    ensures Width(t, d, t) == d
  {
    assert (d * t / t) * t == d * t;
  }

  lemma WidthOfFraction(x: real, d: real)
    requires d != 0.0
    ensures Width(x / d, d, 1.0) == x
  {
    assert (x / d) * d == x;
  }

  /** The widths are additive in the weights. */
  lemma {:induction false} SumBlockWidths(weights: seq<real>, dimension: real, total: real)
    requires total != 0.0
    ensures Sum(BlockWidths(weights, dimension, total)) == Width(Sum(weights), dimension, total)
    decreases |weights|
  {
    if |weights| > 0 {
      var n := |weights|;
      var ws := BlockWidths(weights, dimension, total);
      var init := BlockWidths(weights[..n - 1], dimension, total);
      assert ws[..n - 1] == init by {
        forall i | 0 <= i < n - 1
          ensures ws[i] == init[i]
        {
          assert weights[..n - 1][i] == weights[i];
        }
      }
      SumBlockWidths(weights[..n - 1], dimension, total);
      WidthsAdd(Sum(ws), Sum(init), ws[n - 1], Sum(weights), dimension, Sum(weights[..n - 1]), weights[n - 1], total);
    }
  }

  /** The block widths add up to the axis length. */
  lemma BlockGradingSum(weights: seq<real>, dimension: real)
    requires |weights| > 0 && Sum(weights) != 0.0
    ensures Sum(BlockGrading(weights, dimension)) == dimension
  {
    var total := Sum(weights);
    var tail := BlockWidths(weights, dimension, total);
    SumCons(0.0, tail);
    SumBlockWidths(weights, dimension, total);
    WidthOfTotal(dimension, total);
  }

  // ---------------------------------------------------------------------
  // cell ratios
  // ---------------------------------------------------------------------

  /** No block of the grading list has width 0. */
  predicate WidthsNonZero(g: seq<real>) {
    forall k :: 1 <= k < |g| ==> g[k] != 0.0
  }

  /** Reference left ratio of block `b`: its width over the width of the
      block to its left, 1 for the first block. */
  function LeftRatio(g: seq<real>, b: nat): real
    requires b + 1 < |g| && WidthsNonZero(g)
  {
    if b == 0 then 1.0 else g[b + 1] / g[b]
  }

  /** Reference right ratio of block `b`: the width of the block to its
      right over its own width, 1 for the last block. */
  function RightRatio(g: seq<real>, b: nat): real
    requires b + 1 < |g| && WidthsNonZero(g)
  {
    if b + 2 == |g| then 1.0 else g[b + 2] / g[b + 1]
  }

  lemma CancelCells(x: real, y: real, c: real)
    requires y != 0.0 && c != 0.0
    ensures (x / c) / (y / c) == x / y
  {
    assert (x / c) / (y / c) == (x / c) * (c / y);
  }


  lemma SelfQuotient(x: real)
    requires x != 0.0
    ensures x / x == 1.0
  {
  }

  lemma NonZeroQuotient(x: real, c: real)
    requires x != 0.0 && c != 0.0
    ensures x / c != 0.0
  {
    assert (x / c) * c == x;
  }

  /** The left loop from block `b` on; `last` is the cell width of the
      block before (of block `b` itself at the start). */
  function LeftRatiosFrom(g: seq<real>, cellNr: int, b: nat, last: real): (r: seq<real>)
    requires cellNr != 0 && WidthsNonZero(g) && last != 0.0 && b < |g|
    ensures |r| == |g| - 1 - b
    decreases |g| - b
  {
    if b + 1 >= |g| then []
    else
      var cur := g[b + 1] / cellNr as real;
      NonZeroQuotient(g[b + 1], cellNr as real);
      [cur / last] + LeftRatiosFrom(g, cellNr, b + 1, cur)
  }

  /** `cellGradingL`: every block's cell width over the cell width of the
      block to its left, the first block starting from its own. */
  function LeftRatios(g: seq<real>, cellNr: int): (r: seq<real>)
    requires |g| >= 2 && cellNr != 0 && WidthsNonZero(g)
    ensures |r| == |g| - 1
  {
    NonZeroQuotient(g[1], cellNr as real);
    LeftRatiosFrom(g, cellNr, 0, g[1] / cellNr as real)
  }

  /** One step of the left loop: the cell count cancels from the ratio of
      this block's cell width to the previous block's. */
  lemma LeftRatioStep(g: seq<real>, cellNr: int, b: nat, last: real)
    requires cellNr != 0 && WidthsNonZero(g) && b + 1 < |g|
    requires b == 0 ==> last == g[1] / cellNr as real
    requires b > 0 ==> last == g[b] / cellNr as real
    ensures g[b + 1] / cellNr as real != 0.0
    ensures (g[b + 1] / cellNr as real) / last == LeftRatio(g, b)
  {
    var c := cellNr as real;
    NonZeroQuotient(g[b + 1], c);
    if b == 0 {
      SelfQuotient(g[1] / c);
    } else {
      CancelCells(g[b + 1], g[b], c);
    }
  }

  lemma {:induction false} LeftRatiosFromSpec(g: seq<real>, cellNr: int, b: nat, last: real)
    requires cellNr != 0 && WidthsNonZero(g) && last != 0.0 && b < |g|
    requires b == 0 && 1 < |g| ==> last == g[1] / cellNr as real
    requires b > 0 ==> last == g[b] / cellNr as real
    ensures forall m :: 0 <= m < |g| - 1 - b ==> LeftRatiosFrom(g, cellNr, b, last)[m] == LeftRatio(g, b + m)
    decreases |g| - b
  {
    if b + 1 < |g| {
      var cur := g[b + 1] / cellNr as real;
      LeftRatioStep(g, cellNr, b, last);
      var rest := LeftRatiosFrom(g, cellNr, b + 1, cur);
      var r := LeftRatiosFrom(g, cellNr, b, last);
      assert r == [cur / last] + rest;
      LeftRatiosFromSpec(g, cellNr, b + 1, cur);
      forall m | 0 < m < |g| - 1 - b
        ensures r[m] == LeftRatio(g, b + m)
      {
        assert r[m] == rest[m - 1];
      }
    }
  }

  /** Each left ratio is the width ratio to the left neighbour: the cell
      count cancels. */
  lemma LeftRatiosSpec(g: seq<real>, cellNr: int)
    requires |g| >= 2 && cellNr != 0 && WidthsNonZero(g)
    ensures forall b :: 0 <= b < |g| - 1 ==> LeftRatios(g, cellNr)[b] == LeftRatio(g, b)
  {
    NonZeroQuotient(g[1], cellNr as real);
    LeftRatiosFromSpec(g, cellNr, 0, g[1] / cellNr as real);
  }

  /** The right loop from block `b` down; `last` is the cell width of the
      block after (of the last block itself at the start). */
  function RightRatiosFrom(g: seq<real>, cellNr: int, b: int, last: real): (r: seq<real>)
    requires cellNr != 0 && WidthsNonZero(g) && -1 <= b < |g| - 1
    ensures |r| == b + 1
    decreases b + 1
  {
    if b < 0 then []
    else
      var cur := g[b + 1] / cellNr as real;
      NonZeroQuotient(g[b + 1], cellNr as real);
      RightRatiosFrom(g, cellNr, b - 1, cur) + [last / cur]
  }

  /** `cellGradingR`: the cell width of the block to the right over every
      block's cell width, the last block ending at its own. */
  function RightRatios(g: seq<real>, cellNr: int): (r: seq<real>)
    requires |g| >= 2 && cellNr != 0 && WidthsNonZero(g)
    ensures |r| == |g| - 1
  {
    RightRatiosFrom(g, cellNr, |g| - 2, g[|g| - 1] / cellNr as real)
  }

  /** One step of the right loop: the cell count cancels from the ratio of
      the next block's cell width to this block's. */
  lemma RightRatioStep(g: seq<real>, cellNr: int, b: int, last: real)
    requires cellNr != 0 && WidthsNonZero(g) && 0 <= b < |g| - 1
    requires b == |g| - 2 ==> last == g[|g| - 1] / cellNr as real
    requires b < |g| - 2 ==> last == g[b + 2] / cellNr as real
    ensures g[b + 1] / cellNr as real != 0.0
    ensures last / (g[b + 1] / cellNr as real) == RightRatio(g, b)
  {
    var c := cellNr as real;
    NonZeroQuotient(g[b + 1], c);
    if b == |g| - 2 {
      SelfQuotient(g[b + 1] / c);
    } else {
      CancelCells(g[b + 2], g[b + 1], c);
    }
  }

  lemma {:induction false} RightRatiosFromSpec(g: seq<real>, cellNr: int, b: int, last: real)
    requires cellNr != 0 && WidthsNonZero(g) && -1 <= b < |g| - 1
    requires b == |g| - 2 ==> last == g[|g| - 1] / cellNr as real
    requires 0 <= b < |g| - 2 ==> last == g[b + 2] / cellNr as real
    ensures forall m :: 0 <= m <= b ==> RightRatiosFrom(g, cellNr, b, last)[m] == RightRatio(g, m)
    decreases b + 1
  {
    if b >= 0 {
      var cur := g[b + 1] / cellNr as real;
      RightRatioStep(g, cellNr, b, last);
      var rest := RightRatiosFrom(g, cellNr, b - 1, cur);
      var r := RightRatiosFrom(g, cellNr, b, last);
      assert r == rest + [last / cur];
      RightRatiosFromSpec(g, cellNr, b - 1, cur);
    }
  }

  /** Each right ratio is the width ratio of the right neighbour: the cell
      count cancels. */
  lemma RightRatiosSpec(g: seq<real>, cellNr: int)
    requires |g| >= 2 && cellNr != 0 && WidthsNonZero(g)
    ensures forall b :: 0 <= b < |g| - 1 ==> RightRatios(g, cellNr)[b] == RightRatio(g, b)
  {
    RightRatiosFromSpec(g, cellNr, |g| - 2, g[|g| - 1] / cellNr as real);
  }

  /** `cellGrading` of an axis: for every block the mean of its left and
      right ratios when the axis has regions, 1 otherwise; the entry after
      the last block stays 0. */
  function CellGrading(g: seq<real>, cellNr: int, graded: bool): (r: seq<real>)
    requires |g| >= 1
    requires graded ==> |g| >= 2 && cellNr != 0 && WidthsNonZero(g)
    ensures |r| == |g| && r[|g| - 1] == 0.0
  {
    if graded then Mean(LeftRatios(g, cellNr), RightRatios(g, cellNr)) + [0.0]
    else seq(|g| - 1, _ => 1.0) + [0.0]
  }

  /** Every block's cell grading is the mean of the reference ratios to its
      neighbours, or 1 for an axis without regions. */
  lemma CellGradingRatios(g: seq<real>, cellNr: int, graded: bool)
    requires |g| >= 1
    requires graded ==> |g| >= 2 && cellNr != 0 && WidthsNonZero(g)
    ensures forall b :: 0 <= b < |g| - 1 ==>
      CellGrading(g, cellNr, graded)[b] == (if graded then 0.5 * (LeftRatio(g, b) + RightRatio(g, b)) else 1.0)
  {
    if graded {
      LeftRatiosSpec(g, cellNr);
      RightRatiosSpec(g, cellNr);
    }
  }

  /** Blocks of equal width get cell grading 1. */
  lemma EqualWidthsUngraded(g: seq<real>, cellNr: int, graded: bool)
    requires |g| >= 2
    requires graded ==> cellNr != 0 && WidthsNonZero(g)
    requires forall k :: 1 <= k < |g| ==> g[k] == g[1]
    ensures forall b :: 0 <= b < |g| - 1 ==> CellGrading(g, cellNr, graded)[b] == 1.0
  {
    CellGradingRatios(g, cellNr, graded);
    if graded {
      forall b | 0 <= b < |g| - 1
        ensures LeftRatio(g, b) == 1.0 && RightRatio(g, b) == 1.0
      {
        SelfQuotient(g[1]);
        if b > 0 {
          assert g[b] == g[1] && g[b + 1] == g[1];
        }
        if b + 2 < |g| {
          assert g[b + 2] == g[1] && g[b + 1] == g[1];
        }
      }
    }
  }

  // ---------------------------------------------------------------------
  // one axis
  // ---------------------------------------------------------------------

  /** The block end positions of an axis with regions: the linear pass
      followed by the interpolation pass. The axis still ends at its
      length. */
  function GradedPositions(specs: seq<RegionSpec>, dimension: real, blockNr: int): (p: seq<real>)
    requires ValidSpecs(specs, blockNr)
    ensures |p| == blockNr
    ensures blockNr > 0 && p[blockNr - 1] == dimension
  {
    ValidSpecsPartition(specs, dimension, blockNr);
    var regions := Normalise(specs, dimension, blockNr);
    var linear := LinearPositions(regions, dimension, blockNr);
    ChainedBlockBounds(regions, dimension, blockNr);
    LinearPassEnds(regions, dimension, blockNr);
    InterpolationKeepsEnds(regions, dimension, blockNr, linear);
    InterpolationPass(regions, dimension, blockNr, linear)
  }

  /** No block of the position list is empty. */
  predicate NoEmptyBlock(positions: seq<real>) {
    forall p :: 0 <= p < |positions| ==> Gap(positions, p) != 0.0
  }

  /** What the source needs of an axis with regions: a non-zero length and
      cell count, region block counts that leave the last region at least
      one block, and no empty block (each divides). */
  predicate Gradable(dimension: real, blockNr: nat, cellNr: int, specs: seq<RegionSpec>) {
    |specs| > 0 ==>
      && dimension != 0.0
      && cellNr != 0
      && ValidSpecs(specs, blockNr)
      && NoEmptyBlock(GradedPositions(specs, dimension, blockNr))
  }

  /** What grading from block end positions needs: a non-zero length that
      the last block ends at, a non-zero cell count and no empty block. */
  predicate PositionsGradable(dimension: real, cellNr: int, p: seq<real>) {
    && dimension != 0.0 && cellNr != 0
    && |p| > 0 && p[|p| - 1] == dimension
    && NoEmptyBlock(p)
  }

  /** Block width `b + 1` of the grading is the gap between positions
      `b - 1` and `b`. */
  predicate WidthsAreGaps(g: seq<real>, p: seq<real>) {
    |g| == |p| + 1 && forall b :: 0 <= b < |p| ==> g[b + 1] == Gap(p, b)
  }

  /** No block is empty, and every block's cell grading is the mean of the
      width ratios to its neighbours. */
  predicate CellsAreMeanRatios(g: seq<real>, c: seq<real>) {
    && |g| >= 2 && |c| == |g| && WidthsNonZero(g)
    && forall b :: 0 <= b < |g| - 1 ==> c[b] == 0.5 * (LeftRatio(g, b) + RightRatio(g, b))
  }

  lemma WeightedWidth(p: seq<real>, dimension: real, b: nat)
    requires dimension != 0.0 && b < |p| && Sum(Weights(p, dimension)) == 1.0
    ensures BlockGrading(Weights(p, dimension), dimension)[b + 1] == Gap(p, b)
  {
    var w := Weights(p, dimension);
    assert BlockGrading(w, dimension)[b + 1] == Width(w[b], dimension, 1.0);
    assert w[b] == Gap(p, b) / dimension;
    WidthOfFraction(Gap(p, b), dimension);
  }

  /** Weighting the blocks by their share of an axis that the positions
      span gives back the gaps between the positions as block widths, and
      they add up to the axis length. */
  lemma PositionWidths(dimension: real, p: seq<real>)
    requires dimension != 0.0 && |p| > 0 && p[|p| - 1] == dimension
    ensures Sum(Weights(p, dimension)) == 1.0
    ensures WidthsAreGaps(BlockGrading(Weights(p, dimension), dimension), p)
    ensures Sum(BlockGrading(Weights(p, dimension), dimension)) == dimension
  {
    var w := Weights(p, dimension);
    WeightsTelescope(p, dimension);
    SelfQuotient(dimension);
    BlockGradingSum(w, dimension);
    forall b | 0 <= b < |p|
      ensures BlockGrading(w, dimension)[b + 1] == Gap(p, b)
    {
      WeightedWidth(p, dimension, b);
    }
  }

  /** The gradings of one axis. */
  datatype AxisGrading = AxisGrading(blockGrading: seq<real>, cellGrading: seq<real>)

  /** The gradings of an axis with regions, from its block end positions:
      weights are the block widths over the axis length, and every block's
      cell grading comes from the width ratios to its neighbours. */
  function PositionGrading(dimension: real, cellNr: int, p: seq<real>): (a: AxisGrading)
    requires PositionsGradable(dimension, cellNr, p)
    ensures |a.blockGrading| == |p| + 1 && |a.cellGrading| == |p| + 1
    ensures a.blockGrading[0] == 0.0 && a.cellGrading[|p|] == 0.0
    ensures Sum(a.blockGrading) == dimension
  {
    PositionWidths(dimension, p);
    var g := BlockGrading(Weights(p, dimension), dimension);
    assert WidthsNonZero(g) by {
      forall k | 1 <= k < |g|
        ensures g[k] != 0.0
      {
        assert g[(k - 1) + 1] == Gap(p, k - 1);
      }
    }
    AxisGrading(g, CellGrading(g, cellNr, true))
  }

  /** Graded from its positions, block `b` of an axis is as wide as the gap
      between positions `b - 1` and `b`, and its cell grading is the mean of
      the width ratios to its neighbours. */
  lemma PositionGradingSpec(dimension: real, cellNr: int, p: seq<real>)
    requires PositionsGradable(dimension, cellNr, p)
    ensures var a := PositionGrading(dimension, cellNr, p);
      && WidthsAreGaps(a.blockGrading, p)
      && CellsAreMeanRatios(a.blockGrading, a.cellGrading)
  {
    var a := PositionGrading(dimension, cellNr, p);
    PositionWidths(dimension, p);
    CellGradingRatios(a.blockGrading, cellNr, true);
  }

  /** The gradings of an axis without regions: every block weighs 1 and
      no cell is graded. */
  function UniformGrading(dimension: real, blockNr: nat, cellNr: int): (a: AxisGrading)
    ensures |a.blockGrading| == blockNr + 1 && |a.cellGrading| == blockNr + 1
    ensures a.blockGrading[0] == 0.0 && a.cellGrading[blockNr] == 0.0
    ensures blockNr > 0 ==> Sum(a.blockGrading) == dimension
  {
    var w := InitialWeights(blockNr);
    var g := BlockGrading(w, dimension);
    assert blockNr > 0 ==> Sum(g) == dimension by {
      if blockNr > 0 {
        BlockGradingSum(w, dimension);
      }
    }
    AxisGrading(g, CellGrading(g, cellNr, false))
  }

  /** Grade one axis; `specs` empty means the axis has no regions. */
  function GradeAxis(dimension: real, blockNr: nat, cellNr: int, specs: seq<RegionSpec>): (a: AxisGrading)
    requires Gradable(dimension, blockNr, cellNr, specs)
    ensures |a.blockGrading| == blockNr + 1 && |a.cellGrading| == blockNr + 1
    ensures a.blockGrading[0] == 0.0 && a.cellGrading[blockNr] == 0.0
    ensures blockNr > 0 ==> Sum(a.blockGrading) == dimension
  {
    if |specs| == 0 then UniformGrading(dimension, blockNr, cellNr)
    else PositionGrading(dimension, cellNr, GradedPositions(specs, dimension, blockNr))
  }

  /** An axis without regions: equal block widths `dimension / blockNr`
      and cell grading 1 everywhere. */
  lemma UngradedAxis(dimension: real, blockNr: nat, cellNr: int)
    ensures forall b :: 0 <= b < blockNr ==>
      && GradeAxis(dimension, blockNr, cellNr, []).blockGrading[b + 1] == dimension / blockNr as real
      && GradeAxis(dimension, blockNr, cellNr, []).cellGrading[b] == 1.0
  {
    var g := GradeAxis(dimension, blockNr, cellNr, []).blockGrading;
    forall i | 1 <= i <= blockNr
      ensures g[i] == dimension / blockNr as real
    {
      assert g[i] == Width(1.0, dimension, blockNr as real);
    }
  }

  /** An axis with regions: block `b` is as wide as the gap between the
      graded positions `b - 1` and `b`, and its cell grading is the mean of
      the width ratios to its neighbours. */
  lemma GradedAxis(dimension: real, blockNr: nat, cellNr: int, specs: seq<RegionSpec>)
    requires |specs| > 0 && Gradable(dimension, blockNr, cellNr, specs)
    ensures blockNr > 0
    ensures var a := GradeAxis(dimension, blockNr, cellNr, specs);
      && WidthsAreGaps(a.blockGrading, GradedPositions(specs, dimension, blockNr))
      && CellsAreMeanRatios(a.blockGrading, a.cellGrading)
  {
    PositionGradingSpec(dimension, cellNr, GradedPositions(specs, dimension, blockNr));
  }

  // ---------------------------------------------------------------------
  // both axes
  // ---------------------------------------------------------------------

  /** The shape every graded axis has: one block width and one cell
      grading per block after a leading and before a trailing 0, the widths
      adding up to the axis length. */
  predicate AxisShape(blockGrading: seq<real>, cellGrading: seq<real>, dimension: real, blockNr: int) {
    && |blockGrading| == blockNr + 1 && |cellGrading| == blockNr + 1
    && blockNr >= 0
    && blockGrading[0] == 0.0 && cellGrading[blockNr] == 0.0
    && (blockNr > 0 ==> Sum(blockGrading) == dimension)
  }

  /** `getDeltaLists`: the block and cell gradings of the three directions
      of the base; the first two are graded, the third stays empty. */
  function GetDeltaLists(
    dimensions: seq<real>, blockNrs: seq<int>, cellNrs: seq<int>, tasks: seq<seq<RegionSpec>>)
    : (r: (seq<seq<real>>, seq<seq<real>>))
    requires |dimensions| >= 2 && |blockNrs| >= 2 && |cellNrs| >= 2 && |tasks| >= 2
    requires blockNrs[0] >= 0 && Gradable(dimensions[0], blockNrs[0], cellNrs[0], tasks[0])
    requires blockNrs[1] >= 0 && Gradable(dimensions[1], blockNrs[1], cellNrs[1], tasks[1])
    ensures |r.0| == 3 && |r.1| == 3 && r.0[2] == [] && r.1[2] == []
    ensures AxisShape(r.0[0], r.1[0], dimensions[0], blockNrs[0])
    ensures AxisShape(r.0[1], r.1[1], dimensions[1], blockNrs[1])
  {
    var a := GradeAxis(dimensions[0], blockNrs[0], cellNrs[0], tasks[0]);
    var b := GradeAxis(dimensions[1], blockNrs[1], cellNrs[1], tasks[1]);
    ([a.blockGrading, b.blockGrading, []], [a.cellGrading, b.cellGrading, []])
  }

  // ---------------------------------------------------------------------
  // two uniform regions
  // ---------------------------------------------------------------------

  /** The grading around the boundary after block `n1 - 1`: block `n1 - 1`
      is `s1` wide and block `n1` is `s2` wide (`blockGrading` is shifted
      by its leading 0), and the cell grading of block `n1 - 1` is the mean
      of 1 and `s2 / s1`. */
  predicate BoundaryShape(a: AxisGrading, n1: int, s1: real, s2: real) {
    && 0 < n1 && n1 + 1 < |a.blockGrading| && |a.cellGrading| == |a.blockGrading|
    && WidthsNonZero(a.blockGrading)
    && a.blockGrading[n1] == s1 && a.blockGrading[n1 + 1] == s2
    && a.cellGrading[n1 - 1] == 0.5 * (1.0 + s2 / s1)
  }

  /** Blocks `0 .. b` of the positions are `s1` wide, the blocks after
      them `s2` wide. */
  predicate SteppedGaps(p: seq<real>, b: int, s1: real, s2: real) {
    forall q :: 0 <= q < |p| ==> Gap(p, q) == if q <= b then s1 else s2
  }

  /** Blocks of width `s1` up to block `n1 - 1` and of width `s2` after it
      give the boundary grading. */
  lemma BoundaryCell(a: AxisGrading, p: seq<real>, n1: int, s1: real, s2: real)
    requires WidthsAreGaps(a.blockGrading, p) && CellsAreMeanRatios(a.blockGrading, a.cellGrading)
    requires 0 < n1 < |p| && SteppedGaps(p, n1 - 1, s1, s2)
    ensures BoundaryShape(a, n1, s1, s2)
  {
    var g := a.blockGrading;
    var b := n1 - 1;
    assert g[b + 1] == Gap(p, b) == s1;
    assert g[(b + 1) + 1] == Gap(p, b + 1) == s2;
    if b > 0 {
      assert g[(b - 1) + 1] == Gap(p, b - 1) == s1;
      SelfQuotient(s1);
    }
    assert a.cellGrading[b] == 0.5 * (LeftRatio(g, b) + RightRatio(g, b));
  }

  /** Grading positions whose blocks are `s1` wide up to block `n1 - 1`
      and `s2` wide after it gives the boundary grading. */
  lemma SteppedBoundary(dimension: real, cellNr: int, p: seq<real>, n1: int, s1: real, s2: real)
    requires PositionsGradable(dimension, cellNr, p)
    requires 0 < n1 < |p| && SteppedGaps(p, n1 - 1, s1, s2)
    ensures BoundaryShape(PositionGrading(dimension, cellNr, p), n1, s1, s2)
  {
    PositionGradingSpec(dimension, cellNr, p);
    BoundaryCell(PositionGrading(dimension, cellNr, p), p, n1, s1, s2);
  }

  /** The graded positions of two regions that do not interpolate: every
      block of the first is `first.width / first.blocks` wide, every block
      of the second `(dimension - first.width) / (blockNr - first.blocks)`. */
  lemma TwoUniformRegionsWidths(first: RegionSpec, last: RegionSpec, dimension: real, blockNr: nat)
    requires first.kind != "interpolating" && last.kind != "interpolating"
    requires 0 < first.blocks < blockNr && 0.0 < first.width < dimension
    ensures ValidSpecs([first, last], blockNr)
    ensures NoEmptyBlock(GradedPositions([first, last], dimension, blockNr))
    ensures SteppedGaps(GradedPositions([first, last], dimension, blockNr), first.blocks - 1,
      UniformSpacing(first.width, first.blocks), UniformSpacing(dimension - first.width, blockNr - first.blocks))
  {
    var specs := [first, last];
    var n1 := first.blocks;
    assert specs[..1] == [first];
    assert SpecBlockSum([first]) == n1 by {
      assert [first][..0] == [];
    }
    assert ValidSpecs(specs, blockNr);
    ValidSpecsPartition(specs, dimension, blockNr);
    var regions := Normalise(specs, dimension, blockNr);
    assert AdjacentAt(regions, 1);
    var r0, r1 := regions[0], regions[1];
    assert r0.width == first.width && r0.blocks == n1;
    assert r1.firstBlock == n1 && r1.width == dimension - first.width && r1.blocks == blockNr - n1;
    var linear := LinearPositions(regions, dimension, blockNr);
    NoInterpolationKeepsPositions(regions, dimension, blockNr, linear);
    var p := GradedPositions(specs, dimension, blockNr);
    assert p == linear;
    LinearPositionsIncrease(regions, dimension, blockNr);
    assert Spacing(r0) == UniformSpacing(first.width, first.blocks);
    assert Spacing(r1) == UniformSpacing(dimension - first.width, blockNr - first.blocks);
    forall q | 0 < q < |p|
      ensures Gap(p, q) != 0.0
    {
      assert p[q - 1] < p[q];
    }
    forall q | 0 <= q < |p|
      ensures Gap(p, q) == if q <= n1 - 1 then Spacing(r0) else Spacing(r1)
    {
      if q < n1 {
        LinearBlockWidths(regions, dimension, blockNr, 0, q);
      } else {
        LinearBlockWidths(regions, dimension, blockNr, 1, q);
      }
    }
  }

  /** Two regions that do not interpolate, the first `first.width` wide
      with `first.blocks` blocks and the second taking the rest of the axis:
      the blocks on either side of the boundary keep their regions' uniform
      widths, and the cell grading of the first region's last block is the
      mean of 1 and the ratio of those two widths, which is 1 only when the
      two widths agree. */
  lemma TwoUniformRegionsBoundary(first: RegionSpec, last: RegionSpec, dimension: real, blockNr: nat, cellNr: int)
    requires first.kind != "interpolating" && last.kind != "interpolating"
    requires 0 < first.blocks < blockNr && 0.0 < first.width < dimension && cellNr != 0
    ensures Gradable(dimension, blockNr, cellNr, [first, last])
    ensures BoundaryShape(GradeAxis(dimension, blockNr, cellNr, [first, last]), first.blocks,
      UniformSpacing(first.width, first.blocks), UniformSpacing(dimension - first.width, blockNr - first.blocks))
    ensures GradeAxis(dimension, blockNr, cellNr, [first, last]).cellGrading[first.blocks - 1] == 1.0
      <==> UniformSpacing(first.width, first.blocks) == UniformSpacing(dimension - first.width, blockNr - first.blocks)
  {
    var s1 := UniformSpacing(first.width, first.blocks);
    var s2 := UniformSpacing(dimension - first.width, blockNr - first.blocks);
    TwoUniformRegionsWidths(first, last, dimension, blockNr);
    SteppedBoundary(dimension, cellNr, GradedPositions([first, last], dimension, blockNr), first.blocks, s1, s2);
    MeanWithOne(s1, s2);
  }

  /** The mean of 1 and `s2 / s1` is 1 exactly when the two widths agree. */
  lemma MeanWithOne(s1: real, s2: real)
    requires s1 != 0.0
    ensures 0.5 * (1.0 + s2 / s1) == 1.0 <==> s1 == s2
  {
    if 0.5 * (1.0 + s2 / s1) == 1.0 {
      assert s2 / s1 == 1.0;
      assert s2 == (s2 / s1) * s1;
    }
  }

  /** A 150 long axis of 50 blocks, 40 of them in a first 100 long region
      and 10 in the remaining 50: blocks 2.5 wide meet blocks 5 wide, and
      the last block of the first region gets cell grading 1.5. */
  lemma TwoUniformRegionsExample(first: RegionSpec, last: RegionSpec, dimension: real, blockNr: nat, cellNr: int)
    requires first == RegionSpec(100.0, 40, "uniform") && last.kind == "uniform"
    requires dimension == 150.0 && blockNr == 50 && cellNr != 0
    ensures Gradable(dimension, blockNr, cellNr, [first, last])
    ensures GradeAxis(dimension, blockNr, cellNr, [first, last]).cellGrading[39] == 1.5
  {
    var s1 := UniformSpacing(first.width, first.blocks);
    var s2 := UniformSpacing(dimension - first.width, blockNr - first.blocks);
    assert s1 == 2.5 && s2 == 5.0;
    assert 0.5 * (1.0 + s2 / s1) == 1.5;
    TwoUniformRegionsBoundary(first, last, dimension, blockNr, cellNr);
  }
}
