/** Step 3 of the block grading of one axis: inside every region of type
    "interpolating" with more than one block, the interior block end
    positions are replaced by the mean of a sweep from the left and a sweep
    from the right. */
module GradingInterpolation {
  import opened GradingRegions
  import opened GradingLinear

  /** The regions the pass rewrites. */
  predicate Interpolates(region: Region) {
    region.kind == "interpolating" && region.blocks > 1
  }

  /** The region's blocks are addressable in a position list of that size. */
  predicate Fits(positions: seq<real>, region: Region) {
    && region.blocks > 0
    && 0 <= region.firstBlock
    && region.lastBlock == region.firstBlock + region.blocks - 1
    && region.lastBlock < |positions|
  }

  /** The position just left of the region, 0 at the start of the axis. */
  function PositionBefore(positions: seq<real>, region: Region): real
    requires Fits(positions, region)
  {
    if region.firstBlock == 0 then 0.0 else positions[region.firstBlock - 1]
  }

  /** The spacing to continue from the left: the width of the block left of
      the region, or the region's own spacing at the start of the axis. */
  function GoalLeft(positions: seq<real>, region: Region): real
    requires Fits(positions, region)
  {
    if region.firstBlock == 1 then positions[0]
    else if region.firstBlock > 1 then positions[region.firstBlock - 1] - positions[region.firstBlock - 2]
    else Spacing(region)
  }

  /** The spacing to continue from the right: the width of the block right
      of the region, or the region's own spacing at the end of the axis. */
  function GoalRight(positions: seq<real>, region: Region): real
    requires Fits(positions, region)
  {
    if region.lastBlock < |positions| - 1 then positions[region.lastBlock + 1] - positions[region.lastBlock]
    else Spacing(region)
  }

  /** The left sweep for the region's blocks `i .. jmax - 2`: each new
      position blends the uniform position (weight `j = i + 1`) with the
      previous swept position continued by `goal` (weight `jmax - j`). */
  function LeftSweep(first: real, deltaLin: real, goal: real, jmax: nat, i: nat, prev: real): (r: seq<real>)
    requires 0 < jmax && i < jmax
    ensures |r| == jmax - 1 - i
    decreases jmax - i
  {
    if i + 1 >= jmax then []
    else
      var posLin := first + i as real * deltaLin;
      var posCon := prev + goal;
      var j := i + 1;
      var v := (j as real * posLin + (jmax - j) as real * posCon) / jmax as real;
      [v] + LeftSweep(first, deltaLin, goal, jmax, i + 1, v)
  }

  /** The right sweep for the region's blocks `0 .. i`, computed from `i`
      down: each position blends the uniform position (weight `jmax - j`)
      with the next swept position continued backwards by `goal` (weight
      `j = i + 1`). */
  function RightSweep(first: real, deltaLin: real, goal: real, jmax: nat, i: int, next: real): (r: seq<real>)
    requires 0 < jmax && -1 <= i
    ensures |r| == i + 1
    decreases i + 1
  {
    if i < 0 then []
    else
      var posLin := first + i as real * deltaLin;
      var posCon := next - goal;
      var j := i + 1;
      var v := ((jmax - j) as real * posLin + j as real * posCon) / jmax as real;
      RightSweep(first, deltaLin, goal, jmax, i - 1, v) + [v]
  }

  /** Element-wise arithmetic mean: each element lies between the two it
      averages, as far from one as from the other. */
  function Mean(a: seq<real>, b: seq<real>): (r: seq<real>)
    requires |a| == |b|
    ensures |r| == |a|
    ensures forall i :: 0 <= i < |r| ==> (a[i] <= r[i] <= b[i] || b[i] <= r[i] <= a[i])
    ensures forall i :: 0 <= i < |r| ==> r[i] - a[i] == b[i] - r[i]
  {
    seq(|a|, i requires 0 <= i < |a| => 0.5 * (a[i] + b[i]))
  }

  /** The new interior positions of an interpolating region: the mean of
      the left sweep, which starts from the position before the region, and
      the right sweep, which starts from the region's last position. */
  function InteriorPositions(positions: seq<real>, region: Region): (r: seq<real>)
    requires Fits(positions, region) && Interpolates(region)
    ensures |r| == region.blocks - 1
  {
    var n := region.blocks;
    var first := positions[region.firstBlock];
    var left := LeftSweep(first, Spacing(region), GoalLeft(positions, region), n, 0, PositionBefore(positions, region));
    var right := RightSweep(first, Spacing(region), GoalRight(positions, region), n, n - 2, positions[region.lastBlock]);
    Mean(left, right)
  }

  /** The interpolation of one region. Only the region's interior
      positions `firstBlock .. lastBlock - 1` may change, and only when the
      region interpolates. */
  function InterpolateRegion(positions: seq<real>, region: Region): (r: seq<real>)
    requires Fits(positions, region)
    ensures |r| == |positions|
    ensures forall p :: 0 <= p < |positions| && !(region.firstBlock <= p < region.lastBlock) ==>
      r[p] == positions[p]
    ensures !Interpolates(region) ==> r == positions
  {
    if !Interpolates(region) then positions
    else
      var r := positions[..region.firstBlock] + InteriorPositions(positions, region) + positions[region.lastBlock..];
      assert forall p :: region.lastBlock <= p < |positions| ==> r[p] == positions[p];
      r
  }

  /** Position `p` is interior to some region from `k` on that interpolates. */
  predicate RewrittenFrom(regions: seq<Region>, k: nat, p: int) {
    exists j :: k <= j < |regions| && Interpolates(regions[j]) && regions[j].firstBlock <= p < regions[j].lastBlock
  }

  /** The interpolation loop from region `k` on. */
  function InterpolateFrom(regions: seq<Region>, dimension: real, blockNr: int, k: nat, positions: seq<real>): (r: seq<real>)
    requires Partitioned(regions, dimension, blockNr) && k <= |regions| && |positions| == blockNr
    ensures |r| == blockNr
    ensures forall p :: 0 <= p < blockNr && !RewrittenFrom(regions, k, p) ==> r[p] == positions[p]
    decreases |regions| - k
  {
    if k == |regions| then positions
    else
      var next := InterpolateRegion(positions, regions[k]);
      var r := InterpolateFrom(regions, dimension, blockNr, k + 1, next);
      assert forall p :: 0 <= p < blockNr && !RewrittenFrom(regions, k, p) ==> !RewrittenFrom(regions, k + 1, p);
      assert forall p :: 0 <= p < blockNr && !RewrittenFrom(regions, k, p) ==> next[p] == positions[p];
      r
  }

  /** The interpolation pass over all regions of the axis: positions not
      interior to an interpolating region are kept. */
  function InterpolationPass(regions: seq<Region>, dimension: real, blockNr: int, positions: seq<real>): (r: seq<real>)
    requires Partitioned(regions, dimension, blockNr) && |positions| == blockNr
    ensures |r| == blockNr
    ensures forall p :: 0 <= p < blockNr && !RewrittenFrom(regions, 0, p) ==> r[p] == positions[p]
  {
    InterpolateFrom(regions, dimension, blockNr, 0, positions)
  }

  /** The pass keeps every region's end position, the axis end included,
      and leaves regions that do not interpolate untouched. */
  lemma InterpolationKeepsEnds(regions: seq<Region>, dimension: real, blockNr: int, positions: seq<real>)
    requires Partitioned(regions, dimension, blockNr) && |positions| == blockNr
    ensures forall j :: 0 <= j < |regions| ==>
      InterpolationPass(regions, dimension, blockNr, positions)[regions[j].lastBlock]
        == positions[regions[j].lastBlock]
    ensures InterpolationPass(regions, dimension, blockNr, positions)[blockNr - 1] == positions[blockNr - 1]
    ensures forall j, p :: InRegion(regions, j, p) && !Interpolates(regions[j]) ==>
      InterpolationPass(regions, dimension, blockNr, positions)[p] == positions[p]
  {
    ChainedBlockBounds(regions, dimension, blockNr);
    forall j, p | InRegion(regions, j, p) && (p == regions[j].lastBlock || !Interpolates(regions[j]))
      ensures !RewrittenFrom(regions, 0, p)
    {
      forall k | 0 <= k < |regions| && Interpolates(regions[k])
        ensures !(regions[k].firstBlock <= p < regions[k].lastBlock)
      {
        if k < j {
          assert regions[k].lastBlock < regions[j].firstBlock;
        } else if j < k {
          assert regions[j].lastBlock < regions[k].firstBlock;
        }
      }
    }
    forall j | 0 <= j < |regions|
      ensures !RewrittenFrom(regions, 0, regions[j].lastBlock)
    {
      assert InRegion(regions, j, regions[j].lastBlock);
    }
    assert regions[|regions| - 1].lastBlock == blockNr - 1;
  }

  // ---------------------------------------------------------------------
  // fixed point
  // ---------------------------------------------------------------------

  lemma {:induction false} LeftSweepUniform(first: real, d: real, jmax: nat, i: nat, prev: real)
    requires 0 < jmax && i < jmax
    requires prev + d == first + i as real * d
    ensures forall m :: 0 <= m < jmax - 1 - i ==> LeftSweep(first, d, d, jmax, i, prev)[m] == first + (i + m) as real * d
    decreases jmax - i
  {
    if i + 1 < jmax {
      var posLin := first + i as real * d;
      var r := LeftSweep(first, d, d, jmax, i, prev);
      var v := r[0];
      assert v == ((i + 1) as real * posLin + (jmax - (i + 1)) as real * (prev + d)) / jmax as real;
      assert (i + 1) as real * posLin + (jmax - (i + 1)) as real * posLin == jmax as real * posLin;
      assert v == posLin;
      var rest := LeftSweep(first, d, d, jmax, i + 1, v);
      assert r[1..] == rest;
      LeftSweepUniform(first, d, jmax, i + 1, v);
      forall m | 0 <= m < jmax - 1 - i
        ensures r[m] == first + (i + m) as real * d
      {
        if m > 0 {
          assert r[m] == rest[m - 1];
        }
      }
    }
  }

  lemma {:induction false} RightSweepUniform(first: real, d: real, jmax: nat, i: int, next: real)
    requires 0 < jmax && -1 <= i
    requires next - d == first + i as real * d
    ensures forall m :: 0 <= m <= i ==> RightSweep(first, d, d, jmax, i, next)[m] == first + m as real * d
    decreases i + 1
  {
    if i >= 0 {
      var posLin := first + i as real * d;
      var r := RightSweep(first, d, d, jmax, i, next);
      var v := r[i];
      assert v == ((jmax - (i + 1)) as real * posLin + (i + 1) as real * (next - d)) / jmax as real;
      assert (jmax - (i + 1)) as real * posLin + (i + 1) as real * posLin == jmax as real * posLin;
      assert v == posLin;
      var rest := RightSweep(first, d, d, jmax, i - 1, v);
      assert r[..i] == rest;
      assert v - d == first + (i - 1) as real * d;
      RightSweepUniform(first, d, jmax, i - 1, v);
      forall m | 0 <= m <= i
        ensures r[m] == first + m as real * d
      {
        if m < i {
          assert r[m] == rest[m];
        }
      }
    }
  }

  /** Counting `i + k` spacings from `a` is counting `i` from `k` spacings
      after `a`. */
  lemma MultipleShift(a: real, d: real, i: int, k: int)
    ensures a + (i + k) as real * d == (a + k as real * d) + i as real * d
  {
  }

  /** Two lists that both hold the uniform positions `s + (m + 1) * d`,
      one counted from `s` and one from `first = s + d`, are equal. */
  lemma UniformListsEqual(a: seq<real>, b: seq<real>, s: real, first: real, d: real)
    requires |a| == |b| && first == s + d
    requires forall m :: 0 <= m < |a| ==> a[m] == first + m as real * d
    requires forall m :: 0 <= m < |b| ==> b[m] == s + (m + 1) as real * d
    ensures a == b
  {
    forall m | 0 <= m < |a|
      ensures a[m] == b[m]
    {
      MultipleShift(s, d, m, 1);
    }
  }

  /** The mean of a list with itself is the list. */
  lemma MeanSelf(a: seq<real>)
    ensures Mean(a, a) == a
  {
  }

  /** Both sweeps over `n` uniform positions `s + (m + 1) * d`, continued
      by `d` on both sides, give back the positions before the last. */
  lemma SweepsOfUniform(s: real, d: real, first: real, last: real, goalLeft: real, goalRight: real, n: nat, middle: seq<real>)
    requires n > 1 && |middle| == n - 1
    requires first == s + d && last == s + n as real * d && goalLeft == d && goalRight == d
    requires forall m :: 0 <= m < n - 1 ==> middle[m] == s + (m + 1) as real * d
    ensures Mean(LeftSweep(first, d, goalLeft, n, 0, s), RightSweep(first, d, goalRight, n, n - 2, last)) == middle
  {
    var left := LeftSweep(first, d, d, n, 0, s);
    var right := RightSweep(first, d, d, n, n - 2, last);
    LeftSweepUniform(first, d, n, 0, s);
    MultipleShift(s, d, n - 2, 2);
    RightSweepUniform(first, d, n, n - 2, last);
    UniformListsEqual(left, middle, s, first, d);
    UniformListsEqual(right, middle, s, first, d);
    MeanSelf(middle);
  }

  /** An interpolating region whose positions are already uniform, and
      whose neighbouring blocks continue its spacing on both sides, is left
      as it is: both sweeps reproduce the uniform positions. */
  lemma UniformInterior(positions: seq<real>, region: Region)
    requires Fits(positions, region) && Interpolates(region)
    requires GoalLeft(positions, region) == Spacing(region)
    requires GoalRight(positions, region) == Spacing(region)
    requires forall p :: region.firstBlock <= p <= region.lastBlock ==>
      positions[p] == PositionBefore(positions, region) + (p - region.firstBlock + 1) as real * Spacing(region)
    ensures InteriorPositions(positions, region) == positions[region.firstBlock..region.lastBlock]
  {
    var cb, lb := region.firstBlock, region.lastBlock;
    var n := region.blocks;
    var d := Spacing(region);
    var s := PositionBefore(positions, region);
    var first, last := positions[cb], positions[lb];
    assert first == s + d;
    assert last == s + n as real * d;
    var middle := positions[cb..lb];
    forall m | 0 <= m < |middle|
      ensures middle[m] == s + (m + 1) as real * d
    {
      assert middle[m] == positions[cb + m];
    }
    SweepsOfUniform(s, d, first, last, GoalLeft(positions, region), GoalRight(positions, region), n, middle);
  }

  /** A region that is already uniform, with neighbouring blocks that
      continue its spacing on both sides, leaves the whole position list
      unchanged: if it interpolates, the sweeps reproduce its interior;
      if it does not, nothing is rewritten. */
  lemma InterpolateRegionFixedPoint(positions: seq<real>, region: Region)
    requires Fits(positions, region)
    requires GoalLeft(positions, region) == Spacing(region)
    requires GoalRight(positions, region) == Spacing(region)
    requires forall p :: region.firstBlock <= p <= region.lastBlock ==>
      positions[p] == PositionBefore(positions, region) + (p - region.firstBlock + 1) as real * Spacing(region)
    ensures InterpolateRegion(positions, region) == positions
  {
    if Interpolates(region) {
      UniformInterior(positions, region);
      var cb, lb := region.firstBlock, region.lastBlock;
      assert positions[..cb] + positions[cb..lb] + positions[lb..] == positions;
    }
  }

  /** A single interpolating region spanning the whole axis leaves the
      uniform positions unchanged: block `p` ends at `(p + 1) * L / N`. */
  lemma SingleInterpolatingRegionUnchanged(spec: RegionSpec, dimension: real, blockNr: int)
    requires spec.kind == "interpolating" && blockNr > 0
    ensures Partitioned(Normalise([spec], dimension, blockNr), dimension, blockNr)
    ensures
      var regions := Normalise([spec], dimension, blockNr);
      var linear := LinearPositions(regions, dimension, blockNr);
      && InterpolationPass(regions, dimension, blockNr, linear) == linear
      && forall p :: 0 <= p < blockNr ==> linear[p] == (p + 1) as real * (dimension / blockNr as real)
  {
    var regions := Normalise([spec], dimension, blockNr);
    ValidSpecsPartition([spec], dimension, blockNr);
    var region := regions[0];
    assert region.firstBlock == 0 && region.lastBlock == blockNr - 1;
    assert region.start == 0.0 && region.width == dimension && region.blocks == blockNr;
    var linear := LinearPositions(regions, dimension, blockNr);
    forall p | 0 <= p < blockNr
      ensures linear[p] == (p + 1) as real * (dimension / blockNr as real)
    {
      assert InRegion(regions, 0, p);
    }
    InterpolateRegionFixedPoint(linear, region);
    assert InterpolateFrom(regions, dimension, blockNr, 1, linear) == linear;
  }

  /** Without interpolating regions the pass keeps the linear positions. */
  lemma NoInterpolationKeepsPositions(regions: seq<Region>, dimension: real, blockNr: int, positions: seq<real>)
    requires Partitioned(regions, dimension, blockNr) && |positions| == blockNr
    requires forall k :: 0 <= k < |regions| ==> !Interpolates(regions[k])
    ensures InterpolationPass(regions, dimension, blockNr, positions) == positions
  {
    var r := InterpolationPass(regions, dimension, blockNr, positions);
    InterpolationKeepsEnds(regions, dimension, blockNr, positions);
    forall p | 0 <= p < blockNr
      ensures r[p] == positions[p]
    {
      var j := RegionOf(regions, dimension, blockNr, 0, p);
      assert InRegion(regions, j, p);
    }
  }
}
