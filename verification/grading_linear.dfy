/** Step 2 of the block grading of one axis: block end positions laid out
    at uniform spacing inside each normalised region. */
module GradingLinear {
  import opened GradingRegions

  /** `n` positions `delta` apart, the first one `delta` after `p0`: the
      last one is `n` steps of `delta` from `p0`. */
  function UniformRun(p0: real, delta: real, n: nat): (run: seq<real>)
    ensures |run| == n
    ensures n > 0 ==> run[0] - p0 == delta
    ensures n > 0 ==> run[n - 1] == p0 + n as real * delta
  {
    seq(n, i requires 0 <= i < n => p0 + (i + 1) as real * delta)
  }

  /** Consecutive positions of a run are exactly `delta` apart. */
  lemma UniformRunSteps(p0: real, delta: real, n: nat, i: nat)
    requires 0 < i < n
    ensures UniformRun(p0, delta, n)[i] - UniformRun(p0, delta, n)[i - 1] == delta
  {
    var x := i as real;
    assert UniformRun(p0, delta, n)[i] == p0 + (x + 1.0) * delta;
    assert UniformRun(p0, delta, n)[i - 1] == p0 + x * delta;
  }

  /** The position laid out last, or 0 before the first block. */
  function LastOrZero(acc: seq<real>): real {
    if |acc| > 0 then acc[|acc| - 1] else 0.0
  }

  /** The width of each of `blocks` equal blocks spanning `width`. */
  function UniformSpacing(width: real, blocks: int): real
    requires blocks > 0
  {
    width / blocks as real
  }

  /** The uniform spacing of a region. */
  function Spacing(region: Region): real
    requires region.blocks > 0
  {
    UniformSpacing(region.width, region.blocks)
  }

  /** The uniform end position of block `p` inside a region. */
  function UniformPosition(region: Region, p: int): real
    requires region.blocks > 0
  {
    region.start + (p - region.firstBlock + 1) as real * Spacing(region)
  }

  /** The linear loop from region `k` on; `acc` holds the positions of the
      blocks of the regions before it. */
  function LinearFrom(regions: seq<Region>, k: nat, acc: seq<real>): seq<real>
    requires k <= |regions| && Positive(regions)
    decreases |regions| - k
  {
    if k == |regions| then acc
    else
      var region := regions[k];
      LinearFrom(regions, k + 1, acc + UniformRun(LastOrZero(acc), Spacing(region), region.blocks))
  }

  /** `p` lies in region `k`'s blocks. */
  predicate InRegion(regions: seq<Region>, k: int, p: int) {
    0 <= k < |regions| && regions[k].firstBlock <= p <= regions[k].lastBlock
  }

  /** The region holding block `p`, searching from region `k` on. */
  function RegionOf(regions: seq<Region>, dimension: real, blockNr: int, k: nat, p: int): (j: nat)
    requires Partitioned(regions, dimension, blockNr)
    requires k < |regions| && regions[k].firstBlock <= p < blockNr
    ensures k <= j && InRegion(regions, j, p)
    decreases |regions| - k
  {
    if p <= regions[k].lastBlock then k
    else
      assert k < |regions| - 1;
      assert AdjacentAt(regions, k + 1);
      RegionOf(regions, dimension, blockNr, k + 1, p)
  }

  lemma SpacingTimesBlocks(region: Region)
    requires region.blocks > 0
    ensures region.start + region.blocks as real * Spacing(region) == region.start + region.width
    ensures UniformPosition(region, region.lastBlock) == region.start + region.width
      || region.lastBlock != region.firstBlock + region.blocks - 1
  {
  }

  /** The run a region appends after the earlier regions' positions ends
      at the region's end, and puts each of its blocks at its uniform
      position. */
  lemma RegionRun(region: Region, acc: seq<real>)
    requires region.blocks > 0 && region.firstBlock == |acc| && LastOrZero(acc) == region.start
    requires region.end == region.start + region.width
    requires region.lastBlock == region.firstBlock + region.blocks - 1
    ensures var acc' := acc + UniformRun(LastOrZero(acc), Spacing(region), region.blocks);
      && |acc'| == region.lastBlock + 1
      && acc'[|acc'| - 1] == region.end
      && forall p :: region.firstBlock <= p <= region.lastBlock ==> acc'[p] == UniformPosition(region, p)
  {
    var run := UniformRun(LastOrZero(acc), Spacing(region), region.blocks);
    SpacingTimesBlocks(region);
    forall p | region.firstBlock <= p <= region.lastBlock
      ensures (acc + run)[p] == UniformPosition(region, p)
    {
      assert (acc + run)[p] == run[p - |acc|];
    }
  }

  lemma {:induction false} LinearFromSpec(
    regions: seq<Region>, dimension: real, blockNr: int, k: nat, acc: seq<real>)
    requires Partitioned(regions, dimension, blockNr) && k <= |regions|
    requires |acc| == (if k == 0 then 0 else regions[k - 1].lastBlock + 1)
    requires k > 0 ==> acc[|acc| - 1] == regions[k - 1].end
    requires forall j, p :: 0 <= j < k && InRegion(regions, j, p) ==>
      0 <= p < |acc| && acc[p] == UniformPosition(regions[j], p)
    ensures |LinearFrom(regions, k, acc)| == blockNr
    ensures forall j, p :: InRegion(regions, j, p) ==>
      LinearFrom(regions, k, acc)[p] == UniformPosition(regions[j], p)
    decreases |regions| - k
  {
    ChainedBlockBounds(regions, dimension, blockNr);
    if k == |regions| {
    } else {
      var region := regions[k];
      assert region.firstBlock == |acc| by {
        if k > 0 {
          assert AdjacentAt(regions, k);
        }
      }
      assert LastOrZero(acc) == region.start by {
        if k > 0 {
          assert AdjacentAt(regions, k);
        }
      }
      var acc' := acc + UniformRun(LastOrZero(acc), Spacing(region), region.blocks);
      RegionRun(region, acc);
      forall j, p | 0 <= j < k + 1 && InRegion(regions, j, p)
        ensures 0 <= p < |acc'| && acc'[p] == UniformPosition(regions[j], p)
      {
        if j < k {
          assert regions[j].lastBlock <= regions[k - 1].lastBlock by {
            if j < k - 1 {
              assert regions[j].lastBlock < regions[k - 1].firstBlock;
            }
          }
          assert acc'[p] == acc[p];
        }
      }
      LinearFromSpec(regions, dimension, blockNr, k + 1, acc');
    }
  }

  /** The end positions of all blocks of the axis after the linear pass:
      one per block, and inside each region `start + (i + 1) * width /
      blocks` for its `i`-th block. */
  function LinearPositions(regions: seq<Region>, dimension: real, blockNr: int): (r: seq<real>)
    requires Partitioned(regions, dimension, blockNr)
    ensures |r| == blockNr
    ensures forall j, p :: InRegion(regions, j, p) ==>
      r[p] == regions[j].start
        + (p - regions[j].firstBlock + 1) as real * (regions[j].width / regions[j].blocks as real)
  {
    LinearFromSpec(regions, dimension, blockNr, 0, []);
    LinearFrom(regions, 0, [])
  }

  /** After the linear pass a region's last position is its end, and the
      final position is the axis length. */
  lemma LinearPassEnds(regions: seq<Region>, dimension: real, blockNr: int)
    requires Partitioned(regions, dimension, blockNr)
    ensures forall j :: 0 <= j < |regions| ==>
      LinearPositions(regions, dimension, blockNr)[regions[j].lastBlock] == regions[j].end
    ensures LinearPositions(regions, dimension, blockNr)[blockNr - 1] == dimension
  {
    var P := LinearPositions(regions, dimension, blockNr);
    forall j | 0 <= j < |regions|
      ensures P[regions[j].lastBlock] == regions[j].end
    {
      assert InRegion(regions, j, regions[j].lastBlock);
      SpacingTimesBlocks(regions[j]);
    }
    assert P[regions[|regions| - 1].lastBlock] == regions[|regions| - 1].end;
  }

  /** The start of block `p`: the end of block `p - 1`, or 0 for the first. */
  function Previous(positions: seq<real>, p: int): real
    requires 0 <= p < |positions|
  {
    if p == 0 then 0.0 else positions[p - 1]
  }

  /** The width of block `p`: its end less its start. */
  function Gap(positions: seq<real>, p: int): real
    requires 0 <= p < |positions|
  {
    positions[p] - Previous(positions, p)
  }

  /** Inside a region consecutive uniform positions are one spacing apart,
      and the first is one spacing after the region's start. */
  lemma UniformStep(region: Region, p: int)
    requires region.blocks > 0
    ensures UniformPosition(region, p) - UniformPosition(region, p - 1) == Spacing(region)
    ensures UniformPosition(region, region.firstBlock) == region.start + Spacing(region)
  {
    var x := (p - region.firstBlock) as real;
    assert UniformPosition(region, p) == region.start + (x + 1.0) * Spacing(region);
    assert UniformPosition(region, p - 1) == region.start + x * Spacing(region);
  }

  /** After the linear pass every block of a region is as wide as the
      region's spacing, the first block of the region included. */
  lemma LinearBlockWidths(regions: seq<Region>, dimension: real, blockNr: int, j: int, p: int)
    requires Partitioned(regions, dimension, blockNr) && InRegion(regions, j, p)
    ensures Gap(LinearPositions(regions, dimension, blockNr), p) == Spacing(regions[j])
  {
    var P := LinearPositions(regions, dimension, blockNr);
    var region := regions[j];
    UniformStep(region, p);
    assert P[p] == UniformPosition(region, p);
    if p > region.firstBlock {
      assert InRegion(regions, j, p - 1);
      assert P[p - 1] == UniformPosition(region, p - 1);
    } else if j > 0 {
      assert AdjacentAt(regions, j);
      assert P[p - 1] == regions[j - 1].end by {
        LinearPassEnds(regions, dimension, blockNr);
      }
    }
  }

  /** A sequence whose neighbours increase is increasing. */
  lemma {:induction false} StepwiseIncreasing(s: seq<real>, p: nat, q: nat)
    requires forall i :: 0 < i < |s| ==> s[i - 1] < s[i]
    requires p < q < |s|
    ensures s[p] < s[q]
    decreases q - p
  {
    if q > p + 1 {
      StepwiseIncreasing(s, p, q - 1);
    }
  }

  lemma NeighbourIncrease(regions: seq<Region>, dimension: real, blockNr: int, i: int)
    requires Partitioned(regions, dimension, blockNr)
    requires forall k :: 0 <= k < |regions| ==> regions[k].width > 0.0
    requires 0 < i < blockNr
    ensures LinearPositions(regions, dimension, blockNr)[i - 1] < LinearPositions(regions, dimension, blockNr)[i]
  {
    var P := LinearPositions(regions, dimension, blockNr);
    assert regions[0].firstBlock == 0;
    var j := RegionOf(regions, dimension, blockNr, 0, i);
    var region := regions[j];
    var d := Spacing(region);
    assert d > 0.0;
    assert P[i] == region.start + (i - region.firstBlock + 1) as real * d;
    if i == region.firstBlock {
      assert j > 0 && AdjacentAt(regions, j);
      LinearPassEnds(regions, dimension, blockNr);
      assert P[i - 1] == regions[j - 1].end;
    } else {
      assert InRegion(regions, j, i - 1);
      var x := (i - region.firstBlock) as real;
      assert P[i - 1] == region.start + x * d;
      assert P[i] == region.start + (x + 1.0) * d;
    }
  }

  /** With positive region widths the linear positions increase strictly,
      starting above 0. */
  lemma LinearPositionsIncrease(regions: seq<Region>, dimension: real, blockNr: int)
    requires Partitioned(regions, dimension, blockNr)
    requires forall k :: 0 <= k < |regions| ==> regions[k].width > 0.0
    ensures LinearPositions(regions, dimension, blockNr)[0] > 0.0
    ensures forall p, q :: 0 <= p < q < blockNr ==>
      LinearPositions(regions, dimension, blockNr)[p] < LinearPositions(regions, dimension, blockNr)[q]
  {
    var P := LinearPositions(regions, dimension, blockNr);
    assert InRegion(regions, 0, 0);
    assert P[0] == regions[0].start + 1.0 * Spacing(regions[0]);
    forall i | 0 < i < |P|
      ensures P[i - 1] < P[i]
    {
      NeighbourIncrease(regions, dimension, blockNr, i);
    }
    forall p, q | 0 <= p < q < blockNr
      ensures P[p] < P[q]
    {
      StepwiseIncreasing(P, p, q);
    }
  }
}
