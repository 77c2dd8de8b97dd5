/** Step 1 of the block grading of one axis: the user's ordered grading
    regions become an exact partition of the axis length and of the block
    count, the last region taking whatever remains. */
module GradingRegions {

  /** A region as declared for an axis. For the last region of an axis the
      declared `width` and `blocks` are ignored: it takes the remainder. */
  datatype RegionSpec = RegionSpec(width: real, blocks: int, kind: string)

  /** A normalised region: the span `[start, end]` of the axis of length
      `width`, holding the blocks `firstBlock .. lastBlock`. */
  datatype Region = Region(
    start: real,
    end: real,
    width: real,
    blocks: int,
    firstBlock: int,
    lastBlock: int,
    kind: string)

  /** The regions tile the axis `[0, dimension]` and the blocks
      `0 .. blockNr - 1` in order, each region's end being the next one's
      start and its last block preceding the next one's first block. */
  predicate Chained(r: seq<Region>, dimension: real, blockNr: int) {
    && |r| > 0
    && r[0].start == 0.0 && r[0].firstBlock == 0
    && (forall k :: 0 <= k < |r| ==>
          r[k].end == r[k].start + r[k].width && r[k].lastBlock == r[k].firstBlock + r[k].blocks - 1)
    && (forall k :: 0 < k < |r| ==> AdjacentAt(r, k))
    && r[|r| - 1].end == dimension && r[|r| - 1].lastBlock == blockNr - 1
  }

  /** Region `b` follows region `a` directly on the axis and in the block
      numbering. */
  predicate Adjacent(a: Region, b: Region) {
    b.start == a.end && b.firstBlock == a.lastBlock + 1
  }

  /** Region `k` of `r` directly follows region `k - 1`. */
  predicate AdjacentAt(r: seq<Region>, k: int)
    requires 0 < k < |r|
  {
    Adjacent(r[k - 1], r[k])
  }

  /** Every region holds at least one block (the grading divides by the
      block count of each region). */
  predicate Positive(r: seq<Region>) {
    forall k :: 0 <= k < |r| ==> r[k].blocks > 0
  }

  /** Chained regions that each hold a block, so that every region's blocks
      lie in `0 .. blockNr - 1` (which `ChainedBlockBounds` derives). */
  predicate Partitioned(r: seq<Region>, dimension: real, blockNr: int) {
    && Chained(r, dimension, blockNr)
    && Positive(r)
    && (forall k :: 0 <= k < |r| ==> 0 <= r[k].firstBlock <= r[k].lastBlock < blockNr)
  }

  /** The normalisation loop from region `rI` on, with `widthTot` the width
      and `currentBlock` the blocks of the regions before it (the source's
      `blockTot` equals `currentBlock` whenever it is read). */
  function NormaliseFrom(
    specs: seq<RegionSpec>, dimension: real, blockNr: int,
    rI: nat, widthTot: real, currentBlock: int): (r: seq<Region>)
    requires rI <= |specs|
    ensures |r| == |specs| - rI
    ensures |r| > 0 ==> r[0].start == widthTot && r[0].firstBlock == currentBlock
    ensures forall k :: 0 <= k < |r| ==>
      r[k].end == r[k].start + r[k].width && r[k].lastBlock == r[k].firstBlock + r[k].blocks - 1
    ensures forall k :: 0 < k < |r| ==> AdjacentAt(r, k)
    ensures forall k :: 0 <= k < |r| ==> r[k].kind == specs[rI + k].kind
    ensures forall k :: 0 <= k < |r| - 1 ==>
      r[k].width == specs[rI + k].width && r[k].blocks == specs[rI + k].blocks
    ensures |r| > 0 ==> r[|r| - 1].end == dimension && r[|r| - 1].lastBlock == blockNr - 1
    decreases |specs| - rI
  {
    if rI == |specs| then []
    else if rI < |specs| - 1 then
      var width := specs[rI].width;
      var blocks := specs[rI].blocks;
      var region := Region(widthTot, widthTot + width, width, blocks,
                           currentBlock, currentBlock + blocks - 1, specs[rI].kind);
      var rest := NormaliseFrom(specs, dimension, blockNr, rI + 1, widthTot + width, currentBlock + blocks);
      AdjacentCons(region, rest);
      var r := [region] + rest;
      assert forall k :: 0 < k < |r| ==> r[k] == rest[k - 1];
      r
    else
      var width := dimension - widthTot;
      var blocks := blockNr - currentBlock;
      [Region(widthTot, dimension, width, blocks, currentBlock, currentBlock + blocks - 1, specs[rI].kind)]
  }

  /** A region put in front of regions that follow it stays chained. */
  lemma AdjacentCons(a: Region, rest: seq<Region>)
    requires |rest| > 0 ==> Adjacent(a, rest[0])
    requires forall k :: 0 < k < |rest| ==> AdjacentAt(rest, k)
    ensures forall k :: 0 < k < |[a] + rest| ==> AdjacentAt([a] + rest, k)
  {
    var r := [a] + rest;
    forall k | 0 < k < |r|
      ensures AdjacentAt(r, k)
    {
      if k > 1 {
        assert AdjacentAt(rest, k - 1);
      }
    }
  }

  /** The normalised regions of an axis of length `dimension` holding
      `blockNr` blocks. */
  function Normalise(specs: seq<RegionSpec>, dimension: real, blockNr: int): (r: seq<Region>)
    ensures |r| == |specs|
    ensures |specs| > 0 ==> Chained(r, dimension, blockNr)
    ensures forall k :: 0 <= k < |r| ==> r[k].kind == specs[k].kind
    ensures forall k :: 0 <= k < |r| - 1 ==>
      r[k].width == specs[k].width && r[k].blocks == specs[k].blocks
  {
    NormaliseFrom(specs, dimension, blockNr, 0, 0.0, 0)
  }

  // ---------------------------------------------------------------------
  // running totals
  // ---------------------------------------------------------------------

  /** Total declared width of a list of region declarations. */
  function SpecWidthSum(s: seq<RegionSpec>): real {
    if |s| == 0 then 0.0 else SpecWidthSum(s[..|s| - 1]) + s[|s| - 1].width
  }

  /** Total declared block count of a list of region declarations. */
  function SpecBlockSum(s: seq<RegionSpec>): int {
    if |s| == 0 then 0 else SpecBlockSum(s[..|s| - 1]) + s[|s| - 1].blocks
  }

  /** Total width of a list of regions. */
  function RegionWidthSum(r: seq<Region>): real {
    if |r| == 0 then 0.0 else RegionWidthSum(r[..|r| - 1]) + r[|r| - 1].width
  }

  /** Total block count of a list of regions. */
  function RegionBlockSum(r: seq<Region>): int {
    if |r| == 0 then 0 else RegionBlockSum(r[..|r| - 1]) + r[|r| - 1].blocks
  }

  lemma {:induction false} RunningTotalsUpTo(specs: seq<RegionSpec>, dimension: real, blockNr: int, k: nat)
    requires k < |specs|
    ensures Normalise(specs, dimension, blockNr)[k].start == SpecWidthSum(specs[..k])
    ensures Normalise(specs, dimension, blockNr)[k].firstBlock == SpecBlockSum(specs[..k])
  {
    var r := Normalise(specs, dimension, blockNr);
    if k > 0 {
      RunningTotalsUpTo(specs, dimension, blockNr, k - 1);
      assert AdjacentAt(r, k);
      assert r[k - 1].width == specs[k - 1].width && r[k - 1].blocks == specs[k - 1].blocks;
      assert r[k - 1].end == r[k - 1].start + r[k - 1].width;
      assert r[k - 1].lastBlock == r[k - 1].firstBlock + r[k - 1].blocks - 1;
      assert specs[..k][..k - 1] == specs[..k - 1];
      assert SpecWidthSum(specs[..k]) == SpecWidthSum(specs[..k - 1]) + specs[k - 1].width;
      assert SpecBlockSum(specs[..k]) == SpecBlockSum(specs[..k - 1]) + specs[k - 1].blocks;
    }
  }

  /** Each region starts at the total width, and its first block is the
      total block count, of the regions declared before it; the last region
      gets the remaining width and blocks. */
  lemma NormaliseRunningTotals(specs: seq<RegionSpec>, dimension: real, blockNr: int)
    requires |specs| > 0
    ensures forall k :: 0 <= k < |specs| ==>
      Normalise(specs, dimension, blockNr)[k].start == SpecWidthSum(specs[..k])
      && Normalise(specs, dimension, blockNr)[k].firstBlock == SpecBlockSum(specs[..k])
    ensures Normalise(specs, dimension, blockNr)[|specs| - 1].width
      == dimension - SpecWidthSum(specs[..|specs| - 1])
    ensures Normalise(specs, dimension, blockNr)[|specs| - 1].blocks
      == blockNr - SpecBlockSum(specs[..|specs| - 1])
  {
    forall k | 0 <= k < |specs|
      ensures Normalise(specs, dimension, blockNr)[k].start == SpecWidthSum(specs[..k])
      ensures Normalise(specs, dimension, blockNr)[k].firstBlock == SpecBlockSum(specs[..k])
    {
      RunningTotalsUpTo(specs, dimension, blockNr, k);
    }
  }

  lemma {:induction false} ChainedPrefixTotals(r: seq<Region>, dimension: real, blockNr: int, m: nat)
    requires Chained(r, dimension, blockNr) && 0 < m <= |r|
    ensures RegionWidthSum(r[..m]) == r[m - 1].end
    ensures RegionBlockSum(r[..m]) == r[m - 1].lastBlock + 1
  {
    assert r[..m][..m - 1] == r[..m - 1];
    if m > 1 {
      ChainedPrefixTotals(r, dimension, blockNr, m - 1);
      assert AdjacentAt(r, m - 1);
    }
  }

  /** Chained regions add up to the axis: their widths sum to the axis
      length and their block counts to the axis block count. */
  lemma ChainedTotals(r: seq<Region>, dimension: real, blockNr: int)
    requires Chained(r, dimension, blockNr)
    ensures RegionWidthSum(r) == dimension
    ensures RegionBlockSum(r) == blockNr
  {
    ChainedPrefixTotals(r, dimension, blockNr, |r|);
    assert r[..|r|] == r;
  }

  // ---------------------------------------------------------------------
  // well-formed declarations
  // ---------------------------------------------------------------------

  /** The declarations leave every region, the last included, at least one
      block: each declared region has blocks, and they leave some over. */
  predicate ValidSpecs(specs: seq<RegionSpec>, blockNr: int) {
    && |specs| > 0
    && (forall k :: 0 <= k < |specs| - 1 ==> specs[k].blocks > 0)
    && SpecBlockSum(specs[..|specs| - 1]) < blockNr
  }

  /** The declarations are valid exactly when every normalised region holds
      a block. */
  lemma ValidSpecsIffPositive(specs: seq<RegionSpec>, dimension: real, blockNr: int)
    requires |specs| > 0
    ensures ValidSpecs(specs, blockNr) <==> Positive(Normalise(specs, dimension, blockNr))
  {
    var r := Normalise(specs, dimension, blockNr);
    var n := |specs| - 1;
    NormaliseRunningTotals(specs, dimension, blockNr);
    assert r[n].blocks == blockNr - SpecBlockSum(specs[..n]);
    if ValidSpecs(specs, blockNr) {
      forall k | 0 <= k < |r|
        ensures r[k].blocks > 0
      {
        if k < n {
          assert r[k].blocks == specs[k].blocks;
        }
      }
    }
    if Positive(r) {
      forall k | 0 <= k < n
        ensures specs[k].blocks > 0
      {
        assert r[k].blocks == specs[k].blocks;
      }
      assert r[n].blocks > 0;
    }
  }

  lemma {:induction false} FirstBlockNonNegative(r: seq<Region>, dimension: real, blockNr: int, k: nat)
    requires Chained(r, dimension, blockNr) && Positive(r) && k < |r|
    ensures 0 <= r[k].firstBlock
  {
    if k > 0 {
      FirstBlockNonNegative(r, dimension, blockNr, k - 1);
      assert AdjacentAt(r, k);
    }
  }

  lemma {:induction false} LastBlockBelowCount(r: seq<Region>, dimension: real, blockNr: int, k: nat)
    requires Chained(r, dimension, blockNr) && Positive(r) && k < |r|
    ensures r[k].lastBlock <= blockNr - 1
    decreases |r| - k
  {
    if k < |r| - 1 {
      LastBlockBelowCount(r, dimension, blockNr, k + 1);
      assert AdjacentAt(r, k + 1);
    }
  }

  lemma {:induction false} BlocksOrderedPair(r: seq<Region>, dimension: real, blockNr: int, k: nat, k': nat)
    requires Chained(r, dimension, blockNr) && Positive(r) && k < k' < |r|
    ensures r[k].lastBlock < r[k'].firstBlock
    decreases k' - k
  {
    assert AdjacentAt(r, k');
    if k' > k + 1 {
      BlocksOrderedPair(r, dimension, blockNr, k, k' - 1);
    }
  }

  /** In chained regions with blocks, every region's blocks lie inside
      `0 .. blockNr - 1`, and a region's blocks all come before the next
      regions' blocks. */
  lemma ChainedBlockBounds(r: seq<Region>, dimension: real, blockNr: int)
    requires Chained(r, dimension, blockNr) && Positive(r)
    ensures Partitioned(r, dimension, blockNr)
    ensures forall k :: 0 <= k < |r| ==> 0 <= r[k].firstBlock <= r[k].lastBlock < blockNr
    ensures forall k, k' :: 0 <= k < k' < |r| ==> r[k].lastBlock < r[k'].firstBlock
  {
    forall k | 0 <= k < |r|
      ensures 0 <= r[k].firstBlock <= r[k].lastBlock < blockNr
    {
      FirstBlockNonNegative(r, dimension, blockNr, k);
      LastBlockBelowCount(r, dimension, blockNr, k);
    }
    forall k, k' | 0 <= k < k' < |r|
      ensures r[k].lastBlock < r[k'].firstBlock
    {
      BlocksOrderedPair(r, dimension, blockNr, k, k');
    }
  }

  /** Valid declarations normalise to a partition of the axis. */
  lemma ValidSpecsPartition(specs: seq<RegionSpec>, dimension: real, blockNr: int)
    requires ValidSpecs(specs, blockNr)
    ensures Partitioned(Normalise(specs, dimension, blockNr), dimension, blockNr)
  {
    ValidSpecsIffPositive(specs, dimension, blockNr);
    ChainedBlockBounds(Normalise(specs, dimension, blockNr), dimension, blockNr);
  }
}
