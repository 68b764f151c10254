/** `ListBlocks`: the bounded, descending window of block metas below the tip. */
module Blocks {
  import opened Wrappers
  import opened Integers
  import opened RpcTypes

  /** The most block heights one call fetches beyond the top of the window. */
  const MaxBlockLookback: uint64 := 100

  /** The block store's `LoadBlockMeta`, indexed by an `int64` height; `None` is nil. */
  type BlockStore = int64 -> Option<BlockMeta>

  datatype ResultListBlocks = ResultListBlocks(lastHeight: uint64, blockMetas: seq<Option<BlockMeta>>)

  /** The heights `hi, hi - 1, ..., lo`; empty when `hi < lo`. */
  function DescendingRange(hi: int, lo: int): (heights: seq<int>)
    decreases hi - lo
  {
    if hi < lo then [] else [hi] + DescendingRange(hi - 1, lo)
  }

  lemma {:induction false} DescendingRangeAt(hi: int, lo: int)
    ensures |DescendingRange(hi, lo)| == if hi < lo then 0 else hi - lo + 1
    ensures forall i :: 0 <= i < |DescendingRange(hi, lo)| ==> DescendingRange(hi, lo)[i] == hi - i
    decreases hi - lo
  {
    if hi >= lo {
      DescendingRangeAt(hi - 1, lo);
    }
  }

  /** Lowering the bottom by one appends that height at the end. */
  lemma {:induction false} DescendingRangeExtend(hi: int, lo: int)
    requires lo <= hi + 1
    ensures DescendingRange(hi, lo - 1) == DescendingRange(hi, lo) + [lo - 1]
    decreases hi - lo
  {
    if hi >= lo {
      DescendingRangeExtend(hi - 1, lo);
    }
  }

  /** The top of the window: the requested max, or the tip when it is 0 or above the tip. */
  function EffectiveMax(tip: nat, maxHeight: nat): (top: int)
  {
    if maxHeight == 0 || maxHeight > tip then tip else maxHeight
  }

  /** The requested min, with 0 read as 1. */
  function RequestedMin(minHeight: nat): (lo: int)
  {
    if minHeight == 0 then 1 else minHeight
  }

  /** The bottom of the window: the requested min, raised so that the window spans at
      most `MaxBlockLookback` heights below its top. */
  function EffectiveMin(tip: nat, minHeight: nat, maxHeight: nat): (bottom: int)
  {
    var lo := RequestedMin(minHeight);
    var floor := EffectiveMax(tip, maxHeight) - MaxBlockLookback as int;
    if lo < floor then floor else lo
  }

  /** The heights whose metas `ListBlocks` returns, in the order it returns them. */
  function ListedHeights(tip: nat, minHeight: nat, maxHeight: nat): (heights: seq<int>)
  {
    DescendingRange(EffectiveMax(tip, maxHeight), EffectiveMin(tip, minHeight, maxHeight))
  }

  /** The metas of `heights`, each loaded at Go's `int64(height)`. */
  function FetchMetas(heights: seq<int>, load: BlockStore): (metas: seq<Option<BlockMeta>>)
    ensures |metas| == |heights|
    ensures forall i :: 0 <= i < |heights| ==> metas[i] == load(WrapInt64(heights[i]))
  {
    seq(|heights|, i requires 0 <= i < |heights| => load(WrapInt64(heights[i])))
  }

  lemma FetchMetasSnoc(heights: seq<int>, h: int, load: BlockStore)
    ensures FetchMetas(heights + [h], load) == FetchMetas(heights, load) + [load(WrapInt64(h))]
  {
  }

  /** `ListBlocks`: clamp the requested range in place, then walk it downward from the
      top, appending one meta per height. */
  method ListBlocks(tip: uint64, minHeight: uint64, maxHeight: uint64, load: BlockStore)
    returns (r: ResultListBlocks)
    ensures r.lastHeight == tip
    ensures r.blockMetas == FetchMetas(ListedHeights(tip as int, minHeight as int, maxHeight as int), load)
    ensures |r.blockMetas| <= MaxBlockLookback as int + 1
  {
    var latestHeight := tip;
    var minH, maxH := minHeight, maxHeight;
    if minH == 0 {
      minH := 1;
    }
    if maxH == 0 || latestHeight < maxH {
      maxH := latestHeight;
    }
    if maxH > minH && maxH - minH > MaxBlockLookback {
      minH := maxH - MaxBlockLookback;
    }
    assert maxH as int == EffectiveMax(tip as int, maxHeight as int);
    assert minH as int == EffectiveMin(tip as int, minHeight as int, maxHeight as int);

    var blockMetas: seq<Option<BlockMeta>> := [];
    var height := maxH;
    while height >= minH
      invariant height <= maxH
      invariant maxH >= minH ==> height as int + 1 >= minH as int
      invariant maxH < minH ==> height == maxH
      invariant blockMetas == FetchMetas(DescendingRange(maxH as int, height as int + 1), load)
      decreases height
    {
      DescendingRangeExtend(maxH as int, height as int + 1);
      FetchMetasSnoc(DescendingRange(maxH as int, height as int + 1), height as int, load);
      blockMetas := blockMetas + [load(WrapInt64(height as int))];
      height := height - 1;
    }
    r := ResultListBlocks(latestHeight, blockMetas);
    ListBlocksShape(tip as int, minHeight as int, maxHeight as int);
  }

  /** The window is contiguous and strictly descending from its top, never reaches height
      0 or above the tip, and holds at most `MaxBlockLookback + 1` heights. Its top is the
      tip when the caller passes 0 or a height above the tip, and the caller's max otherwise. */
  lemma ListBlocksShape(tip: nat, minHeight: nat, maxHeight: nat)
    ensures var hs := ListedHeights(tip, minHeight, maxHeight);
      && |hs| <= MaxBlockLookback as int + 1
      && (forall i :: 0 <= i < |hs| ==> hs[i] == EffectiveMax(tip, maxHeight) - i)
      && (forall i :: 0 <= i < |hs| ==> 1 <= hs[i] <= tip)
    ensures EffectiveMax(tip, maxHeight) <= tip
    ensures var hs := ListedHeights(tip, minHeight, maxHeight);
      |hs| > 0 ==> hs[0] == if maxHeight == 0 || maxHeight > tip then tip else maxHeight
  {
    DescendingRangeAt(EffectiveMax(tip, maxHeight), EffectiveMin(tip, minHeight, maxHeight));
  }

  /** Strictly descending, consecutive heights. */
  lemma ListBlocksDescending(tip: nat, minHeight: nat, maxHeight: nat, i: int, j: int)
    requires 0 <= i < j < |ListedHeights(tip, minHeight, maxHeight)|
    ensures ListedHeights(tip, minHeight, maxHeight)[i] > ListedHeights(tip, minHeight, maxHeight)[j]
    ensures ListedHeights(tip, minHeight, maxHeight)[i + 1] == ListedHeights(tip, minHeight, maxHeight)[i] - 1
  {
    ListBlocksShape(tip, minHeight, maxHeight);
  }

  /** The number of metas is the requested (post-default) range's size, capped at
      `MaxBlockLookback + 1`. */
  lemma ListBlocksCount(tip: nat, minHeight: nat, maxHeight: nat)
    ensures var top, lo := EffectiveMax(tip, maxHeight), RequestedMin(minHeight);
      |ListedHeights(tip, minHeight, maxHeight)| ==
        if top < lo then 0
        else if top - lo + 1 < MaxBlockLookback as int + 1 then top - lo + 1
        else MaxBlockLookback as int + 1
  {
    DescendingRangeAt(EffectiveMax(tip, maxHeight), EffectiveMin(tip, minHeight, maxHeight));
  }

  /** The result is empty exactly when the defaulted min lies above the window's top; in
      particular when the tip is 0. */
  lemma ListBlocksEmpty(tip: nat, minHeight: nat, maxHeight: nat)
    ensures ListedHeights(tip, minHeight, maxHeight) == [] <==>
      EffectiveMax(tip, maxHeight) < RequestedMin(minHeight)
    ensures tip == 0 ==> ListedHeights(tip, minHeight, maxHeight) == []
  {
    DescendingRangeAt(EffectiveMax(tip, maxHeight), EffectiveMin(tip, minHeight, maxHeight));
  }

  /** Below 2^63 the block store is asked for exactly the listed heights. */
  lemma ListBlocksLoadsHeights(tip: nat, minHeight: nat, maxHeight: nat, load: BlockStore, i: int)
    requires tip < INT64_LIMIT
    requires 0 <= i < |ListedHeights(tip, minHeight, maxHeight)|
    ensures 1 <= ListedHeights(tip, minHeight, maxHeight)[i] <= tip
    ensures FetchMetas(ListedHeights(tip, minHeight, maxHeight), load)[i] ==
      load(ListedHeights(tip, minHeight, maxHeight)[i])
  {
    ListBlocksShape(tip, minHeight, maxHeight);
    WrapInt64Small(ListedHeights(tip, minHeight, maxHeight)[i]);
  }

  /** With tip 50 and both bounds 0, the window is all of 50 down to 1. */
  lemma ListBlocksWholeChain()
    ensures ListedHeights(50, 0, 0) == DescendingRange(50, 1)
    ensures |ListedHeights(50, 0, 0)| == 50
  {
    ListBlocksCount(50, 0, 0);
  }

  /** With tip 300 and range [1, 250], the window keeps the top: 250 down to 150. */
  lemma ListBlocksTruncated()
    ensures var hs := ListedHeights(300, 1, 250);
      |hs| == 101 && hs[0] == 250 && hs[100] == 150
  {
    ListBlocksShape(300, 1, 250);
    ListBlocksCount(300, 1, 250);
  }

  /** At a tip of 2^64 - 1 the top height does not fit an `int64`: the block store is
      asked for height -1. */
  lemma ListBlocksHugeTip(load: BlockStore)
    ensures var metas := FetchMetas(ListedHeights(UINT64_LIMIT - 1, 0, 0), load);
      |metas| == MaxBlockLookback as int + 1 && metas[0] == load(-1)
  {
    ListBlocksShape(UINT64_LIMIT - 1, 0, 0);
    ListBlocksCount(UINT64_LIMIT - 1, 0, 0);
    WrapInt64Large((UINT64_LIMIT - 1) as uint64);
  }
}
