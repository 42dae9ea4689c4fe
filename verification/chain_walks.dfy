/**
Walks back from a header through the block store: the median time and the target that a
block on top of a branch must have.
*/
module ChainWalks {
  import opened Types
  import opened LedgerModel
  import opened LedgerDB
  import opened MedianTime
  import opened Work
  import opened Targets
  import opened Forks

  /** Stored, climbing and linked: what a walk along a chain relies on. */
  ghost predicate Walkable(blocks: Blocks, chain: seq<Block>) {
    Holds(blocks, chain) && Climbs(chain) && Linked(chain)
  }

  lemma StepBack(blocks: Blocks, chain: seq<Block>, p: nat)
    requires Walkable(blocks, chain) && 1 <= p < |chain|
    ensures var parent := chain[p].header.previous;
            parent == chain[p - 1].header.id && parent in blocks && blocks[parent].block.header == chain[p - 1].header
  {
    assert LinkedAt(chain, p);
  }

  lemma NextTime(branch: seq<Block>, n: nat, seen: seq<int>, k: nat)
    requires 1 <= n <= |branch| && k > 0
    ensures seen + Times(branch[..n], k) == (seen + [branch[n - 1].header.time]) + Times(branch[..n - 1], k - 1)
  {
    assert branch[..n][..n - 1] == branch[..n - 1];
  }

  /** The median of the last eleven timestamps, fewer near genesis. */
  method ComputeMedianTimestamp(prevHeader: BlockHeader, store: BlockStorage, ghost branch: seq<Block>)
      returns (median: int)
    requires branch != [] && Walkable(store.blocks, branch) && branch[|branch| - 1].header == prevHeader
    requires branch[0].header.previous !in store.blocks
    ensures median == MedianOf(branch) == Median(Times(branch, 11))
  {
    var timestamps, header, i := [], prevHeader, 0;
    ghost var n := |branch|;
    assert branch[..n] == branch;
    while i < NUM_BLOCKS_FOR_MEDIAN_TIMESTAMP
      invariant 0 <= i <= NUM_BLOCKS_FOR_MEDIAN_TIMESTAMP && 1 <= n <= |branch| && header == branch[n - 1].header
      invariant timestamps + Times(branch[..n], NUM_BLOCKS_FOR_MEDIAN_TIMESTAMP - i)
                == Times(branch, NUM_BLOCKS_FOR_MEDIAN_TIMESTAMP)
    {
      NextTime(branch, n, timestamps, NUM_BLOCKS_FOR_MEDIAN_TIMESTAMP - i);
      timestamps := timestamps + [header.time];
      if n > 1 {
        StepBack(store.blocks, branch, n - 1);
      }
      if header.previous !in store.blocks {
        assert Times(branch[..n - 1], NUM_BLOCKS_FOR_MEDIAN_TIMESTAMP - i - 1) == [];
        break;
      }
      header := store.blocks[header.previous].block.header;
      n, i := n - 1, i + 1;
    }
    assert timestamps == Times(branch, NUM_BLOCKS_FOR_MEDIAN_TIMESTAMP);
    median := Sort(timestamps)[|timestamps| / 2];
  }

  /** The original rule: every 2016 blocks, from the time the last interval took. */
  method ComputeTargetBitcoin(prevHeader: BlockHeader, store: BlockStorage, ghost branch: seq<Block>)
      returns (target: nat)
    requires branch != [] && Walkable(store.blocks, branch) && branch[|branch| - 1].header == prevHeader
    ensures target == TargetBitcoin(branch)
  {
    if (prevHeader.height + 1) % RETARGET_INTERVAL != 0 {
      return prevHeader.target;
    }
    var blocksToGoBack := BlocksToGoBack(prevHeader.height);
    var firstHeader, i := prevHeader, 0;
    ghost var p := |branch| - 1;
    while i < blocksToGoBack
      invariant 0 <= i <= blocksToGoBack && p == |branch| - 1 - i && firstHeader == branch[p].header
    {
      StepBack(store.blocks, branch, p);
      firstHeader := store.blocks[firstHeader.previous].block.header;
      i, p := i + 1, p - 1;
    }
    target := Retarget(prevHeader.target, prevHeader.time - firstHeader.time);
  }

  /** The target of a block on top of a branch: from height 28861 on, its window starts on the main chain. */
  function RequiredTarget(heights: map<int, BlockID>, blocks: Blocks, branch: seq<Block>): Option<nat>
    requires branch != []
  {
    var n := |branch| - 1;
    if n < BITCOIN_CASH_RETARGET_ALGORITHM_HEIGHT then Some(TargetBitcoin(branch))
    else if n - RETARGET_SMA_WINDOW in heights && heights[n - RETARGET_SMA_WINDOW] in blocks then
      TargetBitcoinCash(branch[n].header, blocks[heights[n - RETARGET_SMA_WINDOW]].block.header)
    else None
  }

  /** When the window starts on the branch, the target is the branch's own. */
  lemma ShallowTarget(heights: map<int, BlockID>, blocks: Blocks, branch: seq<Block>)
    requires branch != [] && Walkable(blocks, branch)
    requires |branch| > BITCOIN_CASH_RETARGET_ALGORITHM_HEIGHT ==>
               var i := |branch| - 1 - RETARGET_SMA_WINDOW; i in heights && heights[i] == branch[i].header.id
    ensures RequiredTarget(heights, blocks, branch) == TargetOn(branch)
  {
  }

  /** `None` is a panic: the window start is missing, or the division is by zero. */
  method ComputeTarget(prevHeader: BlockHeader, store: BlockStorage, ledger: LedgerDisk, ghost branch: seq<Block>)
      returns (target: Option<nat>)
    requires branch != [] && Walkable(store.blocks, branch) && branch[|branch| - 1].header == prevHeader
    ensures target == RequiredTarget(ledger.heights, store.blocks, branch)
  {
    if prevHeader.height >= BITCOIN_CASH_RETARGET_ALGORITHM_HEIGHT {
      var firstHeight := prevHeader.height - RETARGET_SMA_WINDOW;
      if firstHeight !in ledger.heights || ledger.heights[firstHeight] !in store.blocks {
        return None;
      }
      var firstHeader := store.blocks[ledger.heights[firstHeight]].block.header;
      return TargetBitcoinCash(prevHeader, firstHeader);
    }
    var t := ComputeTargetBitcoin(prevHeader, store, branch);
    return Some(t);
  }
}
