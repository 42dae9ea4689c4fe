/**
The tree of processed blocks, the order that picks its best block, and what it means for a
ledger to represent one branch of it.
*/
module Forks {
  import opened Types
  import opened Rules
  import opened Balances
  import opened LedgerModel
  import opened LedgerDB

  // ----- which of two blocks is the tip of the better chain

  predicate Compare(ours: Stored, theirs: Stored) {
    var our, their := ours.block.header, theirs.block.header;
    if our.chainWork > their.chainWork then true
    else if our.chainWork < their.chainWork then false
    else if ours.when < theirs.when then true
    else if ours.when > theirs.when then false
    else our.id < their.id
  }

  /** Compare is a strict total order on blocks with different IDs. */
  lemma CompareIsStrictOrder(a: Stored, b: Stored, c: Stored)
    ensures !(Compare(a, b) && Compare(b, a))
    ensures Compare(a, b) && Compare(b, c) ==> Compare(a, c)
    ensures a.block.header.id != b.block.header.id ==> Compare(a, b) || Compare(b, a)
  {
  }

  /** No block of the tree beats this one. */
  ghost predicate IsBest(tree: Blocks, tip: BlockID) {
    tip in tree && forall id :: id in tree && id != tip ==> Compare(tree[tip], tree[id])
  }

  // ----- the tree

  /** Every block but genesis has its parent in the tree, one height below. */
  ghost predicate Rooted(genesis: Block, tree: Blocks) {
    && genesis.header.height == 0
    && genesis.header.id in tree && tree[genesis.header.id].block == genesis
    && (forall id :: id in tree ==> tree[id].block.header.id == id && tree[id].block.header.height >= 0)
    && (forall id {:trigger HasParent(tree, id)} :: id in tree && id != genesis.header.id ==> HasParent(tree, id))
  }

  /** The parent is in the tree, one height below. */
  ghost predicate HasParent(tree: Blocks, id: BlockID) {
    && id in tree
    && tree[id].block.header.previous in tree
    && tree[id].block.header.height == tree[tree[id].block.header.previous].block.header.height + 1
  }

  /** The blocks from genesis to the given one. */
  ghost function Branch(genesis: Block, tree: Blocks, id: BlockID): seq<Block>
    requires Rooted(genesis, tree) && id in tree
    decreases tree[id].block.header.height
  {
    if id == genesis.header.id then [genesis]
    else
      assert HasParent(tree, id);
      Branch(genesis, tree, tree[id].block.header.previous) + [tree[id].block]
  }

  /** The chain's blocks are stored under their IDs. */
  ghost predicate Holds(blocks: Blocks, chain: seq<Block>) {
    forall i :: 0 <= i < |chain| ==> chain[i].header.id in blocks && blocks[chain[i].header.id].block == chain[i]
  }

  ghost predicate Climbs(chain: seq<Block>) {
    forall i :: 0 <= i < |chain| ==> chain[i].header.height == i
  }

  lemma {:induction false} BranchFacts(genesis: Block, tree: Blocks, id: BlockID)
    requires Rooted(genesis, tree) && id in tree
    ensures var b := Branch(genesis, tree, id);
            && |b| == tree[id].block.header.height + 1
            && b[0] == genesis && b[|b| - 1] == tree[id].block
            && Holds(tree, b) && Climbs(b) && Linked(b)
    decreases tree[id].block.header.height
  {
    if id != genesis.header.id {
      assert HasParent(tree, id);
      BranchFacts(genesis, tree, tree[id].block.header.previous);
      LinkedAppend(Branch(genesis, tree, tree[id].block.header.previous), tree[id].block);
    }
  }

  /** The branch of a block on a branch is the part up to it. */
  lemma {:induction false} BranchPrefix(genesis: Block, tree: Blocks, id: BlockID, i: nat)
    requires Rooted(genesis, tree) && id in tree && i < |Branch(genesis, tree, id)|
    ensures Branch(genesis, tree, id)[i].header.id in tree
    ensures Branch(genesis, tree, Branch(genesis, tree, id)[i].header.id) == Branch(genesis, tree, id)[..i + 1]
    decreases tree[id].block.header.height
  {
    BranchFacts(genesis, tree, id);
    var b := Branch(genesis, tree, id);
    if i == |b| - 1 {
      assert b[..i + 1] == b;
    } else {
      var parent := tree[id].block.header.previous;
      assert HasParent(tree, id);
      BranchPrefix(genesis, tree, parent, i);
      assert b[..i + 1] == Branch(genesis, tree, parent)[..i + 1];
    }
  }

  /** Growing the tree does not change the branches that were there. */
  lemma {:induction false} BranchKept(genesis: Block, tree: Blocks, bigger: Blocks, id: BlockID)
    requires Rooted(genesis, tree) && Rooted(genesis, bigger) && id in tree
    requires forall x :: x in tree ==> x in bigger && bigger[x] == tree[x]
    ensures Branch(genesis, bigger, id) == Branch(genesis, tree, id)
    decreases tree[id].block.header.height
  {
    if id != genesis.header.id {
      assert HasParent(tree, id);
      BranchKept(genesis, tree, bigger, tree[id].block.header.previous);
    }
  }

  // ----- the ledger of a branch

  ghost function IDs(chain: seq<Block>): set<BlockID> {
    set i | 0 <= i < |chain| :: chain[i].header.id
  }

  /** Flagged blocks are MAIN on the chain and SIDE off it. */
  ghost function Flags(flagged: set<BlockID>, chain: seq<Block>): map<BlockID, BranchType> {
    map id | id in flagged :: if id in IDs(chain) then MAIN else SIDE
  }

  /** The ledger is exactly the one that connecting the chain builds. */
  ghost predicate Represents(prune: bool, l: Ledger, chain: seq<Block>, flagged: set<BlockID>) {
    && Shaped(chain) && Timely(chain) && Linked(chain) && Replayable(prune, chain)
    && l.core == Replay(prune, chain)
    && IDs(chain) <= flagged && l.branch == Flags(flagged, chain)
  }

  /** So the chain and the flagged blocks determine the ledger. */
  lemma RepresentsDetermines(prune: bool, l1: Ledger, l2: Ledger, chain: seq<Block>, flagged: set<BlockID>)
    requires Represents(prune, l1, chain, flagged) && Represents(prune, l2, chain, flagged)
    ensures l1 == l2
  {
  }

  lemma IDsAppend(before: seq<Block>, block: Block)
    ensures IDs(before + [block]) == IDs(before) + {block.header.id}
  {
    var chain := before + [block];
    assert forall i :: 0 <= i < |before| ==> chain[i] == before[i];
    assert chain[|before|] == block;
  }

  lemma FreshID(blocks: Blocks, before: seq<Block>, block: Block)
    requires Holds(blocks, before + [block]) && Climbs(before + [block])
    ensures block.header.id !in IDs(before)
  {
    var chain := before + [block];
    assert chain[|before|] == block;
    forall i | 0 <= i < |before| ensures before[i].header.id != block.header.id {
      assert chain[i] == before[i];
    }
  }

  lemma FlagsAppend(flagged: set<BlockID>, before: seq<Block>, block: Block)
    ensures Flags(flagged + {block.header.id}, before + [block]) == Flags(flagged, before)[block.header.id := MAIN]
  {
    IDsAppend(before, block);
  }

  lemma FlagsDrop(flagged: set<BlockID>, before: seq<Block>, block: Block)
    requires block.header.id in flagged && block.header.id !in IDs(before)
    ensures Flags(flagged, before) == Flags(flagged, before + [block])[block.header.id := SIDE]
  {
    IDsAppend(before, block);
  }

  // ----- the lookups find the chain's own blocks

  lemma LookupsFind(prune: bool, chain: seq<Block>, heights: map<int, BlockID>, blocks: Blocks)
    requires Shaped(chain) && Holds(blocks, chain)
    requires forall i :: 0 <= i < |chain| ==> i in heights && heights[i] == chain[i].header.id
    ensures MaturedAt(heights, blocks, |chain|) == Found(Matured(chain))
    ensures PrunedAt(prune, heights, blocks, |chain|) == Found(Pruned(prune, chain))
  {
    if |chain| >= COINBASE_MATURITY {
      assert SaneAt(chain, |chain| - COINBASE_MATURITY);
    }
  }

  // ----- one block up or down

  lemma ConnectValue(prune: bool, l: Ledger, blocks: Blocks, chain: seq<Block>, block: Block)
    requires Shaped(chain) && Describes(prune, chain, l.core) && Holds(blocks, chain)
    requires block.header.height == |chain|
    requires chain != [] ==> block.header.previous == chain[|chain| - 1].header.id
    ensures Connect(prune, l, blocks, block)
            == if CanConnect(l.core, block, Matured(chain)) then
                 Some(Ledger(ConnectCore(l.core, block, Matured(chain), Pruned(prune, chain)),
                             l.branch[block.header.id := MAIN]))
               else None
  {
    LookupsFind(prune, chain, l.core.heights, blocks);
  }

  /** A block on top of the chain connects exactly when its transactions can be applied. */
  lemma ConnectRepresents(prune: bool, l: Ledger, blocks: Blocks, chain: seq<Block>, flagged: set<BlockID>,
          block: Block)
    requires Represents(prune, l, chain, flagged) && Holds(blocks, chain)
    requires block.header.height == |chain| && CheckTransactions(block.txs)
    requires chain != [] ==> block.header.previous == chain[|chain| - 1].header.id
    requires AllTimely(block.txs, |chain|)
    ensures Shaped(chain + [block])
    ensures Connect(prune, l, blocks, block).Some? <==> Replayable(prune, chain + [block])
    ensures Connect(prune, l, blocks, block).Some? ==>
              Represents(prune, Connect(prune, l, blocks, block).value, chain + [block], flagged + {block.header.id})
  {
    ReplayAppend(prune, chain, block);
    ReplayDescribed(prune, chain);
    ConnectValue(prune, l, blocks, chain, block);
    if CanConnect(l.core, block, Matured(chain)) {
      var core := ConnectCore(l.core, block, Matured(chain), Pruned(prune, chain));
      RepresentsAppend(prune, chain, flagged, block, Ledger(core, l.branch[block.header.id := MAIN]), chain + [block]);
    }
  }

  lemma RepresentsAppend(prune: bool, chain: seq<Block>, flagged: set<BlockID>, block: Block, l: Ledger,
          longer: seq<Block>)
    requires longer == chain + [block]
    requires Timely(chain) && Linked(chain) && IDs(chain) <= flagged
    requires Shaped(longer) && Replayable(prune, longer) && l.core == Replay(prune, longer)
    requires chain != [] ==> block.header.previous == chain[|chain| - 1].header.id
    requires AllTimely(block.txs, |chain|)
    requires l.branch == Flags(flagged, chain)[block.header.id := MAIN]
    ensures Represents(prune, l, longer, flagged + {block.header.id})
  {
    FlagsAppend(flagged, chain, block);
    IDsAppend(chain, block);
    TimelyAppend(chain, block);
    LinkedAppend(chain, block);
  }

  lemma TimelyAppend(chain: seq<Block>, block: Block)
    requires Timely(chain) && AllTimely(block.txs, |chain|)
    ensures Timely(chain + [block])
  {
  }

  lemma LinkedAppend(chain: seq<Block>, block: Block)
    requires Linked(chain) && (chain != [] ==> block.header.previous == chain[|chain| - 1].header.id)
    ensures Linked(chain + [block])
  {
    var longer := chain + [block];
    forall i | 1 <= i < |longer| ensures LinkedAt(longer, i) {
      assert i < |chain| ==> LinkedAt(chain, i);
    }
  }

  lemma DisconnectValue(prune: bool, l: Ledger, blocks: Blocks, before: seq<Block>, block: Block)
    requires Shaped(before) && Holds(blocks, before)
    requires forall i :: 0 <= i < |before| ==> i in l.core.heights && l.core.heights[i] == before[i].header.id
    requires block.header.height == |before| && l.core.tip.Some? && l.core.tip.value.id == block.header.id
    requires CanUndoAll(l.core.balances, Effects(block.txs, Matured(before)))
    ensures Disconnect(prune, l, blocks, block)
            == Some(Ledger(DisconnectCore(l.core, block, Matured(before), Pruned(prune, before)),
                           l.branch[block.header.id := SIDE]))
  {
    LookupsFind(prune, before, l.core.heights, blocks);
  }

  lemma ConnectedHeights(core: Core, before: seq<Block>, block: Block, prune: bool, after: Core)
    requires Shaped(before) && Describes(prune, before, core) && block.header.height == |before|
    requires after == ConnectCore(core, block, Matured(before), Pruned(prune, before))
    ensures after.tip == Some(Tip(block.header.id, |before|))
    ensures forall i :: 0 <= i < |before| ==> i in after.heights && after.heights[i] == before[i].header.id
  {
  }

  /** The tip always disconnects, and leaves the ledger of the chain below it. */
  lemma DisconnectRepresents(prune: bool, l: Ledger, blocks: Blocks, before: seq<Block>, block: Block,
          flagged: set<BlockID>)
    requires before != [] && Represents(prune, l, before + [block], flagged) && Holds(blocks, before + [block])
    ensures Disconnect(prune, l, blocks, block).Some?
    ensures Represents(prune, Disconnect(prune, l, blocks, block).value, before, flagged)
  {
    SplitChain(before, block);
    ReplayAppend(prune, before, block);
    ReplayDescribed(prune, before);
    DisconnectInvertsConnect(prune, before, block);
    ConnectedHeights(Replay(prune, before), before, block, prune, l.core);
    HoldsPrefix(blocks, before, block);
    DisconnectValue(prune, l, blocks, before, block);
    FreshID(blocks, before, block);
    FlagsDrop(flagged, before, block);
    IDsAppend(before, block);
  }

  lemma SplitChain(before: seq<Block>, block: Block)
    requires before != [] && Shaped(before + [block]) && Timely(before + [block]) && Linked(before + [block])
    ensures Shaped(before) && Timely(before) && Linked(before) && Climbs(before + [block])
    ensures block.header.height == |before| && CheckTransactions(block.txs)
    ensures block.header.previous == before[|before| - 1].header.id
  {
    var chain := before + [block];
    assert chain[|before|] == block && chain[|before| - 1] == before[|before| - 1];
    ShapedAppend(before, block);
    forall i | 0 <= i < |chain| ensures chain[i].header.height == i {
      assert SaneAt(chain, i);
    }
    ValidPrefix(chain, |before|);
    assert chain[..|before|] == before;
    assert LinkedAt(chain, |before|);
    forall i | 1 <= i < |before| ensures LinkedAt(before, i) {
      assert LinkedAt(chain, i);
    }
  }

  lemma HoldsPrefix(blocks: Blocks, before: seq<Block>, block: Block)
    requires Holds(blocks, before + [block])
    ensures Holds(blocks, before)
  {
    forall i | 0 <= i < |before|
      ensures before[i].header.id in blocks && blocks[before[i].header.id].block == before[i] {
      assert (before + [block])[i] == before[i];
    }
  }
}
