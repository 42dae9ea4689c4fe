/**
The processor: one block or transaction at a time, it validates, extends or reorganises the
main chain, rolls back when a reorganisation fails, and keeps the queue in step.
*/
module BlockProcessor {
  import opened Types
  import opened Rules
  import opened Balances
  import opened LedgerModel
  import opened LedgerDB
  import opened MedianTime
  import opened Work
  import opened Targets
  import opened Forks
  import opened ChainWalks
  import opened Queue
  import opened NodeModel
  import opened Requeue

  /** The chain is the branch of its last block. */
  ghost predicate OnBranch(genesis: Block, tree: Blocks, chain: seq<Block>)
    requires Rooted(genesis, tree)
  {
    && chain != [] && chain[|chain| - 1].header.id in tree
    && Branch(genesis, tree, chain[|chain| - 1].header.id) == chain
  }

  lemma OnBranchFacts(genesis: Block, tree: Blocks, chain: seq<Block>, blocks: Blocks)
    requires Rooted(genesis, tree) && OnBranch(genesis, tree, chain) && Within(tree, blocks)
    ensures Walkable(tree, chain) && Walkable(blocks, chain) && chain[0] == genesis
  {
    BranchFacts(genesis, tree, chain[|chain| - 1].header.id);
  }

  lemma OnBranchPrefix(genesis: Block, tree: Blocks, chain: seq<Block>, n: nat)
    requires Rooted(genesis, tree) && OnBranch(genesis, tree, chain) && 1 <= n <= |chain|
    ensures OnBranch(genesis, tree, chain[..n])
  {
    BranchPrefix(genesis, tree, chain[|chain| - 1].header.id, n - 1);
    assert chain[..n][n - 1] == chain[n - 1];
  }

  // ----- where two branches part

  /** The first k blocks are common, and k is the most. */
  ghost predicate ForkAt(main: seq<Block>, side: seq<Block>, k: nat) {
    && 1 <= k <= |main| && k <= |side| && main[..k] == side[..k]
    && forall i :: k <= i < |main| && i < |side| ==> main[i].header.id != side[i].header.id
  }

  /** The IDs of a chain from its tip down to position k. */
  function DownIDs(chain: seq<Block>, k: nat): seq<BlockID>
    requires k <= |chain|
  {
    seq<BlockID>(|chain| - k, j requires 0 <= j < |chain| - k => chain[|chain| - 1 - j].header.id)
  }

  /** The IDs of a chain from position k up to its tip. */
  function UpIDs(chain: seq<Block>, k: nat): seq<BlockID>
    requires k <= |chain|
  {
    seq<BlockID>(|chain| - k, j requires 0 <= j < |chain| - k => chain[k + j].header.id)
  }

  /** Nothing is both disconnected and connected. */
  lemma ForkIsDisjoint(tree: Blocks, main: seq<Block>, side: seq<Block>, k: nat)
    requires ForkAt(main, side, k) && Holds(tree, main) && Holds(tree, side) && Climbs(main) && Climbs(side)
    ensures forall id :: id in DownIDs(main, k) ==> id !in UpIDs(side, k)
  {
    forall i, j | k <= i < |main| && k <= j < |side| ensures main[i].header.id != side[j].header.id {
      if i != j {
        assert main[i].header.height != side[j].header.height;
      }
    }
  }

  lemma SameHeaderSameBranch(genesis: Block, tree: Blocks, main: seq<Block>, side: seq<Block>, p: nat)
    requires Rooted(genesis, tree) && OnBranch(genesis, tree, main) && OnBranch(genesis, tree, side)
    requires p < |main| && p < |side| && main[p].header.id == side[p].header.id
    ensures main[..p + 1] == side[..p + 1]
  {
    BranchPrefix(genesis, tree, main[|main| - 1].header.id, p);
    BranchPrefix(genesis, tree, side[|side| - 1].header.id, p);
  }

  lemma DownOne(chain: seq<Block>, p: nat)
    requires p < |chain|
    ensures DownIDs(chain, p) == DownIDs(chain, p + 1) + [chain[p].header.id]
    ensures UpIDs(chain, p) == [chain[p].header.id] + UpIDs(chain, p + 1)
  {
  }

  /** The last block of a branch of the accepted tree, on top of the rest. */
  lemma BranchStep(cfg: Config, tree: Blocks, before: seq<Block>, block: Block, blocks: Blocks)
    requires Accepted(cfg, tree) && Within(tree, blocks) && before != []
    requires OnBranch(cfg.genesis, tree, before + [block])
    ensures OnBranch(cfg.genesis, tree, before)
    ensures Holds(blocks, before) && Holds(blocks, before + [block])
    ensures BlockOK(cfg, block) && block.header.height == |before|
    ensures block.header.previous == before[|before| - 1].header.id
    ensures var id := block.header.id;
            id in tree && id in blocks && blocks[id].block == block && tree.Keys + {id} == tree.Keys
  {
    var chain, n := before + [block], |before|;
    OnBranchFacts(cfg.genesis, tree, chain, blocks);
    OnBranchPrefix(cfg.genesis, tree, chain, n);
    assert chain[..n] == before && chain[n] == block && chain[n - 1] == before[n - 1];
    assert LinkedAt(chain, n);
    OnBranchFacts(cfg.genesis, tree, before, blocks);
    assert BlockAt(cfg, tree, block.header.id);
  }

  lemma DownAt(chain: seq<Block>, k: nat, j: nat)
    requires k <= |chain| && j < |chain| - k
    ensures |DownIDs(chain, k)| == |chain| - k && DownIDs(chain, k)[j] == chain[|chain| - 1 - j].header.id
  {
  }

  /** The next block to disconnect is the tip, and below it is what is left. */
  lemma DownStep(all: seq<Block>, k: nat, j: nat, n: nat, chain: seq<Block>)
    requires k <= |all| && j < |all| - k && n == |all| - j && chain == all[..n]
    ensures |DownIDs(all, k)| == |all| - k && DownIDs(all, k)[j] == chain[|chain| - 1].header.id
    ensures chain[..|chain| - 1] == all[..n - 1]
  {
    DownAt(all, k, j);
    TakeTake(all, n, n - 1);
  }

  lemma UpAt(chain: seq<Block>, k: nat, j: nat)
    requires k <= |chain| && j < |chain| - k
    ensures |UpIDs(chain, k)| == |chain| - k && UpIDs(chain, k)[j] == chain[k + j].header.id
  {
  }

  lemma TakeTake(chain: seq<Block>, n: nat, m: nat)
    requires m <= n <= |chain|
    ensures chain[..n][..m] == chain[..m] && chain[..|chain|] == chain
    ensures n > 0 ==> chain[..n][n - 1] == chain[n - 1]
  {
  }

  lemma OnBranchGrows(genesis: Block, tree: Blocks, bigger: Blocks, chain: seq<Block>)
    requires Rooted(genesis, tree) && Rooted(genesis, bigger) && Within(tree, bigger) && OnBranch(genesis, tree, chain)
    ensures OnBranch(genesis, bigger, chain)
  {
    BranchKept(genesis, tree, bigger, chain[|chain| - 1].header.id);
  }

  lemma FlagsAside(flagged: set<BlockID>, chain: seq<Block>, id: BlockID)
    requires id !in flagged && IDs(chain) <= flagged
    ensures Flags(flagged + {id}, chain) == Flags(flagged, chain)[id := SIDE]
  {
  }

  /** The chain with the block on top is a branch of the tree with the block. */
  lemma TipGrows(genesis: Block, tree: Blocks, block: Block, bigger: Blocks, chain: seq<Block>)
    requires Rooted(genesis, tree) && Rooted(genesis, bigger) && Within(tree, bigger)
    requires block.header.id in bigger && bigger[block.header.id].block == block
    requires OnBranch(genesis, tree, chain)
    requires block.header.previous == chain[|chain| - 1].header.id && block.header.height == |chain|
    ensures OnBranch(genesis, bigger, chain + [block])
  {
    OnBranchGrows(genesis, tree, bigger, chain);
    assert block.header.id != genesis.header.id;
    assert HasParent(bigger, block.header.id);
  }

  lemma TipOf(prune: bool, l: Ledger, chain: seq<Block>, flagged: set<BlockID>)
    requires Represents(prune, l, chain, flagged) && chain != []
    ensures l.core.tip == Some(Tip(chain[|chain| - 1].header.id, |chain| - 1))
  {
    ReplayDescribed(prune, chain);
  }

  /** A branch of the accepted tree, with a sane block on top, is shaped. */
  lemma SideIsShaped(cfg: Config, tree: Blocks, side: seq<Block>, block: Block)
    requires Accepted(cfg, tree) && OnBranch(cfg.genesis, tree, side)
    requires CheckTransactions(block.txs) && block.header.height == |side|
    ensures Shaped(side) && Shaped(side + [block])
  {
    OnBranchFacts(cfg.genesis, tree, side, tree);
    forall i | 0 <= i < |side| ensures SaneAt(side, i) {
      assert BlockAt(cfg, tree, side[i].header.id);
    }
    ShapedAppend(side, block);
  }

  /** Only when the fork is the tip itself can a walk end where it began. */
  lemma NothingMoved(main: seq<Block>, side: seq<Block>, k: nat, m: nat)
    requires ForkAt(main, side, k) && k <= m <= |side|
    ensures side[..m] == main ==> k == |main| && m == k
  {
    assert k < m && k < |main| ==> main[k] != side[..m][k];
  }

  lemma NotReplayableBeyond(prune: bool, side: seq<Block>, block: Block, m: nat, stuck: seq<Block>)
    requires Shaped(side + [block]) && m < |side| && stuck == side[..m] + [side[m]]
    requires Shaped(stuck) && !Replayable(prune, stuck)
    ensures !Replayable(prune, side + [block])
  {
    var all := side + [block];
    assert all[..m + 1] == stuck;
    ReplayablePrefix(prune, all, m + 1, stuck);
  }

  lemma OnlyGenesis(cfg: Config, tree: Blocks, main: seq<Block>, chain: seq<Block>)
    requires ValidGenesis(cfg) && Accepted(cfg, tree) && |main| == 1
    requires OnBranch(cfg.genesis, tree, main) && OnBranch(cfg.genesis, tree, chain) && IsBest(tree, main[0].header.id)
    ensures chain == main
  {
    OnBranchFacts(cfg.genesis, tree, main, tree);
    BestGenesisIsAlone(cfg, tree);
    assert chain[|chain| - 1].header.id in tree.Keys;
  }

  /** The best block can be connected again, wherever the main chain has got to. */
  lemma BestBlock(cfg: Config, tree: Blocks, before: seq<Block>, last: Block, chain: seq<Block>, blocks: Blocks)
    requires ValidGenesis(cfg) && Accepted(cfg, tree) && Within(tree, blocks) && OnBranch(cfg.genesis, tree, chain)
    requires OnBranch(cfg.genesis, tree, before + [last]) && IsBest(tree, last.header.id)
    ensures var id := last.header.id;
            && id in blocks && blocks[id].block == last && BlockOK(cfg, last) && tree[id := blocks[id]] == tree
            && (chain[|chain| - 1].header.id == id ==> chain == before + [last])
            && (chain[|chain| - 1].header.id != id ==>
                  && OnBranch(cfg.genesis, tree, before) && last.header.height == |before|
                  && before[|before| - 1].header.id == last.header.previous)
  {
    var main := before + [last];
    assert main[|before|] == last;
    OnBranchFacts(cfg.genesis, tree, main, blocks);
    assert BlockAt(cfg, tree, last.header.id);
    if before == [] {
      OnlyGenesis(cfg, tree, main, chain);
    } else {
      BranchStep(cfg, tree, before, last, blocks);
    }
  }

  /** The better of the tip and a new block is the best of the tree with it. */
  lemma BestWith(tree: Blocks, tip: BlockID, block: Block, when: int)
    requires IsBest(tree, tip) && block.header.id !in tree && tree[tip].block.header.id == tip
    ensures var bigger := tree[block.header.id := Stored(block, when)];
            if Compare(Stored(block, when), tree[tip]) then IsBest(bigger, block.header.id) else IsBest(bigger, tip)
  {
  }

  /** A block with the right header on top of its branch keeps the tree accepted. */
  lemma NextAccepted(cfg: Config, tree: Blocks, block: Block, side: seq<Block>, when: int,
                     heights: map<int, BlockID>, blocks: Blocks)
    requires Accepted(cfg, tree) && block.header.id !in tree && block.header.previous in tree
    requires side == Branch(cfg.genesis, tree, block.header.previous) && block.header.height == |side|
    requires side != [] && RequiredTarget(heights, blocks, side) == Some(block.header.target)
    requires ChainWork(block.header.target, side[|side| - 1].header.chainWork) == Some(block.header.chainWork)
    requires block.header.time > MedianOf(side) && BlockOK(cfg, block) && CheckBlock(cfg, block, when)
    ensures var bigger := tree[block.header.id := Stored(block, when)];
            Grown(tree, block, bigger) && Accepted(cfg, bigger) && Within(tree, bigger)
  {
    BranchFacts(cfg.genesis, tree, block.header.previous);
    AcceptedGrows(cfg, tree, block, tree[block.header.id := Stored(block, when)]);
  }

  lemma ParentBranch(cfg: Config, tree: Blocks, id: BlockID, blocks: Blocks)
    requires Accepted(cfg, tree) && id in tree && Within(tree, blocks)
    ensures var side := Branch(cfg.genesis, tree, id);
            && OnBranch(cfg.genesis, tree, side) && Walkable(blocks, side) && side[0] == cfg.genesis
            && side[|side| - 1] == blocks[id].block && blocks[id].block.header.id == id
            && blocks[id].block.header.height == |side| - 1
  {
    BranchFacts(cfg.genesis, tree, id);
  }

  /** Whether the target of a block on this branch comes from the branch itself: the fork is not too deep. */
  ghost predicate ShallowOn(chain: seq<Block>, side: seq<Block>) {
    |side| > BITCOIN_CASH_RETARGET_ALGORITHM_HEIGHT ==>
      var i := |side| - 1 - RETARGET_SMA_WINDOW;
      i < |chain| && chain[i].header.id == side[i].header.id
  }

  lemma TargetOnBranch(prune: bool, l: Ledger, chain: seq<Block>, flagged: set<BlockID>, side: seq<Block>,
          blocks: Blocks)
    requires Represents(prune, l, chain, flagged) && side != [] && Walkable(blocks, side)
    ensures ShallowOn(chain, side) ==> RequiredTarget(l.core.heights, blocks, side) == TargetOn(side)
  {
    ReplayDescribed(prune, chain);
    WindowOnBranch(l.core.heights, chain, side, blocks);
  }

  lemma WindowOnBranch(heights: map<int, BlockID>, chain: seq<Block>, side: seq<Block>, blocks: Blocks)
    requires forall i :: 0 <= i < |chain| ==> i in heights && heights[i] == chain[i].header.id
    requires side != [] && Walkable(blocks, side)
    ensures ShallowOn(chain, side) ==> RequiredTarget(heights, blocks, side) == TargetOn(side)
  {
    if ShallowOn(chain, side) {
      ShallowTarget(heights, blocks, side);
    }
  }

  lemma NothingYet(prune: bool)
    ensures Represents(prune, Ledger(EMPTY_CORE, map[]), [], {})
  {
  }

  lemma OnlyGenesisYet(cfg: Config, tree: Blocks, now: int)
    requires ValidGenesis(cfg) && CheckBlock(cfg, cfg.genesis, now)
        && tree == map[cfg.genesis.header.id := Stored(cfg.genesis, now)]
    ensures Accepted(cfg, tree) && OnBranch(cfg.genesis, tree, [cfg.genesis]) && IsBest(tree, cfg.genesis.header.id)
    ensures TargetsOK(cfg.genesis, tree, {})
  {
    assert BlockAt(cfg, tree, cfg.genesis.header.id);
  }

  /** The transaction index tells, of a timely transaction, whether it is confirmed, even when pruned. */
  lemma IndexTells(prune: bool, l: Ledger, chain: seq<Block>, flagged: set<BlockID>, tx: Transaction)
    requires Represents(prune, l, chain, flagged)
    ensures ID(tx) in l.core.txIndex ==> !Unconfirmed(tx, chain)
    ensures ID(tx) !in l.core.txIndex && TimelyAt(tx, |chain|) ==> Unconfirmed(tx, chain)
  {
    ReplayDescribed(prune, chain);
    PlacesFromKeys(chain, Lo(prune, |chain|));
    if ID(tx) !in l.core.txIndex && TimelyAt(tx, |chain|) {
      NeverConfirmed(prune, chain, tx);
    }
  }

  lemma NeverConfirmed(prune: bool, chain: seq<Block>, tx: Transaction)
    requires Shaped(chain) && Timely(chain) && TimelyAt(tx, |chain|)
    requires ID(tx) !in PlacesFrom(chain, Lo(prune, |chain|))
    ensures Unconfirmed(tx, chain)
  {
    var alone := Block(BlockHeader(0, 0, 0, 0, 0, 0, 0, 0, 0), [tx]);
    forall i | 0 <= i < |chain| ensures ID(tx) !in TxIDs(chain[i].txs) {
      NewBlockIsNew(prune, chain, alone, i);
      assert ID(alone.txs[0]) in TxIDs(alone.txs);
    }
  }

  lemma QueueTakes(cfg: Config, q: seq<Transaction>, chain: seq<Block>, tx: Transaction)
    requires QueueOK(cfg, q, chain) && Queueable(cfg, tx) && Unconfirmed(tx, chain)
    ensures QueueOK(cfg, q + [tx], chain)
  {
  }

  lemma WrapAdd(a: int, b: int)
    ensures Wrap64(Wrap64(a) + b) == Wrap64(a + b)
  {
  }

  lemma FeesOneMore(txs: seq<Transaction>, i: nat)
    requires i < |txs|
    ensures Fees(txs[..i + 1]) == Fees(txs[..i]) + txs[i].body.fee
  {
    assert txs[..i + 1][..i] == txs[..i];
  }

  /** What a request returns: done, an error, or a crash of the node. */
  datatype Answer = Ok | Error | Panic

  datatype Request = NewBlock(block: Block, now: int) | NewTransaction(tx: Transaction)

  /** How accepting a block ends. */
  datatype Outcome = AlreadyTip | KeptAside | Connected | Failed

  // ----- which block wins

  /** More work; or the same work, stored earlier; or the same work stored in the same second, and a smaller ID. */
  predicate Overtakes(block: Block, now: int, tip: Stored) {
    var work, tipWork := block.header.chainWork, tip.block.header.chainWork;
    || work > tipWork
    || (work == tipWork && now < tip.when)
    || (work == tipWork && now == tip.when && block.header.id < tip.block.header.id)
  }

  /** The chain moves only for a block that overtakes its tip. */
  ghost predicate Stands(main: seq<Block>, tip: Stored, block: Block, now: int, chain: seq<Block>) {
    chain == main || Overtakes(block, now, tip)
  }

  /**
  A block stored no earlier than the tip takes its place with more work, or with the same work and time
  and a smaller ID.
  */
  lemma FirstSeenStays(main: seq<Block>, tip: Stored, block: Block, now: int, chain: seq<Block>)
    requires Stands(main, tip, block, now, chain) && now >= tip.when
    ensures var work, tipWork := block.header.chainWork, tip.block.header.chainWork;
            && (chain != main ==> work >= tipWork)
            && (chain != main && work == tipWork ==> now == tip.when && block.header.id < tip.block.header.id)
  {
  }

  lemma OvertakesIffBetter(block: Block, now: int, tip: Stored)
    ensures Compare(Stored(block, now), tip) <==> Overtakes(block, now, tip)
  {
  }

  lemma BestOvertakes(before: Blocks, tip: BlockID, after: Blocks, best: BlockID)
    requires tip in before && Keeps(before, after) && IsBest(after, best)
    ensures best == tip || Overtakes(after[best].block, after[best].when, before[tip])
  {
    if best != tip {
      OvertakesIffBetter(after[best].block, after[best].when, after[tip]);
    }
  }

  // ----- what a run leaves

  /** Every block of a tree is still in a later one, as it was. */
  ghost predicate Keeps(before: Blocks, after: Blocks) {
    forall id :: id in before ==> id in after && after[id] == before[id]
  }

  /** A block that is answered for carries a flag. */
  ghost predicate AnswersFor(request: Request, r: Answer, tree: Blocks) {
    request.NewBlock? && r.Ok? ==> request.block.header.id in tree
  }

  ghost predicate AllAnswered(requests: seq<Request>, answers: seq<Answer>, tree: Blocks) {
    |answers| <= |requests| && forall i :: 0 <= i < |answers| ==> AnswersFor(requests[i], answers[i], tree)
  }

  /** Nothing new, or this block. */
  ghost predicate Grows(before: Blocks, block: Block, now: int, after: Blocks) {
    after == before || (block.header.id !in before && after == before[block.header.id := Stored(block, now)])
  }

  lemma KeepsMore(before: Blocks, block: Block, now: int, after: Blocks)
    requires Grows(before, block, now, after)
    ensures Keeps(before, after)
  {
  }

  lemma KeepsOn(first: Blocks, second: Blocks, third: Blocks)
    requires Keeps(first, second) && Keeps(second, third)
    ensures Keeps(first, third)
  {
  }

  lemma OneMoreAnswered(requests: seq<Request>, answers: seq<Answer>, r: Answer, before: Blocks, after: Blocks)
    requires |answers| < |requests| && AllAnswered(requests, answers, before) && Keeps(before, after)
    requires AnswersFor(requests[|answers|], r, after)
    ensures AllAnswered(requests, answers + [r], after)
  {
    forall i | 0 <= i < |answers| ensures AnswersFor(requests[i], answers[i], after) {
      assert AnswersFor(requests[i], answers[i], before);
    }
  }

  class Processor {
    const cfg: Config
    const store: BlockStorage
    const ledger: LedgerDisk
    const queue: TransactionQueueMemory
    ghost var chain: seq<Block>  // the main chain, genesis first
    ghost var tree: Blocks       // the blocks that carry a branch flag
    ghost var deep: set<BlockID> // the ones whose target came from a window that started off their branch

    constructor (cfg: Config)
      ensures this.cfg == cfg && Wired() && chain == [] && tree == map[]
      ensures fresh(store) && fresh(ledger) && fresh(queue) && fresh(queue.balanceCache)
      ensures store.blocks == map[] && ledger.View() == Ledger(EMPTY_CORE, map[]) && queue.txQueue == []
      ensures ValidGenesis(cfg) ==> Fresh()
    {
      this.cfg := cfg;
      var s := new BlockStorage();
      store := s;
      var l := new LedgerDisk(cfg.prune, s);
      ledger := l;
      queue := new TransactionQueueMemory(l);
      chain, tree, deep := [], map[], {};
    }

    ghost predicate Wired() {
      ledger.store == store && ledger.prune == cfg.prune && queue.ledger == ledger
    }

    /** The node, its store, its ledger and its queue are different objects. */
    lemma DifferentObjects()
      ensures var node: object, disk: object := this, store;
              && node != disk && node != ledger && node != queue && node != queue.balanceCache
              && disk != ledger && disk != queue && disk != queue.balanceCache
    {
    }

    /** The ledger represents this chain, and the queue goes with it. */
    ghost predicate Now(chain: seq<Block>, flagged: set<BlockID>)
      reads ledger, queue
    {
      && Represents(cfg.prune, ledger.View(), chain, flagged)
      && queue.Valid() && QueueOK(cfg, queue.txQueue, chain)
    }

    /** The tree is accepted and stored, and the ledger represents one of its branches. */
    ghost predicate ChainInv()
      reads this`chain, this`tree, store, ledger
    {
      && Wired() && Accepted(cfg, tree) && Within(tree, store.blocks)
      && OnBranch(cfg.genesis, tree, chain) && Represents(cfg.prune, ledger.View(), chain, tree.Keys)
    }

    ghost predicate Inv()
      reads this`chain, this`tree, store, ledger, queue
    {
      ChainInv() && queue.Valid() && QueueOK(cfg, queue.txQueue, chain)
    }

    /** The queue is what a miner may build on. */
    ghost predicate QueueReady(height: nat)
      reads ledger, queue, queue.balanceCache, queue.ledger
    {
      queue.Replayed() && Ready(ledger.balances, queue.txQueue, height)
    }

    /** Confirmed transactions leave the queue. */
    method ConfirmInQueue(block: Block, more: bool, ghost chain: seq<Block>)
      requires Wired() && queue.Valid() && QueueOK(cfg, queue.txQueue, chain)
      requires CheckTransactions(block.txs) && block.header.height == |chain|
      modifies queue, queue.balanceCache
      ensures queue.Valid() && QueueOK(cfg, queue.txQueue, chain + [block])
      ensures !more ==> QueueReady(|chain| + 1)
      ensures queue.txQueue == Left(ledger.balances, old(queue.txQueue), chain + [block], more)
    {
      var ids := IDsOf(block.txs)[1..];
      QueueUp(cfg, ledger.balances, queue.txQueue, chain, block, ids, more);
      queue.RemoveBatch(ids, block.header.height, more);
    }

    /** Connect a block on top of the chain, in the ledger. */
    method ConnectInLedger(block: Block, ghost chain: seq<Block>, ghost flagged: set<BlockID>) returns (ok: bool)
      requires Wired() && Represents(cfg.prune, ledger.View(), chain, flagged) && Holds(store.blocks, chain)
      requires BlockOK(cfg, block) && block.header.height == |chain|
      requires chain != [] ==> block.header.previous == chain[|chain| - 1].header.id
      modifies ledger
      ensures Shaped(chain + [block]) && ok == Replayable(cfg.prune, chain + [block])
      ensures if ok then Represents(cfg.prune, ledger.View(), chain + [block], flagged + {block.header.id})
              else ledger.View() == old(ledger.View())
    {
      ConnectRepresents(cfg.prune, ledger.View(), store.blocks, chain, flagged, block);
      var txIDs := ledger.ConnectBlock(block);
      ok := txIDs.Some?;
    }

    /** Connect a block on top of the chain, in the ledger and the queue. */
    method ConnectBlock(block: Block, more: bool, ghost chain: seq<Block>, ghost flagged: set<BlockID>)
        returns (ok: bool)
      requires Wired() && Now(chain, flagged) && Holds(store.blocks, chain)
      requires BlockOK(cfg, block) && block.header.height == |chain|
      requires chain != [] ==> block.header.previous == chain[|chain| - 1].header.id
      modifies ledger, queue, queue.balanceCache
      ensures Shaped(chain + [block]) && ok == Replayable(cfg.prune, chain + [block])
      ensures !ok ==> ledger.View() == old(ledger.View()) && unchanged(queue) && unchanged(queue.balanceCache)
      ensures ok ==> Now(chain + [block], flagged + {block.header.id})
      ensures ok && !more ==> QueueReady(|chain| + 1)
      ensures ok ==> queue.txQueue == Left(ledger.balances, old(queue.txQueue), chain + [block], more)
    {
      ok := ConnectInLedger(block, chain, flagged);
      if ok {
        ConfirmInQueue(block, more, chain);
      }
    }

    /** Disconnect the tip, in the ledger and the queue. */
    method DisconnectBlock(block: Block, ghost before: seq<Block>, ghost flagged: set<BlockID>)
      requires Wired() && before != [] && Now(before + [block], flagged)
      requires Holds(store.blocks, before + [block]) && BlockOK(cfg, block)
      modifies ledger, queue
      ensures Now(before, flagged) && queue.txQueue == block.txs[1..] + old(queue.txQueue)
    {
      ReplayDescribed(cfg.prune, before + [block]);
      DisconnectRepresents(cfg.prune, ledger.View(), store.blocks, before, block, flagged);
      QueueDisconnected(cfg, queue.txQueue, before, block);
      PaymentsInFront(cfg, queue.txQueue, before, block);
      var txIDs := ledger.DisconnectBlock(block);
      queue.AddBatch(block.txs[1..]);
    }

    /** Walk back from the tip of a chain to a height, collecting the IDs above it. */
    method WalkBack(tipID: BlockID, minHeight: nat, ghost chain: seq<Block>)
        returns (down: seq<BlockID>, up: seq<BlockID>, ancestorID: BlockID, ancestor: BlockHeader)
      requires Walkable(store.blocks, chain) && minHeight < |chain| && chain[|chain| - 1].header.id == tipID
      ensures ancestorID == chain[minHeight].header.id && ancestor == chain[minHeight].header
      ensures down == DownIDs(chain, minHeight + 1) && up == UpIDs(chain, minHeight + 1)
    {
      ghost var p: nat := |chain| - 1;
      assert chain[p].header.id == tipID;
      down, up, ancestorID, ancestor := [], [], tipID, store.blocks[tipID].block.header;
      while ancestor.height > minHeight
        invariant minHeight <= p < |chain| && ancestor == chain[p].header && ancestorID == chain[p].header.id
        invariant down == DownIDs(chain, p + 1) && up == UpIDs(chain, p + 1)
        decreases p
      {
        StepBack(store.blocks, chain, p);
        DownOne(chain, p);
        down, up := down + [ancestorID], [ancestorID] + up;
        ancestorID := ancestor.previous;
        ancestor := store.blocks[ancestorID].block.header;
        p := p - 1;
      }
    }

    /** Walk two chains back in step until they meet. */
    method WalkBoth(id1: BlockID, id2: BlockID, down0: seq<BlockID>, up0: seq<BlockID>,
                    ghost main: seq<Block>, ghost side: seq<Block>, ghost top: nat)
        returns (down: seq<BlockID>, up: seq<BlockID>, ghost p: nat)
      requires Walkable(store.blocks, main) && Walkable(store.blocks, side) && top < |main| && top < |side|
      requires main[0] == side[0] && id1 == main[top].header.id && id2 == side[top].header.id
      requires down0 == DownIDs(main, top + 1) && up0 == UpIDs(side, top + 1)
      ensures p <= top && main[p].header == side[p].header
      ensures down == DownIDs(main, p + 1) && up == UpIDs(side, p + 1)
      ensures forall i :: p < i <= top ==> main[i].header.id != side[i].header.id
    {
      var tipAncestorID, newAncestorID := id1, id2;
      var tipAncestor, newAncestor := store.blocks[id1].block.header, store.blocks[id2].block.header;
      down, up, p := down0, up0, top;
      while newAncestor != tipAncestor
        invariant p <= top && tipAncestor == main[p].header && tipAncestorID == main[p].header.id
        invariant newAncestor == side[p].header && newAncestorID == side[p].header.id
        invariant down == DownIDs(main, p + 1) && up == UpIDs(side, p + 1)
        invariant forall i :: p < i <= top ==> main[i].header.id != side[i].header.id
        decreases p
      {
        StepBack(store.blocks, main, p);
        StepBack(store.blocks, side, p);
        DownOne(main, p);
        DownOne(side, p);
        down, up := down + [tipAncestorID], [newAncestorID] + up;
        tipAncestorID, newAncestorID := tipAncestor.previous, newAncestor.previous;
        tipAncestor, newAncestor := store.blocks[tipAncestorID].block.header, store.blocks[newAncestorID].block.header;
        p := p - 1;
      }
    }

    /** Find the highest common ancestor, what to disconnect down to it, and what to connect above it. */
    method FindFork(tipID: BlockID, previous: BlockID, ghost tree: Blocks, ghost main: seq<Block>,
            ghost side: seq<Block>)
        returns (toDisconnect: seq<BlockID>, toConnect: seq<BlockID>, ghost k: nat)
      requires Rooted(cfg.genesis, tree) && Within(tree, store.blocks)
      requires OnBranch(cfg.genesis, tree, main) && main[|main| - 1].header.id == tipID
      requires OnBranch(cfg.genesis, tree, side) && side[|side| - 1].header.id == previous
      ensures ForkAt(main, side, k)
      ensures toDisconnect == DownIDs(main, k) && toConnect == UpIDs(side, k)
      ensures forall id :: id in toDisconnect ==> id !in toConnect
    {
      OnBranchFacts(cfg.genesis, tree, main, store.blocks);
      OnBranchFacts(cfg.genesis, tree, side, store.blocks);
      var tipHeight, newHeight := store.blocks[tipID].block.header.height, store.blocks[previous].block.header.height;
      var minHeight := if newHeight < tipHeight then newHeight else tipHeight;
      var down, _, tipAncestorID, _ := WalkBack(tipID, minHeight, main);
      var _, up, newAncestorID, _ := WalkBack(previous, minHeight, side);
      ghost var p;
      toDisconnect, toConnect, p := WalkBoth(tipAncestorID, newAncestorID, down, up, main, side, minHeight);
      SameHeaderSameBranch(cfg.genesis, tree, main, side, p);
      k := p + 1;
      ForkIsDisjoint(store.blocks, main, side, k);
    }

    /** Disconnect the tip of the main chain. */
    method DisconnectTip(id: BlockID)
      requires Inv() && |chain| >= 2 && id == chain[|chain| - 1].header.id
      modifies this`chain, ledger, queue
      ensures unchanged(`tree) && unchanged(`deep) && unchanged(store)
      ensures Inv() && chain == old(chain)[..|old(chain)| - 1]
      ensures Known(chain, queue.txQueue) == old(Known(chain, queue.txQueue))
    {
      DifferentObjects();
      ghost var before, last := LastBlock(chain);
      BranchStep(cfg, tree, before, last, store.blocks);
      var block := store.blocks[id].block;
      KnownStays(before, block, queue.txQueue);
      DisconnectBlock(block, before, tree.Keys);
      chain := before;
    }

    /** Connect one more flagged block on top of the main chain. */
    method ConnectNext(id: BlockID, ghost next: Block) returns (ok: bool)
      requires Inv() && OnBranch(cfg.genesis, tree, chain + [next]) && id == next.header.id
      modifies this`chain, ledger, queue, queue.balanceCache
      ensures unchanged(`tree) && unchanged(`deep) && unchanged(store)
      ensures Inv() && Shaped(old(chain) + [next]) && ok == Replayable(cfg.prune, old(chain) + [next])
      ensures chain == old(chain) + (if ok then [next] else [])
      ensures ok ==> queue.txQueue == NotOn(old(queue.txQueue), chain)
      ensures !ok ==> ledger.View() == old(ledger.View()) && unchanged(queue) && unchanged(queue.balanceCache)
    {
      DifferentObjects();
      BranchStep(cfg, tree, chain, next, store.blocks);
      var block := store.blocks[id].block;
      ok := ConnectBlock(block, true, chain, tree.Keys);
      if ok {
        chain := chain + [next];
      }
    }

    /** Disconnect the main chain down to its first k blocks. */
    method DisconnectAll(ids: seq<BlockID>, ghost k: nat)
      requires Inv() && 1 <= k <= |chain| && ids == DownIDs(chain, k)
      modifies this`chain, ledger, queue
      ensures unchanged(`tree) && unchanged(`deep) && unchanged(store)
      ensures Inv() && chain == old(chain)[..k]
      ensures Known(chain, queue.txQueue) == old(Known(chain, queue.txQueue))
      ensures k == |old(chain)| ==> ledger.View() == old(ledger.View()) && unchanged(queue)
    {
      DifferentObjects();
      ghost var all, n := chain, |chain|;
      TakeTake(all, n, n);
      var j := 0;
      while j < |ids|
        invariant 0 <= j <= |ids| && n == |all| - j && |chain| == n && chain == all[..n]
        invariant unchanged(`tree) && unchanged(`deep) && unchanged(store)
        invariant Inv() && Known(chain, queue.txQueue) == old(Known(chain, queue.txQueue))
        invariant j == 0 ==> ledger.View() == old(ledger.View()) && unchanged(queue)
      {
        DownStep(all, k, j, n, chain);
        DisconnectTip(ids[j]);
        j, n := j + 1, n - 1;
      }
    }

    /** Connect a branch from its first k blocks on, as far as it goes. */
    method ConnectAll(ids: seq<BlockID>, ghost side: seq<Block>, ghost k: nat, ghost known: seq<Transaction>)
        returns (ok: bool)
      requires Inv() && OnBranch(cfg.genesis, tree, side)
      requires 1 <= k <= |side| && ids == UpIDs(side, k) && chain == side[..k]
      requires queue.txQueue == NotOn(known, chain)
      modifies this`chain, ledger, queue, queue.balanceCache
      ensures unchanged(`tree) && unchanged(`deep) && unchanged(store)
      ensures Inv() && k <= |chain| <= |side| && chain == side[..|chain|]
      ensures ok ==> chain == side
      ensures queue.txQueue == NotOn(known, chain)
      ensures !ok ==> |chain| < |side| && Shaped(chain + [side[|chain|]])
      ensures !ok ==> !Replayable(cfg.prune, chain + [side[|chain|]])
      ensures |chain| == k ==> ledger.View() == old(ledger.View()) && unchanged(queue) && unchanged(queue.balanceCache)
    {
      DifferentObjects();
      ghost var m := k;
      TakeTake(side, |side|, |side|);
      var j := 0;
      while j < |ids|
        invariant 0 <= j <= |ids| && m == k + j && |chain| == m && chain == side[..m]
        invariant unchanged(`tree) && unchanged(`deep) && unchanged(store)
        invariant Inv() && queue.txQueue == NotOn(known, chain)
        invariant j == 0 ==> ledger.View() == old(ledger.View()) && unchanged(queue) && unchanged(queue.balanceCache)
      {
        UpAt(side, k, j);
        TakeOneMore(side, m);
        OnBranchPrefix(cfg.genesis, tree, side, m + 1);
        NotOnMore(known, chain, side[m]);
        ok := ConnectNext(ids[j], side[m]);
        if !ok {
          return;
        }
        j, m := j + 1, m + 1;
      }
      ok := true;
    }

    /** The tree with this block. */
    ghost function With(block: Block, when: int): Blocks
      reads this`tree
    {
      tree[block.header.id := Stored(block, when)]
    }

    /** The block is stored, and the tree with it is accepted. */
    ghost predicate Fits(block: Block, when: int)
      reads this`tree, store
    {
      && Accepted(cfg, With(block, when)) && Within(tree, With(block, when))
      && block.header.id in store.blocks && store.blocks[block.header.id] == Stored(block, when)
    }

    /** Flag a block that does not make the best chain. */
    method KeepAside(block: Block, when: int)
      requires Inv() && Fits(block, when) && block.header.id !in tree
      modifies this`tree, ledger
      ensures Inv() && tree == old(With(block, when))
      ensures ledger.View().core == old(ledger.View().core)
    {
      ghost var bigger := With(block, when);
      OnBranchGrows(cfg.genesis, tree, bigger, chain);
      FlagsAside(tree.Keys, chain, block.header.id);
      assert bigger.Keys == tree.Keys + {block.header.id};
      ledger.SetBranchType(block.header.id, SIDE);
      tree := bigger;
    }

    /** The block just connected belongs to the tree and to the main chain from now on. */
    ghost method AdoptTip(block: Block, when: int)
      requires Wired() && Rooted(cfg.genesis, tree) && Within(tree, store.blocks) && OnBranch(cfg.genesis, tree, chain)
      requires Fits(block, when) && block.header.previous == chain[|chain| - 1].header.id
      requires block.header.height == |chain|
      requires Now(chain + [block], tree.Keys + {block.header.id})
      modifies this`chain, this`tree
      ensures unchanged(`deep)
      ensures Inv() && chain == old(chain) + [block] && tree == old(With(block, when))
    {
      var longer, bigger := chain + [block], With(block, when);
      TipGrows(cfg.genesis, tree, block, bigger, chain);
      assert bigger.Keys == tree.Keys + {block.header.id};
      chain, tree := longer, bigger;
    }

    /** Connect the block on top of the main chain, as the new tip. */
    method ConnectTip(block: Block, when: int) returns (ok: bool)
      requires Inv() && Fits(block, when) && BlockOK(cfg, block)
      requires block.header.previous == chain[|chain| - 1].header.id && block.header.height == |chain|
      modifies this`chain, this`tree, ledger, queue, queue.balanceCache
      ensures unchanged(`deep) && unchanged(store)
      ensures Inv() && Shaped(old(chain) + [block]) && ok == Replayable(cfg.prune, old(chain) + [block])
      ensures ok ==> chain == old(chain) + [block] && tree == old(With(block, when))
      ensures ok ==> QueueReady(|old(chain)| + 1)
      ensures ok ==> queue.txQueue == Requeued(ledger.balances, old(queue.txQueue), chain)
      ensures !ok ==> chain == old(chain) && tree == old(tree)
      ensures !ok ==> ledger.View() == old(ledger.View()) && unchanged(queue) && unchanged(queue.balanceCache)
    {
      OnBranchFacts(cfg.genesis, tree, chain, store.blocks);
      ok := ConnectBlock(block, false, chain, tree.Keys);
      if !ok {
        return;
      }
      AdoptTip(block, when);
    }

    /** Nothing that a caller can see differs from before. */
    twostate predicate Untouched()
      reads this`chain, this`tree, ledger, queue, queue.balanceCache
    {
      && chain == old(chain) && tree == old(tree) && ledger.View() == old(ledger.View())
      && unchanged(queue) && unchanged(queue.balanceCache)
    }

    /** Down to the fork, and up the given branch as far as it goes. */
    method MoveAcross(toDisconnect: seq<BlockID>, toConnect: seq<BlockID>, ghost side: seq<Block>, ghost k: nat)
        returns (ok: bool)
      requires Inv() && OnBranch(cfg.genesis, tree, side)
      requires 1 <= k <= |chain| && k <= |side| && chain[..k] == side[..k]
      requires toDisconnect == DownIDs(chain, k) && toConnect == UpIDs(side, k)
      modifies this`chain, ledger, queue, queue.balanceCache
      ensures unchanged(`tree) && unchanged(`deep) && unchanged(store)
      ensures Inv() && k <= |chain| <= |side| && chain == side[..|chain|]
      ensures ok ==> chain == side
      ensures queue.txQueue == NotOn(old(Known(chain, queue.txQueue)), chain)
      ensures !ok ==> |chain| < |side| && Shaped(chain + [side[|chain|]])
      ensures !ok ==> !Replayable(cfg.prune, chain + [side[|chain|]])
      ensures k == |old(chain)| == |chain| ==>
                ledger.View() == old(ledger.View()) && unchanged(queue) && unchanged(queue.balanceCache)
    {
      DifferentObjects();
      ghost var known := Known(chain, queue.txQueue);
      DisconnectAll(toDisconnect, k);
      QueueIsNotOn(cfg, chain, queue.txQueue);
      ok := ConnectAll(toConnect, side, k, known);
    }

    /** Move the main chain over to the given branch, as far as it goes. */
    method MoveTo(previous: BlockID, ghost side: seq<Block>) returns (ok: bool)
      requires Inv() && OnBranch(cfg.genesis, tree, side) && side[|side| - 1].header.id == previous
      modifies this`chain, ledger, queue, queue.balanceCache
      ensures unchanged(`tree) && unchanged(`deep) && unchanged(store)
      ensures Inv() && |chain| <= |side| && chain == side[..|chain|]
      ensures ok ==> chain == side
      ensures queue.txQueue == NotOn(old(Known(chain, queue.txQueue)), chain)
      ensures !ok ==> |chain| < |side| && Shaped(chain + [side[|chain|]])
      ensures !ok ==> !Replayable(cfg.prune, chain + [side[|chain|]])
      ensures chain == old(chain) ==> Untouched()
    {
      ghost var main := chain;
      TipOf(cfg.prune, ledger.View(), chain, tree.Keys);
      ghost var k;
      var toDisconnect, toConnect;
      toDisconnect, toConnect, k := FindFork(ledger.tip.value.id, previous, tree, main, side);
      ok := MoveAcross(toDisconnect, toConnect, side, k);
      NothingMoved(main, side, k, |chain|);
    }

    /** Connect the block as the new tip; of all that is known, what the chain leaves is reprocessed. */
    method ConnectLast(block: Block, when: int, ghost side: seq<Block>, ghost known: seq<Transaction>)
        returns (ok: bool)
      requires Inv() && Fits(block, when) && BlockOK(cfg, block) && chain == side && queue.txQueue == NotOn(known, side)
      requires block.header.previous == side[|side| - 1].header.id && block.header.height == |side|
      modifies this`chain, this`tree, ledger, queue, queue.balanceCache
      ensures unchanged(`deep) && unchanged(store)
      ensures Inv() && Shaped(side + [block]) && ok == Replayable(cfg.prune, side + [block])
      ensures ok ==> chain == side + [block] && tree == old(With(block, when)) && QueueReady(|side| + 1)
      ensures !ok ==> chain == side && Untouched()
      ensures queue.txQueue == Left(ledger.balances, known, chain, !ok)
    {
      DifferentObjects();
      ok := ConnectTip(block, when);
      if ok {
        RequeuedMore(ledger.balances, known, side, block);
      }
    }

    /** Move the main chain over to the given branch with the block on top. */
    method Reorganize(block: Block, when: int, ghost side: seq<Block>) returns (ok: bool)
      requires Inv() && Fits(block, when) && BlockOK(cfg, block)
      requires OnBranch(cfg.genesis, tree, side) && side[|side| - 1].header.id == block.header.previous
      requires block.header.height == |side|
      modifies this`chain, this`tree, ledger, queue, queue.balanceCache
      ensures unchanged(`deep) && unchanged(store)
      ensures Inv()
      ensures ok ==> chain == side + [block] && tree == old(With(block, when)) && QueueReady(|side| + 1)
      ensures !ok ==> tree == old(tree) && |chain| <= |side| && chain == side[..|chain|]
      ensures !ok && chain == old(chain) ==> Untouched()
      ensures queue.txQueue == Left(ledger.balances, old(Known(chain, queue.txQueue)), chain, !ok)
      ensures Shaped(side + [block]) && ok == Replayable(cfg.prune, side + [block])
    {
      DifferentObjects();
      ghost var known := Known(chain, queue.txQueue);
      SideIsShaped(cfg, tree, side, block);
      ok := MoveTo(block.header.previous, side);
      if !ok {
        NotReplayableBeyond(cfg.prune, side, block, |chain|, chain + [side[|chain|]]);
        return;
      }
      TakeTake(side, |side|, |side|);
      ok := ConnectLast(block, when, side, known);
    }

    ghost function TipID(): BlockID
      requires chain != []
      reads this`chain
    {
      chain[|chain| - 1].header.id
    }

    /** Keep the block aside or make it the tip, unless it is the tip. */
    method AcceptBlockContinue(block: Block, when: int, ghost side: seq<Block>) returns (r: Outcome)
      requires Inv() && Fits(block, when) && BlockOK(cfg, block)
      requires block.header.id != TipID() ==>
                 && OnBranch(cfg.genesis, tree, side) && side[|side| - 1].header.id == block.header.previous
                 && block.header.height == |side|
      requires block.header.id in tree ==> IsBest(tree, block.header.id)
      modifies this`chain, this`tree, ledger, queue, queue.balanceCache
      ensures unchanged(`deep) && unchanged(store)
      ensures Inv()
      ensures r.AlreadyTip? <==> block.header.id == old(TipID())
      ensures r.KeptAside? <==> block.header.id != old(TipID()) && !Compare(Stored(block, when), old(tree[TipID()]))
      ensures r.AlreadyTip? ==> Untouched()
      ensures r.KeptAside? ==> chain == old(chain) && tree == old(With(block, when))
      ensures r.KeptAside? ==>
                ledger.View().core == old(ledger.View().core) && unchanged(queue) && unchanged(queue.balanceCache)
      ensures r.Connected? ==> chain == side + [block] && tree == old(With(block, when)) && QueueReady(|side| + 1)
      ensures r.Failed? ==> tree == old(tree) && (chain == old(chain) ==> Untouched())
      ensures r.Failed? ==> |chain| <= |side| && chain == side[..|chain|]
      ensures r.Connected? || r.Failed? ==>
                Shaped(side + [block]) && r.Connected? == Replayable(cfg.prune, side + [block])
      ensures r.Connected? || r.Failed? ==>
                queue.txQueue == Left(ledger.balances, old(Known(chain, queue.txQueue)), chain, r.Failed?)
    {
      TipOf(cfg.prune, ledger.View(), chain, tree.Keys);
      var tipID := ledger.tip.value.id;
      if block.header.id == tipID {
        return AlreadyTip;
      }
      if !Compare(Stored(block, when), store.blocks[tipID]) {
        KeepAside(block, when);
        return KeptAside;
      }
      var ok := Reorganize(block, when, side);
      r := if ok then Connected else Failed;
    }

    /** After a failed reorganisation, make the best block the tip again. */
    method ReconnectTip(id: BlockID, ghost main: seq<Block>)
      requires Inv() && ValidGenesis(cfg) && IsBest(tree, id)
      requires OnBranch(cfg.genesis, tree, main) && main[|main| - 1].header.id == id
      requires Shaped(main) && Replayable(cfg.prune, main)
      modifies this`chain, this`tree, ledger, queue, queue.balanceCache
      ensures unchanged(`deep) && unchanged(store)
      ensures Inv() && chain == main && tree == old(tree)
      ensures if old(chain) == main then Untouched() else QueueReady(|main|)
      ensures old(chain) != main ==>
                queue.txQueue == Requeued(ledger.balances, old(Known(chain, queue.txQueue)), main)
    {
      ghost var before, last := LastBlock(main);
      BestBlock(cfg, tree, before, last, chain, store.blocks);
      var stored := store.blocks[id];
      var r := AcceptBlockContinue(stored.block, stored.when, before);
    }

    /** What holds between two blocks: the tip is the best block, and the queue is ready for the next one. */
    ghost predicate Settled()
      reads this`chain, this`tree, store, ledger, queue, queue.balanceCache, queue.ledger
    {
      ValidGenesis(cfg) && Inv() && IsBest(tree, TipID()) && QueueReady(|chain|)
    }

    /** What becomes of an acceptable block: kept aside, connected, or refused with nothing lost. */
    ghost predicate Accepts(block: Block, now: int, side: seq<Block>, r: Answer, main: seq<Block>, flagged: Blocks,
            before: Ledger, waiting: seq<Transaction>)
      requires main != [] && main[|main| - 1].header.id in flagged
      reads this`chain, this`tree, ledger, queue
    {
      && QueueAfter(queue.txQueue, ledger.balances, waiting, main, chain, side)
      && var bigger := flagged[block.header.id := Stored(block, now)];
         if !Overtakes(block, now, flagged[main[|main| - 1].header.id]) then
           && r.Ok? && chain == main && tree == bigger && ledger.View().core == before.core
           && queue.txQueue == waiting
         else
           && Shaped(side + [block])
           && if Replayable(cfg.prune, side + [block]) then
                r.Ok? && chain == side + [block] && tree == bigger
              else
                r.Error? && chain == main && tree == flagged && ledger.View() == before
    }

    /** Back to the chain, the ledger and the queue there were before a reorganisation failed. */
    method RollBack(tipID: BlockID, ghost main: seq<Block>, ghost before: Ledger, ghost waiting: seq<Transaction>,
            ghost side: seq<Block>)
      requires Inv() && ValidGenesis(cfg) && IsBest(tree, tipID)
      requires OnBranch(cfg.genesis, tree, main) && main[|main| - 1].header.id == tipID
      requires Represents(cfg.prune, before, main, tree.Keys) && (chain == main ==> QueueReady(|main|))
      requires |chain| <= |side| && chain == side[..|chain|] && queue.txQueue == NotOn(Known(main, waiting), chain)
      requires chain == main ==> queue.txQueue == waiting
      modifies this`chain, this`tree, ledger, queue, queue.balanceCache
      ensures unchanged(`deep) && unchanged(store)
      ensures Settled() && chain == main && tree == old(tree) && ledger.View() == before
      ensures QueueAfter(queue.txQueue, ledger.balances, waiting, main, main, side)
    {
      ghost var there := chain;
      ReconnectTip(tipID, main);
      RepresentsDetermines(cfg.prune, ledger.View(), before, main, tree.Keys);
      if there != main {
        CameBack(queue.txQueue, ledger.balances, waiting, main, side, |there|);
      }
    }

    /** Accept a stored block: unless that fails, the tip is the best block and the queue is ready. */
    method TryAccept(block: Block, when: int, ghost side: seq<Block>) returns (outcome: Outcome)
      requires Settled() && Fits(block, when) && BlockOK(cfg, block) && block.header.id !in tree
      requires OnBranch(cfg.genesis, tree, side) && side[|side| - 1].header.id == block.header.previous
      requires block.header.height == |side|
      modifies this`chain, this`tree, ledger, queue, queue.balanceCache
      ensures unchanged(`deep) && unchanged(store)
      ensures Inv() && (outcome.Failed? || Settled())
      ensures !outcome.AlreadyTip? && (outcome.KeptAside? <==> !Overtakes(block, when, old(tree[TipID()])))
      ensures outcome.KeptAside? ==> chain == old(chain) && ledger.View().core == old(ledger.View().core)
      ensures outcome.Connected? ==> chain == side + [block]
      ensures tree == if outcome.Failed? then old(tree) else old(With(block, when))
      ensures outcome.Failed? && chain == old(chain) ==> QueueReady(|chain|)
      ensures !outcome.KeptAside? ==>
                Shaped(side + [block]) && outcome.Connected? == Replayable(cfg.prune, side + [block])
      ensures outcome.KeptAside? || (outcome.Failed? && chain == old(chain)) ==> queue.txQueue == old(queue.txQueue)
      ensures !outcome.KeptAside? ==>
                queue.txQueue == Left(ledger.balances, old(Known(chain, queue.txQueue)), chain, outcome.Failed?)
      ensures outcome.Failed? ==> |chain| <= |side| && chain == side[..|chain|]
    {
      DifferentObjects();
      BestWith(tree, TipID(), block, when);
      OvertakesIffBetter(block, when, tree[TipID()]);
      outcome := AcceptBlockContinue(block, when, side);
      if outcome.Connected? {
        assert TipID() == block.header.id;
      } else if outcome.KeptAside? {
        assert QueueReady(|chain|);
      }
    }

    /** Accept a block that is stored and valid, or leave the main chain and its ledger as they were. */
    method AcceptStored(block: Block, when: int, ghost side: seq<Block>) returns (r: Answer)
      requires Settled() && Fits(block, when) && BlockOK(cfg, block) && block.header.id !in tree
      requires OnBranch(cfg.genesis, tree, side) && side[|side| - 1].header.id == block.header.previous
      requires block.header.height == |side|
      modifies this`chain, this`tree, ledger, queue, queue.balanceCache
      ensures unchanged(`deep) && unchanged(store)
      ensures Settled() && Accepts(block, when, side, r, old(chain), old(tree), old(ledger.View()), old(queue.txQueue))
      ensures tree == if r.Ok? then old(With(block, when)) else old(tree)
    {
      ghost var main, before, waiting := chain, ledger.View(), queue.txQueue;
      TipOf(cfg.prune, before, main, tree.Keys);
      var tipID := ledger.tip.value.id;
      var outcome := TryAccept(block, when, side);
      if !outcome.Failed? {
        return Ok;
      }
      RollBack(tipID, main, before, waiting, side);
      return Error;
    }

    // ----- the checks on a branch

    /** Series, maturity, expiration and signatures of all transactions; their fees, added up in 64 bits. */
    method VerifyTransactions(txs: seq<Transaction>, height: nat) returns (ok: bool, fees: int)
      requires queue.Valid() && forall tx :: tx in queue.txQueue ==> cfg.verify(tx)
      ensures ok == (AllTimely(txs, height) && Verified(cfg, txs))
      ensures ok ==> fees == Wrap64(Fees(txs))
    {
      fees := 0;
      var i := 0;
      while i < |txs|
        invariant 0 <= i <= |txs| && forall t :: 0 <= t < i ==> TimelyAt(txs[t], height)
        invariant forall t :: 0 <= t < i && !IsCoinbase(txs[t]) ==> cfg.verify(txs[t])
        invariant fees == Wrap64(Fees(txs[..i]))
      {
        var tx := txs[i];
        if !CheckTransactionSeries(tx, height) {
          return false, fees;
        }
        if !IsCoinbase(tx) {
          if !IsMature(tx, height) || IsExpired(tx, height) {
            return false, fees;
          }
          if !queue.ExistsSigned(ID(tx), tx.signature) {
            if !cfg.verify(tx) {
              return false, fees;
            }
          } else {
            assert queue.txMap[ID(tx)] == tx;
          }
        }
        FeesOneMore(txs, i);
        WrapAdd(Fees(txs[..i]), tx.body.fee);
        fees := Wrap64(fees + tx.body.fee);
        i := i + 1;
      }
      assert txs[..|txs|] == txs;
      ok := true;
    }

    /** The transactions are in order, and the coinbase pays the reward. */
    method VerifyBlock(block: Block) returns (ok: bool)
      requires CheckTransactions(block.txs) && block.header.height >= 0
      requires queue.Valid() && forall tx :: tx in queue.txQueue ==> cfg.verify(tx)
      ensures ok == BlockOK(cfg, block)
    {
      var fees;
      ok, fees := VerifyTransactions(block.txs, block.header.height);
      if !ok {
        return;
      }
      var reward := Wrap64(BlockCreationReward(block.header.height) + fees);
      ok := block.txs[0].body.amount == reward;
    }

    /** The header has the height, target, work and time that its branch calls for. */
    ghost predicate HeaderFits(header: BlockHeader, side: seq<Block>)
      requires side != []
      reads ledger, store
    {
      && header.height == |side|
      && RequiredTarget(ledger.heights, store.blocks, side) == Some(header.target)
      && ChainWork(header.target, side[|side| - 1].header.chainWork) == Some(header.chainWork)
      && header.time > MedianOf(side)
    }

    method CheckHeader(header: BlockHeader, prevHeader: BlockHeader, ghost side: seq<Block>) returns (r: Answer)
      requires side != [] && Walkable(store.blocks, side) && side[|side| - 1].header == prevHeader
      requires side[0].header.previous !in store.blocks
      ensures r.Ok? <==> HeaderFits(header, side)
      ensures r.Panic? <==> header.height == |side| &&
                            var target := RequiredTarget(ledger.heights, store.blocks, side);
                            target.None? ||
                            (target.value == header.target && ChainWork(header.target, prevHeader.chainWork).None?)
    {
      if header.height != prevHeader.height + 1 {
        return Error;
      }
      var target := ComputeTarget(prevHeader, store, ledger, side);
      if target.None? {
        return Panic;
      }
      if header.target != target.value {
        return Error;
      }
      var chainWork := ChainWork(header.target, prevHeader.chainWork);
      if chainWork.None? {
        return Panic;
      }
      if header.chainWork != chainWork.value {
        return Error;
      }
      var medianTimestamp := ComputeMedianTimestamp(prevHeader, store, side);
      r := if header.time <= medianTimestamp then Error else Ok;
    }

    // ----- one block

    /** All that is asked of a block on top of a branch. */
    ghost predicate Acceptable(block: Block, side: seq<Block>)
      requires side != []
      reads ledger, store
    {
      HeaderFits(block.header, side) && BlockOK(cfg, block)
    }

    /** Settled, every target is the one its branch calls for, and nothing lies below genesis. */
    ghost predicate Running()
      reads this, store, ledger, queue, queue.balanceCache, queue.ledger
    {
      Settled() && TargetsOK(cfg.genesis, tree, deep) && cfg.genesis.header.previous !in store.blocks
    }

    /** Validate a block on top of its branch. */
    method CheckOnBranch(block: Block, prevHeader: BlockHeader, ghost side: seq<Block>) returns (r: Answer)
      requires side != [] && Walkable(store.blocks, side) && side[|side| - 1].header == prevHeader
      requires side[0].header.previous !in store.blocks
      requires CheckTransactions(block.txs) && block.header.height >= 0
      requires queue.Valid() && forall tx :: tx in queue.txQueue ==> cfg.verify(tx)
      ensures r.Ok? <==> Acceptable(block, side)
      ensures r.Panic? ==> RequiredTarget(ledger.heights, store.blocks, side).None?
                           || ChainWork(block.header.target, prevHeader.chainWork).None?
    {
      r := CheckHeader(block.header, prevHeader, side);
      if !r.Ok? {
        return;
      }
      var ok := VerifyBlock(block);
      r := if ok then Ok else Error;
    }

    /** Storing a block that is not flagged disturbs nothing. */
    method StoreUnflagged(block: Block, now: int)
      requires Running() && block.header.id !in tree && block.header.id != cfg.genesis.header.previous
      modifies store
      ensures Running() && store.blocks == old(store.blocks)[block.header.id := Stored(block, now)]
      ensures chain == old(chain) && tree == old(tree) && deep == old(deep) && ledger.View() == old(ledger.View())
      ensures queue.txQueue == old(queue.txQueue)
    {
      store.Store(block, now);
    }

    /** Remember which blocks have targets from another branch. */
    ghost method Remember(deeper: set<BlockID>)
      requires Settled() && TargetsOK(cfg.genesis, tree, deeper) && cfg.genesis.header.previous !in store.blocks
      modifies this`deep
      ensures Running() && deep == deeper
      ensures chain == old(chain) && tree == old(tree) && ledger.View() == old(ledger.View())
      ensures queue.txQueue == old(queue.txQueue) && ledger.balances == old(ledger.balances)
    {
      deep := deeper;
    }

    /** Accept a stored block, and remember whether its target came from its own branch. */
    method AcceptStoredOn(block: Block, now: int, ghost side: seq<Block>, ghost shallow: bool, ghost main: seq<Block>,
            ghost flagged: Blocks, ghost was: set<BlockID>, ghost before: Ledger,
            ghost waiting: seq<Transaction>)
        returns (r: Answer)
      requires Running() && main == chain && flagged == tree && was == deep && before == ledger.View()
      requires waiting == queue.txQueue
      requires Fits(block, now) && Grown(tree, block, With(block, now)) && BlockOK(cfg, block)
      requires OnBranch(cfg.genesis, tree, side) && side[|side| - 1].header.id == block.header.previous
      requires block.header.height == |side|
      requires shallow ==> TargetOn(side) == Some(block.header.target)
      modifies this, ledger, queue, queue.balanceCache
      ensures unchanged(store)
      ensures Grows(flagged, block, now, tree) && (r.Ok? ==> block.header.id in tree)
      ensures Stands(main, flagged[main[|main| - 1].header.id], block, now, chain)
      ensures Running() && Accepts(block, now, side, r, main, flagged, before, waiting)
      ensures deep == if block.header.id in tree && !shallow then was + {block.header.id} else was
    {
      DifferentObjects();
      ghost var deeper := if shallow then was else was + {block.header.id};
      ghost var bigger := With(block, now);
      TargetsGrow(cfg.genesis, flagged, was, block, bigger, deeper);
      r := AcceptStored(block, now, side);
      if r.Ok? {
        assert tree == bigger;
        Remember(deeper);
        assert block.header.id in tree;
        return;
      }
      assert tree == flagged;
      Remember(was);
      assert block.header.id !in tree;
    }

    /** A block is known exactly when it carries a flag. */
    method IsKnown(id: BlockID) returns (known: bool)
      requires Now(chain, tree.Keys)
      ensures known <==> id in tree
    {
      known := ledger.GetBranchType(id) == MAIN || ledger.GetBranchType(id) == SIDE;
    }

    /** A valid block is stored and accepted; any other block changes nothing. */
    twostate predicate Processed(block: Block, now: int, side: seq<Block>, valid: bool, r: Answer)
      requires old(chain) != [] && old(TipID()) in old(tree)
      reads this, store, ledger, queue, queue.balanceCache
    {
      if valid then
        && Accepts(block, now, side, r, old(chain), old(tree), old(ledger.View()), old(queue.txQueue))
        && store.blocks == old(store.blocks)[block.header.id := Stored(block, now)]
        && deep == if block.header.id in tree && !ShallowOn(old(chain), side)
                   then old(deep) + {block.header.id} else old(deep)
      else
        Untouched() && unchanged(store) && deep == old(deep) && (r.Ok? ==> block.header.id in old(tree))
    }

    /** Attempt to extend the tree, and perhaps the main chain, with a sane block on a known parent. */
    method AcceptBlock(block: Block, now: int, ghost side: seq<Block>) returns (r: Answer)
      requires Running() && CheckBlock(cfg, block, now)
      requires block.header.previous in tree && side == Branch(cfg.genesis, tree, block.header.previous)
      requires block.header.id != cfg.genesis.header.previous
      modifies this, store, ledger, queue, queue.balanceCache
      ensures Stands(old(chain), old(tree[TipID()]), block, now, chain)
      ensures Running() && side != [] && Grows(old(tree), block, now, tree) && (r.Ok? ==> block.header.id in tree)
      ensures Processed(block, now, side, block.header.id !in old(tree) && old(Acceptable(block, side)), r)
    {
      ParentBranch(cfg, tree, block.header.previous, store.blocks);
      var prevHeader := store.blocks[block.header.previous].block.header;
      if block.header.height != prevHeader.height + 1 {
        return Error;
      }
      var known := IsKnown(block.header.id);
      if known {
        return Ok;
      }
      r := CheckOnBranch(block, prevHeader, side);
      if !r.Ok? {
        return;
      }
      AcceptableFits(block, now, side);
      r := StoreAndAccept(block, now, side);
    }

    /** An acceptable block keeps the tree accepted, and has its branch's own target unless the fork is deep. */
    lemma AcceptableFits(block: Block, now: int, side: seq<Block>)
      requires Running() && block.header.id !in tree && block.header.previous in tree && CheckBlock(cfg, block, now)
      requires side == Branch(cfg.genesis, tree, block.header.previous) && side != [] && Acceptable(block, side)
      ensures Grown(tree, block, With(block, now)) && Accepted(cfg, With(block, now)) && Within(tree, With(block, now))
      ensures OnBranch(cfg.genesis, tree, side) && side[|side| - 1].header.id == block.header.previous
      ensures block.header.height == |side| && BlockOK(cfg, block)
      ensures ShallowOn(chain, side) ==> TargetOn(side) == Some(block.header.target)
    {
      ParentBranch(cfg, tree, block.header.previous, store.blocks);
      NextAccepted(cfg, tree, block, side, now, ledger.heights, store.blocks);
      TargetOnBranch(cfg.prune, ledger.View(), chain, tree.Keys, side, store.blocks);
    }

    /** A block that passed its checks goes into the store before it is accepted. */
    method StoreAndAccept(block: Block, now: int, ghost side: seq<Block>) returns (r: Answer)
      requires Running() && block.header.id !in tree && block.header.id != cfg.genesis.header.previous
      requires Grown(tree, block, With(block, now)) && Accepted(cfg, With(block, now)) && Within(tree, With(block, now))
      requires OnBranch(cfg.genesis, tree, side) && side[|side| - 1].header.id == block.header.previous
      requires block.header.height == |side| && BlockOK(cfg, block)
      requires ShallowOn(chain, side) ==> TargetOn(side) == Some(block.header.target)
      modifies this, store, ledger, queue, queue.balanceCache
      ensures Grows(old(tree), block, now, tree) && (r.Ok? ==> block.header.id in tree)
      ensures Stands(old(chain), old(tree[TipID()]), block, now, chain)
      ensures Running() && Accepts(block, now, side, r, old(chain), old(tree), old(ledger.View()), old(queue.txQueue))
      ensures store.blocks == old(store.blocks)[block.header.id := Stored(block, now)]
      ensures deep == if block.header.id in tree && !ShallowOn(old(chain), side)
                 then old(deep) + {block.header.id} else old(deep)
    {
      ghost var main, flagged, was, before, waiting := chain, tree, deep, ledger.View(), queue.txQueue;
      StoreUnflagged(block, now);
      ghost var stored := store.blocks;
      r := AcceptStoredOn(block, now, side, ShallowOn(main, side), main, flagged, was, before, waiting);
      assert store.blocks == stored;
    }

    /** Before genesis is connected. */
    ghost predicate Fresh()
      reads this, store, ledger, queue
    {
      && Wired() && ValidGenesis(cfg) && chain == [] && tree == map[] && deep == {}
      && ledger.View() == Ledger(EMPTY_CORE, map[]) && queue.Valid() && queue.txQueue == []
      && cfg.genesis.header.previous !in store.blocks
    }

    ghost predicate Working()
      reads this, store, ledger, queue, queue.balanceCache, queue.ledger
    {
      Fresh() || Running()
    }

    /** Genesis, just connected, is the main chain from now on. */
    ghost method AdoptGenesis(now: int)
      requires Wired() && ValidGenesis(cfg) && deep == {} && cfg.genesis.header.previous !in store.blocks
      requires cfg.genesis.header.id in store.blocks && store.blocks[cfg.genesis.header.id] == Stored(cfg.genesis, now)
      requires Now([cfg.genesis], {cfg.genesis.header.id}) && QueueReady(1) && CheckBlock(cfg, cfg.genesis, now)
      modifies this`chain, this`tree
      ensures Running() && chain == [cfg.genesis] && tree == map[cfg.genesis.header.id := Stored(cfg.genesis, now)]
    {
      chain, tree := [cfg.genesis], map[cfg.genesis.header.id := Stored(cfg.genesis, now)];
      OnlyGenesisYet(cfg, tree, now);
      assert tree.Keys == {cfg.genesis.header.id};
    }

    /** Connect genesis to an empty ledger. */
    method ConnectFirst(block: Block) returns (ok: bool)
      requires Wired() && ledger.View() == Ledger(EMPTY_CORE, map[]) && queue.Valid() && queue.txQueue == []
      requires BlockOK(cfg, block) && block.header.height == 0
      modifies ledger, queue, queue.balanceCache
      ensures Shaped([block]) && ok == Replayable(cfg.prune, [block])
      ensures if ok then Now([block], {block.header.id}) && QueueReady(1)
              else ledger.View() == old(ledger.View()) && unchanged(queue)
    {
      NothingYet(cfg.prune);
      ok := ConnectBlock(block, false, [], {});
      assert [] + [block] == [block] && {} + {block.header.id} == {block.header.id};
    }

    /** Store and connect genesis. */
    method BeginLedger(block: Block, now: int) returns (r: Answer)
      requires Fresh() && block == cfg.genesis && CheckBlock(cfg, block, now)
      modifies this, store, ledger, queue, queue.balanceCache
      ensures Shaped([block])
      ensures if Replayable(cfg.prune, [block]) then
                r.Ok? && Running() && chain == [block] && tree == map[block.header.id := Stored(block, now)]
              else
                r.Error? && Fresh()
    {
      store.Store(block, now);
      var ok := ConnectFirst(block);
      if ok {
        AdoptGenesis(now);
        return Ok;
      }
      return Error;
    }

    // ----- requests

    /** What the hash guarantees of a block: nothing hashes to genesis's parent, and only genesis to its ID. */
    ghost predicate Sound(block: Block) {
      && block.header.id != cfg.genesis.header.previous
      && (block.header.id == cfg.genesis.header.id ==> block == cfg.genesis)
    }

    /** The block is new and passes every check there is before it is stored. */
    ghost predicate Passes(block: Block, now: int, side: seq<Block>)
      requires side != []
      reads this, store, ledger
    {
      block.header.id !in tree && CheckBlock(cfg, block, now) && Acceptable(block, side)
    }

    /** Genesis starts the ledger, and nothing else does. */
    ghost predicate Starts(block: Block, now: int) {
      block == cfg.genesis && CheckBlock(cfg, block, now) && Shaped([block]) && Replayable(cfg.prune, [block])
    }

    /** Process a block, given the branch of its parent, if that is known. */
    method ProcessBlock(block: Block, now: int, ghost side: seq<Block>) returns (r: Answer)
      requires Working() && Sound(block) && side != []
      requires Running() && block.header.previous in tree ==> side == Branch(cfg.genesis, tree, block.header.previous)
      modifies this, store, ledger, queue, queue.balanceCache
      ensures old(Running()) ==>
                && Running() && Grows(old(tree), block, now, tree)
                && Stands(old(chain), old(tree[TipID()]), block, now, chain)
                && (block.header.id in old(tree) ==> r.Ok?) && (r.Ok? ==> block.header.id in tree)
                && Processed(block, now, side, block.header.previous in old(tree) && old(Passes(block, now, side)), r)
      ensures old(Fresh()) ==>
                if Starts(block, now) then r.Ok? && Running() && chain == [block] else r.Error? && Fresh()
    {
      NothingYet(cfg.prune);
      var known := IsKnown(block.header.id);
      if known {
        return Ok;
      }
      if !CheckBlock(cfg, block, now) {
        return Error;
      }
      var parentKnown := IsKnown(block.header.previous);
      if !parentKnown {
        if block.header.id == cfg.genesis.header.id {
          r := BeginLedger(block, now);
          return;
        }
        return Error;
      }
      r := AcceptBlock(block, now, side);
    }

    /** What the queue takes in, as far as the balances allow. */
    ghost predicate Admissible(tx: Transaction)
      reads this, queue
    {
      && Queueable(cfg, tx) && Unconfirmed(tx, chain) && Eligible(tx, |chain|)
      && |queue.txQueue| < MAX_TRANSACTION_QUEUE_LENGTH
    }

    /** The checks on a transaction before it is offered to the queue. */
    method CheckLoose(tx: Transaction) returns (ok: bool)
      requires Wired() && Now(chain, tree.Keys) && chain != []
      ensures ok == Admissible(tx)
    {
      if tx.body.fee < MIN_FEE_CRUZBITS || tx.body.amount < MIN_AMOUNT_CRUZBITS {
        return false;
      }
      if !CheckTransaction(tx) || IsCoinbase(tx) || |queue.txQueue| >= MAX_TRANSACTION_QUEUE_LENGTH {
        return false;
      }
      TipOf(cfg.prune, ledger.View(), chain, tree.Keys);
      IndexTells(cfg.prune, ledger.View(), chain, tree.Keys, tx);
      if ID(tx) in ledger.txIndex {
        return false;
      }
      var height := ledger.tip.value.height + 1;
      if !CheckTransactionSeries(tx, height) || !IsMature(tx, height) || IsExpired(tx, height) {
        return false;
      }
      ok := cfg.verify(tx);
    }

    /** Whether the queued balances allow the transaction. */
    ghost predicate Affordable(tx: Transaction)
      reads ledger, queue
    {
      CanApply(ApplyAll(ledger.balances, queue.txQueue), tx, MIN_BALANCE)
    }

    /** Offer an admissible transaction to the queue. */
    method Enqueue(tx: Transaction) returns (r: Answer)
      requires Wired() && queue.Valid() && QueueOK(cfg, queue.txQueue, chain) && QueueReady(|chain|) && Admissible(tx)
      modifies queue, queue.balanceCache
      ensures queue.Valid() && QueueOK(cfg, queue.txQueue, chain) && QueueReady(|chain|)
      ensures r == if ID(tx) in old(queue.txMap) || old(Affordable(tx)) then Ok else Error
      ensures queue.txQueue == old(queue.txQueue) + (if r.Ok? && ID(tx) !in old(queue.txMap) then [tx] else [])
    {
      ghost var q := queue.txQueue;
      QueueTakes(cfg, q, chain, tx);
      var added, failed := queue.Add(tx);
      if added {
        ReadyOneMore(ledger.balances, q, tx, |chain|);
      }
      assert q + [] == q;
      r := if failed then Error else Ok;
    }

    /** Process a transaction once there is a tip. */
    method ProcessLoose(tx: Transaction) returns (r: Answer)
      requires Running()
      modifies queue, queue.balanceCache
      ensures Running()
      ensures r == if old(Admissible(tx)) && (ID(tx) in old(queue.txMap) || old(Affordable(tx))) then Ok else Error
      ensures queue.txQueue == old(queue.txQueue) + (if r.Ok? && ID(tx) !in old(queue.txMap) then [tx] else [])
    {
      var ok := CheckLoose(tx);
      if !ok {
        assert queue.txQueue + [] == queue.txQueue;
        return Error;
      }
      r := Enqueue(tx);
      assert ChainInv();
    }

    /** Process a transaction. */
    method ProcessTransaction(tx: Transaction) returns (r: Answer)
      requires Working()
      modifies queue, queue.balanceCache
      ensures old(Fresh()) ==> r.Error? && Fresh()
      ensures old(Running()) ==>
                && Running()
                && (r.Ok? <==> old(Admissible(tx)) && (ID(tx) in old(queue.txMap) || old(Affordable(tx))))
                && queue.txQueue == old(queue.txQueue) + (if r.Ok? && ID(tx) !in old(queue.txMap) then [tx] else [])
    {
      if ledger.tip.None? {
        return Error;
      }
      r := ProcessLoose(tx);
    }

    method ServeNext(block: Block, now: int) returns (r: Answer)
      requires Running() && Sound(block)
      modifies this, store, ledger, queue, queue.balanceCache
      ensures Running() && Keeps(old(tree), tree) && (r.Ok? ==> block.header.id in tree)
    {
      ghost var side := ParentSide(block);
      ghost var before := tree;
      r := ProcessBlock(block, now, side);
      KeepsMore(before, block, now, tree);
    }

    method ServeFirst(block: Block, now: int) returns (r: Answer)
      requires Fresh() && Sound(block)
      modifies this, store, ledger, queue, queue.balanceCache
      ensures Working() && Keeps(old(tree), tree) && (r.Ok? ==> block.header.id in tree)
    {
      ghost var side := ParentSide(block);
      r := ProcessBlock(block, now, side);
      if r.Ok? {
        OnBranchFacts(cfg.genesis, tree, chain, tree);
        assert chain[0] == block;
      }
    }

    /** One request: no block loses its flag, and a block that is answered for has one. */
    method Serve(request: Request) returns (r: Answer)
      requires Working() && (request.NewBlock? ==> Sound(request.block))
      modifies this, store, ledger, queue, queue.balanceCache
      ensures Working() && (old(Running()) ==> Running()) && Keeps(old(tree), tree)
      ensures AnswersFor(request, r, tree)
    {
      if request.NewTransaction? {
        r := ProcessTransaction(request.tx);
      } else if ledger.tip.None? {
        NothingYet(cfg.prune);
        r := ServeFirst(request.block, request.now);
      } else {
        r := ServeNext(request.block, request.now);
      }
    }

    method ServeAll(requests: seq<Request>) returns (answers: seq<Answer>)
      requires Working() && forall i :: 0 <= i < |requests| && requests[i].NewBlock? ==> Sound(requests[i].block)
      modifies this, store, ledger, queue, queue.balanceCache
      ensures Working() && (old(Running()) ==> Running()) && Keeps(old(tree), tree)
      ensures |answers| == |requests| && AllAnswered(requests, answers, tree)
    {
      answers := [];
      while |answers| < |requests|
        invariant |answers| <= |requests| && AllAnswered(requests, answers, tree)
        invariant Working() && (old(Running()) ==> Running()) && Keeps(old(tree), tree)
      {
        ghost var before := tree;
        var r := Serve(requests[|answers|]);
        KeepsOn(old(tree), before, tree);
        OneMoreAnswered(requests, answers, r, before, tree);
        answers := answers + [r];
      }
    }

    /**
    Serve requests one at a time: whatever they are, the node is in order after each of them, every
    block keeps its flag, those that were answered for have one, and the tip only ever gets better.
    */
    method Run(requests: seq<Request>) returns (answers: seq<Answer>)
      requires Working() && forall i :: 0 <= i < |requests| && requests[i].NewBlock? ==> Sound(requests[i].block)
      modifies this, store, ledger, queue, queue.balanceCache
      ensures Working() && (old(Running()) ==> Running()) && Keeps(old(tree), tree)
      ensures |answers| == |requests| && AllAnswered(requests, answers, tree)
      ensures old(Running()) ==>
                TipID() == old(TipID()) || Overtakes(tree[TipID()].block, tree[TipID()].when, old(tree[TipID()]))
    {
      ghost var before, tip := tree, if chain == [] then 0 else TipID();
      answers := ServeAll(requests);
      if chain != [] && IsBest(tree, TipID()) && tip in before && Keeps(before, tree) {
        BestOvertakes(before, tip, tree, TipID());
      }
    }

    ghost function ParentSide(block: Block): (side: seq<Block>)
      requires Working()
      reads this, store, ledger, queue, queue.balanceCache, queue.ledger
      ensures side != []
      ensures Running() && block.header.previous in tree ==> side == Branch(cfg.genesis, tree, block.header.previous)
    {
      if Running() && block.header.previous in tree then
        ParentBranch(cfg, tree, block.header.previous, store.blocks);
        Branch(cfg.genesis, tree, block.header.previous)
      else [cfg.genesis]
    }
  }
}
