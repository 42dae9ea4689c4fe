/**
What holds of a node after every processed block and transaction: the accepted tree, the
main chain that the ledger represents, and the queue on top of it.
*/
module NodeModel {
  import opened Types
  import opened Rules
  import opened Balances
  import opened LedgerModel
  import opened LedgerDB
  import opened MedianTime
  import opened Work
  import opened Targets
  import opened Forks
  import opened Queue

  // ----- accepted blocks

  ghost predicate Verified(cfg: Config, txs: seq<Transaction>) {
    forall t :: 0 <= t < |txs| && !IsCoinbase(txs[t]) ==> cfg.verify(txs[t])
  }

  /** What a block's transactions must satisfy to be accepted. */
  ghost predicate BlockOK(cfg: Config, block: Block) {
    && block.header.height >= 0
    && CheckTransactions(block.txs)
    && AllTimely(block.txs, block.header.height)
    && PaysReward(block.txs, block.header.height)
    && Verified(cfg, block.txs)
  }

  /** What a header on top of a branch must satisfy to be accepted. */
  ghost predicate HeaderOK(branch: seq<Block>, header: BlockHeader) {
    && branch != []
    && header.time > MedianOf(branch)
    && ChainWork(header.target, branch[|branch| - 1].header.chainWork) == Some(header.chainWork)
    && (|branch| <= BITCOIN_CASH_RETARGET_ALGORITHM_HEIGHT ==> header.target == TargetBitcoin(branch))
  }

  ghost predicate ValidGenesis(cfg: Config) {
    && cfg.genesis.header.height == 0 && cfg.genesis.header.target == INITIAL_TARGET
    && cfg.genesis.header.previous != cfg.genesis.header.id
    && BlockOK(cfg, cfg.genesis)
  }

  ghost predicate Accepted(cfg: Config, tree: Blocks) {
    && Rooted(cfg.genesis, tree)
    && (forall id {:trigger BlockAt(cfg, tree, id)} :: id in tree ==> BlockAt(cfg, tree, id))
    && (forall id {:trigger HeaderAt(cfg, tree, id)} ::
         id in tree && id != cfg.genesis.header.id ==> HeaderAt(cfg, tree, id))
  }

  /** The block passed the checks on its branch, and the context-free ones at the time it was stored. */
  ghost predicate BlockAt(cfg: Config, tree: Blocks, id: BlockID) {
    id in tree && BlockOK(cfg, tree[id].block) && CheckBlock(cfg, tree[id].block, tree[id].when)
  }

  ghost predicate HeaderAt(cfg: Config, tree: Blocks, id: BlockID)
    requires Rooted(cfg.genesis, tree)
  {
    && HasParent(tree, id)
    && HeaderOK(Branch(cfg.genesis, tree, tree[id].block.header.previous), tree[id].block.header)
  }

  /** The tree with one more block. */
  ghost predicate Grown(tree: Blocks, block: Block, bigger: Blocks) {
    && block.header.id !in tree && block.header.previous in tree
    && block.header.height == tree[block.header.previous].block.header.height + 1
    && bigger.Keys == tree.Keys + {block.header.id}
    && bigger[block.header.id].block == block
    && (forall x :: x in tree ==> bigger[x] == tree[x])
  }

  lemma RootedGrows(genesis: Block, tree: Blocks, block: Block, bigger: Blocks)
    requires Rooted(genesis, tree) && Grown(tree, block, bigger)
    ensures Rooted(genesis, bigger)
    ensures Branch(genesis, bigger, block.header.id) == Branch(genesis, tree, block.header.previous) + [block]
  {
    forall id | id in bigger && id != genesis.header.id ensures HasParent(bigger, id) {
      assert id in tree ==> HasParent(tree, id);
    }
    BranchKept(genesis, tree, bigger, block.header.previous);
  }

  /** A block that is not flagged yet, accepted on top of one that is. */
  lemma AcceptedGrows(cfg: Config, tree: Blocks, block: Block, bigger: Blocks)
    requires Accepted(cfg, tree) && Grown(tree, block, bigger) && BlockOK(cfg, block)
    requires CheckBlock(cfg, block, bigger[block.header.id].when)
    requires HeaderOK(Branch(cfg.genesis, tree, block.header.previous), block.header)
    ensures Accepted(cfg, bigger)
  {
    RootedGrows(cfg.genesis, tree, block, bigger);
    forall x | x in bigger ensures BlockAt(cfg, bigger, x) {
      assert x in tree ==> BlockAt(cfg, tree, x);
    }
    forall x | x in bigger && x != cfg.genesis.header.id ensures HeaderAt(cfg, bigger, x) {
      HeaderStaysOK(cfg, tree, bigger, block, x);
    }
  }

  lemma HeaderStaysOK(cfg: Config, tree: Blocks, bigger: Blocks, block: Block, x: BlockID)
    requires Accepted(cfg, tree) && Rooted(cfg.genesis, bigger) && Grown(tree, block, bigger)
    requires HeaderOK(Branch(cfg.genesis, tree, block.header.previous), block.header)
    requires x in bigger && x != cfg.genesis.header.id
    ensures HeaderAt(cfg, bigger, x)
  {
    assert HasParent(bigger, x);
    assert x in tree ==> HeaderAt(cfg, tree, x);
    BranchKept(cfg.genesis, tree, bigger, bigger[x].block.header.previous);
  }

  // ----- targets

  /** The declared target is the one the block's own branch gives. */
  ghost predicate TargetAt(genesis: Block, tree: Blocks, id: BlockID)
    requires Rooted(genesis, tree)
  {
    HasParent(tree, id)
    && TargetOn(Branch(genesis, tree, tree[id].block.header.previous)) == Some(tree[id].block.header.target)
  }

  /** So it is for all blocks but genesis and the ones whose window started off their branch. */
  ghost predicate TargetsOK(genesis: Block, tree: Blocks, deep: set<BlockID>)
    requires Rooted(genesis, tree)
  {
    forall id {:trigger TargetAt(genesis, tree, id)} ::
      id in tree && id != genesis.header.id && id !in deep ==> TargetAt(genesis, tree, id)
  }

  lemma TargetsGrow(genesis: Block, tree: Blocks, deep: set<BlockID>, block: Block, bigger: Blocks,
          deeper: set<BlockID>)
    requires Rooted(genesis, tree) && Rooted(genesis, bigger) && Grown(tree, block, bigger)
    requires TargetsOK(genesis, tree, deep) && deep <= deeper
    requires block.header.id in deeper
             || TargetOn(Branch(genesis, tree, block.header.previous)) == Some(block.header.target)
    ensures TargetsOK(genesis, bigger, deeper)
  {
    forall x | x in bigger && x != genesis.header.id && x !in deeper ensures TargetAt(genesis, bigger, x) {
      assert HasParent(bigger, x);
      assert x in tree ==> TargetAt(genesis, tree, x);
      BranchKept(genesis, tree, bigger, bigger[x].block.header.previous);
    }
  }

  /** Every block above genesis has more work than genesis. */
  lemma {:induction false} GenesisHasLeastWork(cfg: Config, tree: Blocks, id: BlockID)
    requires ValidGenesis(cfg) && Accepted(cfg, tree) && id in tree && id != cfg.genesis.header.id
    ensures tree[id].block.header.chainWork > cfg.genesis.header.chainWork
    decreases tree[id].block.header.height
  {
    assert HeaderAt(cfg, tree, id);
    var header := tree[id].block.header;
    var branch := Branch(cfg.genesis, tree, header.previous);
    BranchFacts(cfg.genesis, tree, header.previous);
    if header.previous == cfg.genesis.header.id {
      assert branch == [cfg.genesis];
      assert header.target == INITIAL_TARGET;
      assert BlockWork(INITIAL_TARGET) > 0;
    } else {
      GenesisHasLeastWork(cfg, tree, header.previous);
    }
  }

  /** Genesis is the best block only while it is the only one. */
  lemma BestGenesisIsAlone(cfg: Config, tree: Blocks)
    requires ValidGenesis(cfg) && Accepted(cfg, tree) && IsBest(tree, cfg.genesis.header.id)
    ensures tree.Keys == {cfg.genesis.header.id}
  {
    forall id | id in tree ensures id == cfg.genesis.header.id {
      if id != cfg.genesis.header.id {
        GenesisHasLeastWork(cfg, tree, id);
      }
    }
  }

  // ----- the queue

  ghost predicate Queueable(cfg: Config, tx: Transaction) {
    !IsCoinbase(tx) && CheckTransaction(tx) && cfg.verify(tx)
  }

  ghost predicate Unconfirmed(tx: Transaction, chain: seq<Block>) {
    forall j :: 0 <= j < |chain| ==> ID(tx) !in TxIDs(chain[j].txs)
  }

  /** Queued transactions are sane, verified, and in no block of the chain. */
  ghost predicate QueueOK(cfg: Config, q: seq<Transaction>, chain: seq<Block>) {
    forall tx :: tx in q ==> Queueable(cfg, tx) && Unconfirmed(tx, chain)
  }

  lemma NotTheCoinbase(tx: Transaction, txs: seq<Transaction>)
    requires CheckTransactions(txs) && !IsCoinbase(tx) && ID(tx) !in IDsOf(txs)[1..]
    ensures ID(tx) !in TxIDs(txs)
  {
    forall i | 0 <= i < |txs| ensures ID(txs[i]) != ID(tx) {
      if i > 0 {
        assert IDsOf(txs)[1..][i - 1] == ID(txs[i]);
      }
    }
  }

  /** Removing a connected block's payments keeps the queue unconfirmed. */
  lemma QueueAfterConnect(cfg: Config, q: seq<Transaction>, r: seq<Transaction>, chain: seq<Block>, block: Block)
    requires QueueOK(cfg, q, chain) && CheckTransactions(block.txs)
    requires forall tx :: tx in r ==> tx in q && ID(tx) !in IDsOf(block.txs)[1..]
    ensures QueueOK(cfg, r, chain + [block])
  {
    forall tx | tx in r ensures Queueable(cfg, tx) && Unconfirmed(tx, chain + [block]) {
      assert tx in q;
      NotTheCoinbase(tx, block.txs);
      forall j | 0 <= j < |chain| + 1 ensures ID(tx) !in TxIDs((chain + [block])[j].txs) {
        if j < |chain| {
          assert (chain + [block])[j] == chain[j];
        }
      }
    }
  }

  /** A disconnected block's payments are unconfirmed again. */
  lemma QueueAfterDisconnect(cfg: Config, q: seq<Transaction>, r: seq<Transaction>, before: seq<Block>, block: Block)
    requires QueueOK(cfg, q, before + [block]) && BlockOK(cfg, block) && ConfirmedOnce(before + [block])
    requires forall tx :: tx in r ==> tx in q || tx in block.txs[1..]
    ensures QueueOK(cfg, r, before)
  {
    var chain := before + [block];
    forall tx | tx in r ensures Queueable(cfg, tx) && Unconfirmed(tx, before) {
      if tx in q {
        forall j | 0 <= j < |before| ensures ID(tx) !in TxIDs(before[j].txs) {
          assert chain[j] == before[j];
        }
      } else {
        PaymentUnconfirmed(cfg, before, block, tx);
      }
    }
  }

  lemma PaymentUnconfirmed(cfg: Config, before: seq<Block>, block: Block, tx: Transaction)
    requires BlockOK(cfg, block) && ConfirmedOnce(before + [block]) && tx in block.txs[1..]
    ensures Queueable(cfg, tx) && Unconfirmed(tx, before)
  {
    var i :| 1 <= i < |block.txs| && block.txs[i] == tx;
    assert ID(tx) in TxIDs(block.txs);
    var chain := before + [block];
    assert chain[|before|] == block;
    forall j | 0 <= j < |before| ensures ID(tx) !in TxIDs(before[j].txs) {
      assert chain[j] == before[j];
      assert TxIDs(chain[j].txs) !! TxIDs(chain[|before|].txs);
    }
  }

  /** What RemoveBatch leaves in the queue after a block is connected on top of the chain. */
  lemma QueueConnected(cfg: Config, b: Table, q: seq<Transaction>, chain: seq<Block>, block: Block)
    requires QueueOK(cfg, q, chain) && DistinctIDs(q) && CheckTransactions(block.txs)
    ensures var ids := IDsOf(block.txs)[1..];
            var left := Removed(q, ids, |ids|);
            var kept := Kept(b, left, |chain| + 1, |left|);
            && QueueOK(cfg, left, chain + [block])
            && QueueOK(cfg, kept, chain + [block])
            && Ready(b, kept, |chain| + 1)
  {
    var ids := IDsOf(block.txs)[1..];
    var left := Removed(q, ids, |ids|);
    RemovedFacts(q, ids, |ids|);
    assert ids[..|ids|] == ids;
    QueueAfterConnect(cfg, q, left, chain, block);
    KeptIsReady(b, left, |chain| + 1, |left|);
    KeptIsPart(b, left, |chain| + 1, |left|);
    assert left[..|left|] == left;
    QueuePart(cfg, left, Kept(b, left, |chain| + 1, |left|), chain + [block]);
  }

  lemma QueuePart(cfg: Config, q: seq<Transaction>, r: seq<Transaction>, chain: seq<Block>)
    requires QueueOK(cfg, q, chain) && Subsequence(r, q)
    ensures QueueOK(cfg, r, chain)
  {
    forall tx | tx in r ensures Queueable(cfg, tx) && Unconfirmed(tx, chain) {
      SubsequenceHas(r, q, tx);
    }
  }

  /** What AddBatch makes of the queue after the tip is disconnected. */
  lemma QueueDisconnected(cfg: Config, q: seq<Transaction>, before: seq<Block>, block: Block)
    requires QueueOK(cfg, q, before + [block]) && DistinctIDs(q)
    requires BlockOK(cfg, block) && ConfirmedOnce(before + [block])
    ensures QueueOK(cfg, PushedFront(q, block.txs[1..], 0), before)
  {
    PushedFrontFacts(q, block.txs[1..], 0);
    QueueAfterDisconnect(cfg, q, PushedFront(q, block.txs[1..], 0), before, block);
  }
}
