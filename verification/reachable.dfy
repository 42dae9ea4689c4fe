/**
What holds of the node after every run: the main chain, the money, the indices, and the
headers of all branches.
*/
module Reachable {
  import opened Types
  import opened Rules
  import opened Balances
  import opened LedgerModel
  import opened LedgerDB
  import opened MedianTime
  import opened Work
  import opened Targets
  import opened Forks
  import opened ChainWalks
  import opened Queue
  import opened NodeModel
  import opened Conservation
  import opened BlockProcessor
  import Locator

  /** The tip beats every other block that carries a flag. */
  lemma TipIsBest(p: Processor, id: BlockID)
    requires p.Running() && p.ledger.GetBranchType(id) in {MAIN, SIDE}
    ensures p.ledger.tip.Some? && id in p.store.blocks
    ensures var tip := p.ledger.tip.value.id;
            tip in p.store.blocks &&
            (id != tip ==> Overtakes(p.store.blocks[tip].block, p.store.blocks[tip].when, p.store.blocks[id]))
  {
    TipOf(p.cfg.prune, p.ledger.View(), p.chain, p.tree.Keys);
  }

  /** What the index holds at a height is stored there, and linked to what it holds below. */
  lemma StoredAt(heights: map<int, BlockID>, chain: seq<Block>, blocks: Blocks, h: int)
    requires heights == (map i | 0 <= i < |chain| :: chain[i].header.id) && Walkable(blocks, chain)
    ensures h in heights <==> 0 <= h < |chain|
    ensures h in heights ==>
              && heights[h] == chain[h].header.id && heights[h] in blocks && blocks[heights[h]].block == chain[h]
              && chain[h].header.height == h
              && (h > 0 ==> h - 1 in heights && chain[h].header.previous == heights[h - 1])
  {
    if 0 < h < |chain| {
      assert LinkedAt(chain, h);
    }
  }

  lemma FlaggedAt(flagged: set<BlockID>, chain: seq<Block>, h: int)
    requires IDs(chain) <= flagged && 0 <= h < |chain|
    ensures chain[h].header.id in Flags(flagged, chain) && Flags(flagged, chain)[chain[h].header.id] == MAIN
  {
    assert chain[h].header.id in IDs(chain);
  }

  lemma IndexIsChain(prune: bool, l: Ledger, chain: seq<Block>, flagged: set<BlockID>, blocks: Blocks, h: int)
    requires Represents(prune, l, chain, flagged) && chain != [] && Walkable(blocks, chain)
    ensures l.core.tip == Some(Tip(chain[|chain| - 1].header.id, |chain| - 1))
    ensures h in l.core.heights <==> 0 <= h < |chain|
    ensures h in l.core.heights ==>
              && l.core.heights[h] == chain[h].header.id && chain[h].header.id in blocks
                  && blocks[chain[h].header.id].block == chain[h]
              && chain[h].header.height == h && chain[h].header.id in l.branch && l.branch[chain[h].header.id] == MAIN
              && (h > 0 ==> h - 1 in l.core.heights && chain[h].header.previous == l.core.heights[h - 1])
  {
    ReplayDescribed(prune, chain);
    StoredAt(l.core.heights, chain, blocks, h);
    if 0 <= h < |chain| {
      FlaggedAt(flagged, chain, h);
    }
  }

  /** The height index is the main chain: contiguous from genesis to the tip, linked, and flagged MAIN. */
  lemma HeightIndexIsMainChain(p: Processor, h: int)
    requires p.Running()
    ensures p.ledger.tip.Some?
    ensures h in p.ledger.heights <==> 0 <= h <= p.ledger.tip.value.height
    ensures h in p.ledger.heights ==>
              && p.ledger.heights[h] in p.store.blocks && p.ledger.GetBranchType(p.ledger.heights[h]) == MAIN
              && var header := p.store.blocks[p.ledger.heights[h]].block.header;
                 && header.height == h
                 && (h == 0 ==> header == p.cfg.genesis.header)
                 && (h > 0 ==> h - 1 in p.ledger.heights && header.previous == p.ledger.heights[h - 1])
                 && (h == p.ledger.tip.value.height ==> header.id == p.ledger.tip.value.id)
  {
    OnBranchFacts(p.cfg.genesis, p.tree, p.chain, p.store.blocks);
    IndexIsChain(p.cfg.prune, p.ledger.View(), p.chain, p.tree.Keys, p.store.blocks, h);
  }

  /** And every block flagged MAIN is in the height index. */
  lemma MainIsInHeightIndex(p: Processor, id: BlockID)
    requires p.Running() && p.ledger.GetBranchType(id) == MAIN
    ensures exists h :: h in p.ledger.heights && p.ledger.heights[h] == id
  {
    ReplayDescribed(p.cfg.prune, p.chain);
    var i :| 0 <= i < |p.chain| && p.chain[i].header.id == id;
    assert i in p.ledger.heights && p.ledger.heights[i] == id;
  }

  /** Every block that carries a flag satisfies its proof of work, its checkpoint, its limit, its root and its clock. */
  lemma EveryBlockChecked(p: Processor, id: BlockID)
    requires p.Running() && p.ledger.GetBranchType(id) in {MAIN, SIDE}
    ensures id in p.store.blocks
    ensures var stored := p.store.blocks[id];
            var header, txs := stored.block.header, stored.block.txs;
            && header.id == id <= header.target
            && 0 <= header.height && |txs| <= ComputeMaxTransactionsPerBlock(header.height)
            && (header.height in p.cfg.checkpoints ==> p.cfg.checkpoints[header.height] == id)
            && header.hashListRoot == p.cfg.hashListRoot(txs) && header.transactionCount == |txs|
            && 0 <= header.time <= stored.when + 7200 && 0 <= header.nonce < TWO_53 && header.height < TWO_53
  {
    assert id in p.tree;
    assert BlockAt(p.cfg, p.tree, id);
  }

  const TWO_53: nat := 0x20_0000_0000_0000

  /** Every transaction of every such block is sane: the first one is a coinbase, and all others pay somebody else. */
  lemma EveryTransactionSane(p: Processor, id: BlockID, i: nat)
    requires p.Running() && p.ledger.GetBranchType(id) in {MAIN, SIDE}
    requires id in p.store.blocks && i < |p.store.blocks[id].block.txs|
    ensures var tx := p.store.blocks[id].block.txs[i];
            && (tx.body.from == None <==> i == 0) && tx.body.from != Some(tx.body.to)
            && 0 < tx.body.amount <= MAX_MONEY && 0 <= tx.body.fee <= MAX_MONEY && |tx.body.memo| <= 100
            && 0 <= tx.body.time < TWO_53 && 0 <= tx.body.nonce && 0 < tx.body.series < TWO_53
            && 0 <= tx.body.matures < TWO_53 && 0 <= tx.body.expires < TWO_53
            && (i == 0 ==> tx.body.fee == tx.body.matures == tx.body.expires == 0 && tx.signature == "")
  {
    assert id in p.tree;
    assert BlockAt(p.cfg, p.tree, id);
  }

  /** No payment in such a block is past its expiration or of a series of another time, and all are signed. */
  lemma EveryPaymentTimely(p: Processor, id: BlockID, i: nat)
    requires p.Running() && p.ledger.GetBranchType(id) in {MAIN, SIDE}
    requires id in p.store.blocks && 1 <= i < |p.store.blocks[id].block.txs|
    ensures var header, tx := p.store.blocks[id].block.header, p.store.blocks[id].block.txs[i];
            && (tx.body.expires == 0 || header.height <= tx.body.expires)
            && (tx.body.matures == 0 || header.height <= tx.body.matures)
            && header.height / 1008 <= tx.body.series <= header.height / 1008 + 1
            && p.cfg.verify(tx)
  {
    assert id in p.tree;
    assert BlockAt(p.cfg, p.tree, id);
    var block := p.tree[id].block;
    assert TimelyAt(block.txs[i], block.header.height);
  }

  /** No more is any payment in the queue, for the next block; and each pays at least the minimum. */
  lemma EveryQueuedTimely(p: Processor, i: nat)
    requires p.Running() && i < |p.queue.txQueue|
    ensures var height, tx := |p.chain|, p.queue.txQueue[i];
            && (tx.body.expires == 0 || height <= tx.body.expires)
            && (tx.body.matures == 0 || height <= tx.body.matures)
            && height / 1008 <= tx.body.series <= height / 1008 + 1
            && tx.body.fee >= 1000000 && tx.body.amount >= 1000000
            && tx.body.from.Some? && p.cfg.verify(tx) && Unconfirmed(tx, p.chain)
  {
    var tx := p.queue.txQueue[i];
    assert tx in p.queue.txQueue && Eligible(tx, |p.chain|);
  }

  /** Every branch, once it is as high as a checkpoint, goes through it. */
  lemma BranchesPassCheckpoints(p: Processor, branch: seq<Block>, h: int)
    requires p.Running() && OnBranch(p.cfg.genesis, p.tree, branch) && h in p.cfg.checkpoints && 0 <= h < |branch|
    ensures branch[h].header.id == p.cfg.checkpoints[h]
  {
    OnBranchFacts(p.cfg.genesis, p.tree, branch, p.tree);
    assert BlockAt(p.cfg, p.tree, branch[h].header.id);
  }

  lemma ChainRewarded(cfg: Config, tree: Blocks, chain: seq<Block>)
    requires Accepted(cfg, tree) && OnBranch(cfg.genesis, tree, chain)
    ensures Rewarded(chain)
  {
    OnBranchFacts(cfg.genesis, tree, chain, tree);
    forall i | 0 <= i < |chain| ensures PaysReward(chain[i].txs, i) {
      assert BlockAt(cfg, tree, chain[i].header.id);
    }
  }

  /** The balances add up to the matured rewards less the immature fees; each is money that exists. */
  lemma MoneySupply(p: Processor, key: PublicKey)
    requires p.Running()
    ensures Total(p.ledger.balances) == ExpectedTotal(p.chain)
    ensures 0 <= Bal(p.ledger.balances, key) <= MAX_MONEY
    ensures forall i :: 0 <= i < |p.chain| ==>
              p.chain[i].txs != [] && p.chain[i].txs[0].body.amount == BlockCreationReward(i) + Fees(p.chain[i].txs)
  {
    ChainRewarded(p.cfg, p.tree, p.chain);
    MoneyIsConserved(p.cfg.prune, p.chain);
    BalancesAreMoney(p.cfg.prune, p.chain, key);
    assert forall i :: 0 <= i < |p.chain| ==> ExactReward(p.chain[i].txs, i);
  }

  /** No transaction is confirmed twice, and the index holds exactly the window's transactions. */
  lemma ConfirmedAtMostOnce(p: Processor, i: nat, j: nat, id: TransactionID)
    requires p.Running() && i < j < |p.chain|
    ensures !(id in TxIDs(p.chain[i].txs) && id in TxIDs(p.chain[j].txs))
    ensures var lo := if p.cfg.prune && |p.chain| >= 2016 then |p.chain| - 2016 else 0;
            id in p.ledger.txIndex <==> exists h :: lo <= h < |p.chain| && id in TxIDs(p.chain[h].txs)
  {
    ConfirmedOn(p.cfg.prune, p.ledger.View(), p.chain, p.tree.Keys, i, j, id);
  }

  lemma ConfirmedOn(prune: bool, l: Ledger, chain: seq<Block>, flagged: set<BlockID>, i: nat, j: nat, id: TransactionID)
    requires Represents(prune, l, chain, flagged) && i < j < |chain|
    ensures !(id in TxIDs(chain[i].txs) && id in TxIDs(chain[j].txs))
    ensures id in l.core.txIndex <==> exists h :: Lo(prune, |chain|) <= h < |chain| && id in TxIDs(chain[h].txs)
  {
    ReplayDescribed(prune, chain);
    OnlyOnce(chain, i, j, id);
    IndexedIn(chain, Lo(prune, |chain|), l.core.txIndex, id);
  }

  lemma OnlyOnce(chain: seq<Block>, i: nat, j: nat, id: TransactionID)
    requires ConfirmedOnce(chain) && i < j < |chain|
    ensures !(id in TxIDs(chain[i].txs) && id in TxIDs(chain[j].txs))
  {
  }

  lemma IndexedIn(chain: seq<Block>, lo: nat, txIndex: map<TransactionID, Place>, id: TransactionID)
    requires txIndex == PlacesFrom(chain, lo)
    ensures id in txIndex <==> exists h :: lo <= h < |chain| && id in TxIDs(chain[h].txs)
  {
    PlacesFromKeys(chain, lo);
  }

  /** No queued payment leaves its sender with less than a minimal payment costs, unless with nothing. */
  lemma NoDust(p: Processor, i: nat)
    requires p.Running() && i < |p.queue.txQueue|
    ensures var q := p.queue.txQueue;
            && q[i].body.from.Some?
            && var left := Bal(ApplyAll(p.ledger.balances, q[..i]), q[i].body.from.value)
                           - q[i].body.amount - q[i].body.fee;
               left == 0 || left >= 2000000
  {
    EveryQueuedTimely(p, i);
    PaysInTurn(p.ledger.balances, p.queue.txQueue, i);
  }

  lemma PaysInTurn(b: Table, q: seq<Transaction>, i: nat)
    requires CanApplyAll(b, q, MIN_BALANCE) && i < |q| && !IsCoinbase(q[i])
    ensures var left := Bal(ApplyAll(b, q[..i]), q[i].body.from.value) - q[i].body.amount - q[i].body.fee;
            left == 0 || left >= 2000000
  {
    CanApplyPrefix(b, q, i + 1, MIN_BALANCE);
    assert q[..i + 1][..i] == q[..i];
    PossibleWhen(ApplyAll(b, q[..i]), q[i], MIN_BALANCE);
  }

  lemma {:induction false} TxPlacesPoint(txs: seq<Transaction>, height: int, id: TransactionID)
    requires id in TxPlaces(txs, height)
    ensures var place := TxPlaces(txs, height)[id];
            place.height == height && 0 <= place.index < |txs| && ID(txs[place.index]) == id
  {
    var n := |txs| - 1;
    if ID(txs[n]) != id {
      TxPlacesPoint(txs[..n], height, id);
    }
  }

  lemma {:induction false} PlacesPoint(chain: seq<Block>, lo: nat, id: TransactionID)
    requires id in PlacesFrom(chain, lo)
    ensures var place := PlacesFrom(chain, lo)[id];
            && lo <= place.height < |chain| && 0 <= place.index < |chain[place.height].txs|
            && ID(chain[place.height].txs[place.index]) == id
  {
    var n := |chain| - 1;
    if id in TxPlaces(chain[n].txs, n) {
      TxPlacesPoint(chain[n].txs, n, id);
    } else {
      PlacesPoint(chain[..n], lo, id);
    }
  }

  /** The transaction index points to where on the main chain a transaction is. */
  lemma IndexPoints(p: Processor, id: TransactionID)
    requires p.Running() && id in p.ledger.txIndex
    ensures var place := p.ledger.txIndex[id];
            && 0 <= place.height < |p.chain| && 0 <= place.index < |p.chain[place.height].txs|
            && ID(p.chain[place.height].txs[place.index]) == id
  {
    ReplayDescribed(p.cfg.prune, p.chain);
    PlacesPoint(p.chain, Lo(p.cfg.prune, |p.chain|), id);
  }

  // ----- when a block connects

  /** The balances that transaction i of a block meets: after the matured coinbase and the payments before it. */
  ghost function BalancesAt(b: Table, mature: Option<Transaction>, txs: seq<Transaction>, i: nat): Table
    requires 1 <= i <= |txs|
  {
    ApplyAll(b, MatureList(mature) + txs[1..i])
  }

  /** Its sender has amount and fee. */
  ghost predicate SenderCanPay(b: Table, mature: Option<Transaction>, txs: seq<Transaction>, i: nat)
    requires 1 <= i < |txs| && !IsCoinbase(txs[i])
  {
    Bal(BalancesAt(b, mature, txs, i), txs[i].body.from.value) >= txs[i].body.amount + txs[i].body.fee
  }

  ghost predicate AllCanPay(b: Table, mature: Option<Transaction>, txs: seq<Transaction>, n: nat)
    requires 1 <= n <= |txs| && CheckTransactions(txs)
  {
    forall i :: 1 <= i < n ==> SenderCanPay(b, mature, txs, i)
  }

  lemma OneMorePays(b: Table, mature: Option<Transaction>, txs: seq<Transaction>, n: nat)
    requires 1 <= n < |txs| && CheckTransactions(txs)
    ensures AllCanPay(b, mature, txs, n + 1) <==> AllCanPay(b, mature, txs, n) && SenderCanPay(b, mature, txs, n)
  {
  }

  ghost predicate AppliesIffAllCanPay(b: Table, mature: Option<Transaction>, txs: seq<Transaction>, n: nat)
    requires 1 <= n <= |txs| && CheckTransactions(txs)
  {
    CanApplyAll(b, MatureList(mature) + txs[1..n], 0) <==> AllCanPay(b, mature, txs, n)
  }

  lemma NoneToPay(b: Table, mature: Option<Transaction>, txs: seq<Transaction>)
    requires CheckTransactions(txs) && (mature.Some? ==> IsCoinbase(mature.value))
    ensures AppliesIffAllCanPay(b, mature, txs, 1)
  {
    assert MatureList(mature) + txs[1..1] == MatureList(mature);
    if mature.Some? {
      assert MatureList(mature)[..0] == [];
    }
  }

  lemma NextApplies(b: Table, mature: Option<Transaction>, txs: seq<Transaction>, n: nat)
    requires 1 < n <= |txs| && CheckTransactions(txs) && AppliesIffAllCanPay(b, mature, txs, n - 1)
    ensures AppliesIffAllCanPay(b, mature, txs, n)
  {
    OnePays(b, mature, txs, n - 1);
    OneMorePays(b, mature, txs, n - 1);
  }

  lemma {:induction false} PaymentsApply(b: Table, mature: Option<Transaction>, txs: seq<Transaction>, n: nat)
    requires 1 <= n <= |txs| && CheckTransactions(txs) && (mature.Some? ==> IsCoinbase(mature.value))
    ensures AppliesIffAllCanPay(b, mature, txs, n)
  {
    if n == 1 {
      NoneToPay(b, mature, txs);
    } else {
      PaymentsApply(b, mature, txs, n - 1);
      NextApplies(b, mature, txs, n);
    }
  }

  lemma OnePays(b: Table, mature: Option<Transaction>, txs: seq<Transaction>, i: nat)
    requires 1 <= i < |txs| && CheckTransactions(txs)
    ensures CanApplyAll(b, MatureList(mature) + txs[1..i + 1], 0) <==>
              CanApplyAll(b, MatureList(mature) + txs[1..i], 0) && SenderCanPay(b, mature, txs, i)
  {
    var before := MatureList(mature) + txs[1..i];
    assert MatureList(mature) + txs[1..i + 1] == before + [txs[i]];
    assert (before + [txs[i]])[..|before|] == before;
    PossibleWhen(ApplyAll(b, before), txs[i], 0);
  }

  lemma NoneIndexedIff(txs: seq<Transaction>, txIndex: map<TransactionID, Place>)
    ensures TxIDs(txs) !! txIndex.Keys <==> forall i :: 0 <= i < |txs| ==> ID(txs[i]) !in txIndex
  {
    if i :| 0 <= i < |txs| && ID(txs[i]) in txIndex {
      assert ID(txs[i]) in TxIDs(txs);
    }
  }

  /**
  A sane block on the tip connects exactly if none of its transactions is in the index, and each
  sender has amount and fee when it is their turn.
  */
  lemma ConnectsWhen(prune: bool, l: Ledger, chain: seq<Block>, flagged: set<BlockID>, blocks: Blocks, block: Block)
    requires Represents(prune, l, chain, flagged) && chain != [] && Holds(blocks, chain)
    requires CheckTransactions(block.txs) && block.header.height == |chain|
    requires block.header.previous == chain[|chain| - 1].header.id
    ensures Connect(prune, l, blocks, block).Some? <==>
              && (forall i :: 0 <= i < |block.txs| ==> ID(block.txs[i]) !in l.core.txIndex)
              && AllCanPay(l.core.balances, Matured(chain), block.txs, |block.txs|)
  {
    var txs, mature := block.txs, Matured(chain);
    ReplayDescribed(prune, chain);
    ConnectValue(prune, l, blocks, chain, block);
    NoneIndexedIff(txs, l.core.txIndex);
    MaturedPays(chain);
    assert txs == [txs[0]] + txs[1..] && txs[1..|txs|] == txs[1..];
    EffectsOfPayments(txs[0], txs[1..], mature);
    PaymentsApply(l.core.balances, mature, txs, |txs|);
  }

  lemma MaturedPays(chain: seq<Block>)
    requires Shaped(chain)
    ensures var m := Matured(chain); m.Some? ==> IsCoinbase(m.value) && m.value.body.amount > 0
  {
    if |chain| >= COINBASE_MATURITY {
      assert SaneAt(chain, |chain| - COINBASE_MATURITY);
    }
  }

  /** So on a running node. */
  lemma BlockConnectsWhen(p: Processor, block: Block)
    requires p.Running() && CheckTransactions(block.txs)
    requires block.header.height == |p.chain| && block.header.previous == p.TipID()
    ensures Connect(p.cfg.prune, p.ledger.View(), p.store.blocks, block).Some? <==>
              && (forall i :: 0 <= i < |block.txs| ==> ID(block.txs[i]) !in p.ledger.txIndex)
              && AllCanPay(p.ledger.balances, Matured(p.chain), block.txs, |block.txs|)
  {
    OnBranchFacts(p.cfg.genesis, p.tree, p.chain, p.store.blocks);
    ConnectsWhen(p.cfg.prune, p.ledger.View(), p.chain, p.tree.Keys, p.store.blocks, block);
  }

  lemma BranchHeader(cfg: Config, tree: Blocks, deep: set<BlockID>, branch: seq<Block>, k: nat)
    requires Accepted(cfg, tree) && TargetsOK(cfg.genesis, tree, deep)
    requires OnBranch(cfg.genesis, tree, branch) && 1 <= k < |branch|
    ensures HeaderOK(branch[..k], branch[k].header)
    ensures branch[k].header.id !in deep ==> TargetOn(branch[..k]) == Some(branch[k].header.target)
  {
    var genesis, id := cfg.genesis, branch[k].header.id;
    OnBranchFacts(genesis, tree, branch, tree);
    assert LinkedAt(branch, k);
    OnBranchPrefix(genesis, tree, branch, k);
    assert branch[..k][k - 1] == branch[k - 1];
    assert id != genesis.header.id;
    assert HeaderAt(cfg, tree, id);
    assert id !in deep ==> TargetAt(genesis, tree, id);
  }

  lemma BranchFollows(cfg: Config, tree: Blocks, deep: set<BlockID>, branch: seq<Block>)
    requires ValidGenesis(cfg) && Accepted(cfg, tree) && TargetsOK(cfg.genesis, tree, deep)
    requires OnBranch(cfg.genesis, tree, branch)
    requires forall k :: 0 <= k < |branch| ==> branch[k].header.id !in deep
    ensures WorkAdds(branch) && TargetsFollow(branch)
  {
    OnBranchFacts(cfg.genesis, tree, branch, tree);
    forall k | 1 <= k < |branch|
      ensures ChainWork(branch[k].header.target, branch[k - 1].header.chainWork) == Some(branch[k].header.chainWork)
      ensures TargetOn(branch[..k]) == Some(branch[k].header.target)
    {
      BranchHeader(cfg, tree, deep, branch, k);
    }
  }

  /** Along every branch, on the main chain or not, the median time never decreases. */
  lemma MedianNeverFallsOn(p: Processor, branch: seq<Block>, i: nat, j: nat)
    requires p.Running() && OnBranch(p.cfg.genesis, p.tree, branch) && 1 <= i <= j <= |branch|
    ensures MedianOf(branch[..i]) <= MedianOf(branch[..j])
    ensures forall k :: i <= k < j ==> branch[k].header.time > MedianOf(branch[..k])
  {
    forall k {:trigger LaterAt(branch, k)} | 1 <= k < |branch| ensures LaterAt(branch, k) {
      BranchHeader(p.cfg, p.tree, p.deep, branch, k);
    }
    MedianNeverFalls(branch, i, j);
    forall k | i <= k < j ensures branch[k].header.time > MedianOf(branch[..k]) {
      assert LaterAt(branch, k);
    }
  }

  /** On every branch without a deep fork, targets stay in range and work strictly increases. */
  lemma {:induction false} WorkIncreasesOn(p: Processor, branch: seq<Block>, j: nat, i: nat)
    requires p.Running() && OnBranch(p.cfg.genesis, p.tree, branch) && j < i < |branch|
    requires forall k :: 0 <= k < |branch| ==> branch[k].header.id !in p.deep
    ensures branch[i].header.chainWork == branch[j].header.chainWork + WorkSum(branch, j, i)
    ensures branch[i].header.chainWork > branch[j].header.chainWork
    ensures 0 < branch[i].header.target <= INITIAL_TARGET
    ensures i <= BITCOIN_CASH_RETARGET_ALGORITHM_HEIGHT ==> branch[i].header.target >= LEAST_EARLY_TARGET
  {
    BranchFollows(p.cfg, p.tree, p.deep, branch);
    ChainWorkIncreases(branch, j, i);
    TargetsInRange(branch, |branch|);
    if i <= BITCOIN_CASH_RETARGET_ALGORITHM_HEIGHT {
      RangeFloor(branch[i].header.target, i);
    }
  }

  /** On top of such a branch the next target is computed without a panic, and is in range. */
  lemma NextTargetExistsOn(p: Processor, branch: seq<Block>)
    requires p.Running() && OnBranch(p.cfg.genesis, p.tree, branch)
    requires forall k :: 0 <= k < |branch| ==> branch[k].header.id !in p.deep
    ensures TargetOn(branch).Some? && 0 < TargetOn(branch).value <= INITIAL_TARGET
    ensures ShallowOn(p.chain, branch) ==>
              RequiredTarget(p.ledger.heights, p.store.blocks, branch) == TargetOn(branch)
  {
    BranchFollows(p.cfg, p.tree, p.deep, branch);
    NextTargetExists(branch);
    OnBranchFacts(p.cfg.genesis, p.tree, branch, p.store.blocks);
    TargetOnBranch(p.cfg.prune, p.ledger.View(), p.chain, p.tree.Keys, branch, p.store.blocks);
  }

  ghost function ChainIDs(chain: seq<Block>): seq<BlockID> {
    seq<BlockID>(|chain|, i requires 0 <= i < |chain| => chain[i].header.id)
  }

  /** A peer serves the main chain of the node's processor. */
  lemma PeerServes(p: Processor, peer: Locator.Peer)
    requires p.Running() && peer.ledger == p.ledger
    requires peer.store == p.store && peer.genesisID == p.cfg.genesis.header.id
    ensures peer.Serves(ChainIDs(p.chain))
  {
    OnBranchFacts(p.cfg.genesis, p.tree, p.chain, p.store.blocks);
    ServesChain(p.cfg.prune, p.ledger.View(), p.chain, p.tree.Keys, p.store.blocks, p.cfg.genesis, ChainIDs(p.chain));
    forall id ensures id in ChainIDs(p.chain) <==> p.ledger.GetBranchType(id) == MAIN {
      assert id in ChainIDs(p.chain) <==> id in p.ledger.branch && p.ledger.branch[id] == MAIN;
    }
  }

  lemma ServesChain(prune: bool, l: Ledger, chain: seq<Block>, flagged: set<BlockID>, blocks: Blocks, genesis: Block,
          ids: seq<BlockID>)
    requires Represents(prune, l, chain, flagged) && chain != [] && Walkable(blocks, chain) && chain[0] == genesis
    requires ids == ChainIDs(chain)
    ensures Locator.IsChain(ids, genesis.header.id) && l.core.heights == Locator.HeightsOf(ids)
    ensures l.core.tip == Some(Tip(ids[|ids| - 1], |ids| - 1))
    ensures forall id :: id in ids <==> id in l.branch && l.branch[id] == MAIN
    ensures forall i :: 0 <= i < |ids| ==> ids[i] in blocks && blocks[ids[i]].block.header.height == i
  {
    ReplayDescribed(prune, chain);
    forall id ensures id in ids <==> id in l.branch && l.branch[id] == MAIN {
      SameIDs(chain, id);
    }
    IDsDiffer(blocks, chain, ids);
  }

  lemma SameIDs(chain: seq<Block>, id: BlockID)
    ensures id in ChainIDs(chain) <==> id in IDs(chain)
  {
    if id in ChainIDs(chain) {
      var i :| 0 <= i < |chain| && ChainIDs(chain)[i] == id;
      assert chain[i].header.id in IDs(chain);
    }
    if id in IDs(chain) {
      var i :| 0 <= i < |chain| && chain[i].header.id == id;
      assert ChainIDs(chain)[i] == id;
    }
  }

  lemma IDsDiffer(blocks: Blocks, chain: seq<Block>, ids: seq<BlockID>)
    requires Holds(blocks, chain) && Climbs(chain) && ids == ChainIDs(chain)
    ensures forall i, j :: 0 <= i < j < |ids| ==> ids[i] != ids[j]
  {
    forall i, j | 0 <= i < j < |ids| ensures ids[i] != ids[j] {
      assert chain[i].header.height != chain[j].header.height;
    }
  }

  // ----- two nodes

  /** Blocks with the same ID are the same. */
  ghost predicate Coincide(a: seq<Block>, b: seq<Block>) {
    forall i, j :: 0 <= i < |a| && 0 <= j < |b| && a[i].header.id == b[j].header.id ==> a[i] == b[j]
  }

  /** Chains that meet at a height are the same below it. */
  lemma {:induction false} SameBelow(a: seq<Block>, b: seq<Block>, i: nat, k: nat)
    requires Linked(a) && Linked(b) && Coincide(a, b) && k <= i < |a| && i < |b| && a[i] == b[i]
    ensures a[k] == b[k]
    decreases i
  {
    if k < i {
      assert LinkedAt(a, i) && LinkedAt(b, i);
      SameBelow(a, b, i - 1, k);
    }
  }

  /** Two chains from the same genesis part somewhere, for good. */
  lemma ChainsPart(a: seq<Block>, b: seq<Block>) returns (c: nat)
    requires Linked(a) && Linked(b) && Climbs(a) && Climbs(b) && Coincide(a, b)
    requires a != [] && b != [] && a[0] == b[0]
    ensures Locator.PartsAt(ChainIDs(a), ChainIDs(b), c)
  {
    c := 1;
    while c < |a| && c < |b| && a[c] == b[c]
      invariant 1 <= c <= |a| && c <= |b| && forall k :: 0 <= k < c ==> a[k] == b[k]
    {
      c := c + 1;
    }
    forall i, j | c <= i < |a| && 0 <= j < |b| ensures a[i].header.id != b[j].header.id {
      if a[i].header.id == b[j].header.id {
        assert i == j;
        SameBelow(a, b, i, c);
      }
    }
  }

  /** So two nodes with the same genesis, whose blocks agree, have chains that part. */
  lemma NodesPart(p: Processor, q: Processor) returns (c: nat)
    requires p.Running() && q.Running() && p.cfg.genesis == q.cfg.genesis
    requires forall id :: id in p.tree && id in q.tree ==> p.tree[id].block == q.tree[id].block
    ensures Locator.PartsAt(ChainIDs(p.chain), ChainIDs(q.chain), c)
  {
    OnBranchFacts(p.cfg.genesis, p.tree, p.chain, p.tree);
    OnBranchFacts(q.cfg.genesis, q.tree, q.chain, q.tree);
    c := ChainsPart(p.chain, q.chain);
  }
}
