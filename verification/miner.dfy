/**
Building a block on the tip: the queue's transactions behind a fresh coinbase pass the checks
of the processor and connect; and adding one more transaction to it keeps its header right.
*/
module Miner {
  import opened Types
  import opened Rules
  import opened Balances
  import opened LedgerModel
  import opened LedgerDB
  import opened MedianTime
  import opened Work
  import opened Forks
  import opened ChainWalks
  import opened Conservation
  import opened Queue
  import opened NodeModel
  import opened BlockProcessor
  import opened Reachable
  import opened Targets
  import opened Schedule
  import opened Supply

  /** What the miner puts into a coinbase: whom it pays, a memo, the clock and a random number. */
  datatype Claim = Claim(key: PublicKey, memo: string, time: int, nonce: int)

  /** The coinbase of a block at this height. */
  function NewCoinbase(claim: Claim, amount: int, height: nat): Transaction {
    Transaction(Body(claim.time, claim.nonce, None, claim.key, amount, 0, claim.memo, 0, 0,
                     height / BLOCKS_UNTIL_NEW_SERIES + 1), "")
  }

  /** The transactions of a block with these payments. */
  function MinedTxs(height: nat, payments: seq<Transaction>, claim: Claim): seq<Transaction> {
    [NewCoinbase(claim, BlockCreationReward(height) + Fees(payments), height)] + payments
  }

  /** The payments that a miner takes from a queue. */
  function Front(q: seq<Transaction>): seq<Transaction> {
    if |q| < MAX_TRANSACTIONS_TO_INCLUDE_PER_BLOCK - 1 then q else q[..MAX_TRANSACTIONS_TO_INCLUDE_PER_BLOCK - 1]
  }

  /** A clock and a random number in range, a memo that is not too long, and something to pay out. */
  predicate Minable(height: nat, payments: seq<Transaction>, claim: Claim) {
    && 0 <= claim.time <= MAX_NUMBER && 0 <= claim.nonce && |claim.memo| <= MAX_MEMO_LENGTH
    && (BlockCreationReward(height) > 0 || Fees(payments) > 0)
  }

  /** What the queue's balances allow is still allowed after the matured coinbase is credited. */
  lemma QueueApplies(b: Table, q: seq<Transaction>, n: nat, mature: Option<Transaction>, height: nat)
    requires Ready(b, q, height) && n <= |q|
    requires (mature.Some? ==> IsCoinbase(mature.value) && mature.value.body.amount > 0)
    ensures CanApplyAll(b, MatureList(mature) + q[..n], 0)
  {
    var first := MatureList(mature);
    CanApplyPrefix(b, q, n, MIN_BALANCE);
    MatureCovers(b, mature);
    ApplyAllKeepsCovers(ApplyAll(b, first), b, q[..n], MIN_BALANCE);
    ApplyAllAppend(b, first, q[..n], 0);
  }

  lemma MatureCovers(b: Table, mature: Option<Transaction>)
    requires mature.Some? ==> IsCoinbase(mature.value) && mature.value.body.amount > 0
    ensures Covers(ApplyAll(b, MatureList(mature)), b) && CanApplyAll(b, MatureList(mature), 0)
  {
    if mature.Some? {
      assert MatureList(mature)[..0] == [];
    }
  }

  /** Queued transactions and a coinbase make a sane list of transactions. */
  lemma SaneTogether(cfg: Config, q: seq<Transaction>, n: nat, chain: seq<Block>, coinbase: Transaction)
    requires QueueOK(cfg, q, chain) && DistinctIDs(q) && n <= |q| && IsCoinbase(coinbase) && CheckTransaction(coinbase)
    ensures CheckTransactions([coinbase] + q[..n])
  {
    var txs := [coinbase] + q[..n];
    forall i | 1 <= i < |txs| ensures txs[i] in q && Queueable(cfg, txs[i]) {
      assert txs[i] == q[i - 1];
    }
    forall i, j | 0 <= i < j < |txs| ensures ID(txs[i]) != ID(txs[j]) {
      if i > 0 {
        assert txs[i] == q[i - 1] && txs[j] == q[j - 1];
      }
    }
  }

  /** They are timely at the next height, whatever part of the queue is taken. */
  lemma TimelyTogether(cfg: Config, b: Table, q: seq<Transaction>, n: nat, chain: seq<Block>, coinbase: Transaction)
    requires QueueOK(cfg, q, chain) && Ready(b, q, |chain|) && n <= |q|
    requires IsCoinbase(coinbase) && CheckTransactionSeries(coinbase, |chain|)
    ensures AllTimely([coinbase] + q[..n], |chain|) && Verified(cfg, [coinbase] + q[..n])
  {
    var txs := [coinbase] + q[..n];
    forall i | 1 <= i < |txs| ensures txs[i] in q && Eligible(txs[i], |chain|) && Queueable(cfg, txs[i]) {
      assert txs[i] == q[i - 1];
    }
  }

  lemma NoneConfirmed(prune: bool, l: Ledger, chain: seq<Block>, flagged: set<BlockID>, cfg: Config,
          q: seq<Transaction>, n: nat, coinbase: Transaction)
    requires Represents(prune, l, chain, flagged) && QueueOK(cfg, q, chain)
    requires n <= |q| && ID(coinbase) !in l.core.txIndex
    ensures TxIDs([coinbase] + q[..n]) !! l.core.txIndex.Keys
  {
    var txs := [coinbase] + q[..n];
    forall i | 0 <= i < |txs| ensures ID(txs[i]) !in l.core.txIndex {
      if i > 0 {
        assert txs[i] == q[i - 1] && txs[i] in q;
        IndexTells(prune, l, chain, flagged, txs[i]);
      }
    }
  }

  /** No sender runs out of money, and nothing is confirmed already. */
  lemma MinedCanConnect(prune: bool, l: Ledger, chain: seq<Block>, flagged: set<BlockID>, cfg: Config,
          q: seq<Transaction>, n: nat, coinbase: Transaction, block: Block)
    requires Represents(prune, l, chain, flagged) && QueueOK(cfg, q, chain) && n <= |q|
    requires Ready(l.core.balances, q, |chain|) && block.txs == [coinbase] + q[..n]
    requires IsCoinbase(coinbase) && ID(coinbase) !in l.core.txIndex
    ensures CanConnect(l.core, block, Matured(chain))
  {
    NoneConfirmed(prune, l, chain, flagged, cfg, q, n, coinbase);
    MaturedPays(chain);
    PaymentsFollow(cfg, q, n, chain, coinbase);
    QueueApplies(l.core.balances, q, n, Matured(chain), |chain|);
  }

  /** So the ledger connects such a block, and the chain with it replays. */
  lemma MinedConnects(prune: bool, l: Ledger, chain: seq<Block>, flagged: set<BlockID>, blocks: Blocks, block: Block)
    requires Represents(prune, l, chain, flagged) && chain != [] && Holds(blocks, chain)
    requires CanConnect(l.core, block, Matured(chain))
    requires block.header.height == |chain| && block.header.previous == chain[|chain| - 1].header.id
    ensures Connect(prune, l, blocks, block).Some?
    ensures CheckTransactions(block.txs) ==> Shaped(chain + [block]) && Replayable(prune, chain + [block])
  {
    ReplayDescribed(prune, chain);
    ConnectValue(prune, l, blocks, chain, block);
    if CheckTransactions(block.txs) {
      ReplayAppend(prune, chain, block);
    }
  }

  lemma PaymentsFollow(cfg: Config, q: seq<Transaction>, n: nat, chain: seq<Block>, coinbase: Transaction)
    requires Shaped(chain) && QueueOK(cfg, q, chain) && n <= |q| && IsCoinbase(coinbase)
    ensures Effects([coinbase] + q[..n], Matured(chain)) == MatureList(Matured(chain)) + q[..n]
  {
    forall i | 0 <= i < n ensures !IsCoinbase(q[..n][i]) {
      assert q[..n][i] in q;
    }
    EffectsOfPayments(coinbase, q[..n], Matured(chain));
  }

  /** Fees, added up in 64 bits. */
  method AddFees(txs: seq<Transaction>) returns (fees: int)
    ensures fees == Wrap64(Fees(txs))
  {
    fees := 0;
    var i := 0;
    while i < |txs|
      invariant 0 <= i <= |txs| && fees == Wrap64(Fees(txs[..i]))
    {
      FeesOneMore(txs, i);
      WrapAdd(Fees(txs[..i]), txs[i].body.fee);
      fees := Wrap64(fees + txs[i].body.fee);
      i := i + 1;
    }
    assert txs[..|txs|] == txs;
  }

  // ----- what the coinbase pays

  /** The fees of any front part of the queue exist in the ledger. */
  lemma FeesExist(cfg: Config, b: Table, q: seq<Transaction>, n: nat, chain: seq<Block>)
    requires QueueOK(cfg, q, chain) && Ready(b, q, |chain|) && Normal(b) && n <= |q|
    ensures 0 <= Fees(q[..n]) <= Total(b)
  {
    var part := q[..n];
    forall i | 0 <= i < n ensures Queueable(cfg, part[i]) {
      assert part[i] in q;
    }
    CanApplyPrefix(b, q, n, MIN_BALANCE);
    ApplyAllKeepsNormal(b, part, MIN_BALANCE);
    TotalOfPayments(b, part);
    TotalNotNegative(ApplyAll(b, part));
    FeesNotNegative(part);
  }

  lemma {:induction false} RewardSumGrows(m: nat, n: nat)
    requires m <= n
    ensures RewardSum(m) <= RewardSum(n)
  {
    if m < n {
      RewardSumGrows(m, n - 1);
    }
  }

  /** What is in the ledger and the next reward are money that exists. */
  lemma RoomForReward(chain: seq<Block>)
    requires Shaped(chain)
    ensures ExpectedTotal(chain) + BlockCreationReward(|chain|) <= MAX_MONEY
  {
    FeeSumMonotone(chain, MatureCount(|chain|), |chain|);
    RewardSumGrows(MatureCount(|chain|), |chain|);
    RewardsStayBelowMaxMoney(|chain| + 1);
  }

  lemma ExactIn64(reward: nat, fees: nat)
    requires reward + fees <= MAX_MONEY
    ensures Wrap64(reward + Wrap64(fees)) == reward + fees
  {
    SmallIn64(fees);
    SmallIn64(reward + fees);
  }

  lemma SmallIn64(x: nat)
    requires x <= MAX_MONEY
    ensures Wrap64(x) == x
  {
  }

  /** Reward and fees of the next block together are money. */
  lemma AmountIsMoney(p: Processor, n: nat)
    requires p.Running() && n <= |p.queue.txQueue|
    ensures IsMoney(|p.chain|, p.queue.txQueue[..n])
  {
    ReplayDescribed(p.cfg.prune, p.chain);
    MoneySupply(p, 0);
    FeesExist(p.cfg, p.ledger.balances, p.queue.txQueue, n, p.chain);
    RoomForReward(p.chain);
  }

  /** The chain is not so long that the next series is too large. */
  lemma SeriesInRange(p: Processor)
    requires p.Running()
    ensures |p.chain| / BLOCKS_UNTIL_NEW_SERIES + 1 <= MAX_NUMBER
  {
    OnBranchFacts(p.cfg.genesis, p.tree, p.chain, p.tree);
    assert BlockAt(p.cfg, p.tree, p.TipID());
  }

  /** The coinbase is sane exactly if the block is minable. */
  lemma SaneWhenMinable(p: Processor, n: nat, claim: Claim)
    requires p.Running() && n <= |p.queue.txQueue|
    ensures var payments := p.queue.txQueue[..n];
            CheckTransaction(MinedTxs(|p.chain|, payments, claim)[0]) <==> Minable(|p.chain|, payments, claim)
  {
    AmountIsMoney(p, n);
    SeriesInRange(p);
  }

  lemma RewardPaid(height: nat, payments: seq<Transaction>, claim: Claim)
    requires IsMoney(height, payments)
    ensures PaysReward(MinedTxs(height, payments, claim), height)
  {
    FeesOfPayments(MinedTxs(height, payments, claim)[0], payments);
    ExactIn64(BlockCreationReward(height), Fees(payments));
  }

  /** With a memo of 101 characters nothing that is mined is sane, whatever the node. */
  lemma LongMemoIsRefused(p: Processor, claim: Claim)
    requires p.Running() && claim.memo == seq(101, _ => 'm')
    ensures !CheckTransactions(MinedTxs(|p.chain|, Front(p.queue.txQueue), claim))
  {
  }

  /** Nor is a block without payments, once there is no reward. */
  lemma NothingToPayIsRefused(p: Processor, claim: Claim)
    requires p.Running() && |p.chain| >= 33 * BLOCKS_UNTIL_REWARD_HALVING && p.queue.txQueue == []
    ensures !CheckTransactions(MinedTxs(|p.chain|, Front(p.queue.txQueue), claim))
  {
    RewardEnds(|p.chain|);
  }

  /** What makes a header: everything but its transactions. */
  datatype Stamp = Stamp(id: BlockID, time: int, nonce: int)

  /** On the tip, with the right height, target and work. */
  ghost predicate HeaderFollows(p: Processor, header: BlockHeader)
    requires p.Running()
    reads p, p.store, p.ledger, p.queue, p.queue.balanceCache, p.queue.ledger
  {
    && header.height == |p.chain| && header.previous == p.TipID()
    && RequiredTarget(p.ledger.heights, p.store.blocks, p.chain) == Some(header.target)
    && ChainWork(header.target, p.chain[|p.chain| - 1].header.chainWork) == Some(header.chainWork)
  }

  /** The front of the queue behind a coinbase that pays reward and fees; timely, and verified. */
  ghost predicate PaymentsPass(p: Processor, txs: seq<Transaction>)
    reads p, p.queue
  {
    && txs != [] && IsCoinbase(txs[0]) && |txs| <= MAX_TRANSACTIONS_TO_INCLUDE_PER_BLOCK && txs[1..] <= p.queue.txQueue
    && AllTimely(txs, |p.chain|) && PaysReward(txs, |p.chain|) && Verified(p.cfg, txs)
    && (CheckTransactions(txs) <==> CheckTransaction(txs[0]))
  }

  /** With a fresh coinbase the ledger connects it, and with a sane one the chain with it replays. */
  ghost predicate Connects(p: Processor, block: Block)
    requires p.Running() && block.txs != []
    reads p, p.store, p.ledger, p.queue, p.queue.balanceCache, p.queue.ledger
  {
    ID(block.txs[0]) !in p.ledger.txIndex ==>
      && Connect(p.cfg.prune, p.ledger.View(), p.store.blocks, block).Some?
      && (CheckTransaction(block.txs[0]) ==> Shaped(p.chain + [block]) && Replayable(p.cfg.prune, p.chain + [block]))
  }

  /** A coinbase and the front of the queue, as far as one likes to take it. */
  lemma MinedPass(p: Processor, n: nat, claim: Claim)
    requires p.Running() && n <= |p.queue.txQueue| && n < MAX_TRANSACTIONS_TO_INCLUDE_PER_BLOCK
    ensures var payments := p.queue.txQueue[..n];
            var txs := MinedTxs(|p.chain|, payments, claim);
            PaymentsPass(p, txs) && (CheckTransactions(txs) <==> Minable(|p.chain|, payments, claim))
  {
    var q := p.queue.txQueue;
    var txs := MinedTxs(|p.chain|, q[..n], claim);
    AmountIsMoney(p, n);
    RewardPaid(|p.chain|, q[..n], claim);
    SaneWhenMinable(p, n, claim);
    GatheredPass(p, txs, n);
  }

  lemma GatheredPass(p: Processor, txs: seq<Transaction>, n: nat)
    requires p.Running() && n <= |p.queue.txQueue| && n < MAX_TRANSACTIONS_TO_INCLUDE_PER_BLOCK
    requires |txs| == n + 1 && txs == [txs[0]] + p.queue.txQueue[..n]
    requires IsCoinbase(txs[0]) && CheckTransactionSeries(txs[0], |p.chain|) && PaysReward(txs, |p.chain|)
    ensures PaymentsPass(p, txs)
  {
    var q := p.queue.txQueue;
    TimelyTogether(p.cfg, p.ledger.balances, q, n, p.chain, txs[0]);
    assert txs[1..] == q[..n];
    if CheckTransaction(txs[0]) {
      SaneTogether(p.cfg, q, n, p.chain, txs[0]);
    }
  }

  lemma GatheredConnect(p: Processor, block: Block, n: nat)
    requires p.Running() && n <= |p.queue.txQueue| && |block.txs| == n + 1
    requires block.txs == [block.txs[0]] + p.queue.txQueue[..n] && IsCoinbase(block.txs[0])
    requires block.header.height == |p.chain| && block.header.previous == p.TipID()
    requires CheckTransaction(block.txs[0]) ==> CheckTransactions(block.txs)
    ensures Connects(p, block)
  {
    if ID(block.txs[0]) !in p.ledger.txIndex {
      OnBranchFacts(p.cfg.genesis, p.tree, p.chain, p.store.blocks);
      MinedCanConnect(p.cfg.prune, p.ledger.View(), p.chain, p.tree.Keys, p.cfg, p.queue.txQueue, n,
          block.txs[0], block);
      MinedConnects(p.cfg.prune, p.ledger.View(), p.chain, p.tree.Keys, p.store.blocks, block);
    }
  }

  /** The computation of the next target or cumulative work panics. */
  ghost predicate NothingFollows(p: Processor)
    requires p.chain != []
    reads p, p.store, p.ledger
  {
    var target := RequiredTarget(p.ledger.heights, p.store.blocks, p.chain);
    target.None? || ChainWork(target.value, p.chain[|p.chain| - 1].header.chainWork).None?
  }

  /** The next target and cumulative work; `None` is a panic of their computation. */
  method NextTarget(p: Processor, tipHeader: BlockHeader) returns (r: Option<(nat, nat)>)
    requires p.Running() && tipHeader == p.chain[|p.chain| - 1].header
    ensures r.None? <==> NothingFollows(p)
    ensures r.Some? ==>
              && RequiredTarget(p.ledger.heights, p.store.blocks, p.chain) == Some(r.value.0)
              && ChainWork(r.value.0, tipHeader.chainWork) == Some(r.value.1)
  {
    OnBranchFacts(p.cfg.genesis, p.tree, p.chain, p.store.blocks);
    var target := ComputeTarget(tipHeader, p.store, p.ledger, p.chain);
    if target.None? {
      return None;
    }
    var chainWork := ChainWork(target.value, tipHeader.chainWork);
    if chainWork.None? {
      return None;
    }
    return Some((target.value, chainWork.value));
  }

  /** Reward and fees together are money. */
  predicate IsMoney(height: nat, payments: seq<Transaction>) {
    Fees(payments) >= 0 && BlockCreationReward(height) + Fees(payments) <= MAX_MONEY
  }

  /** The transactions of the next block: a coinbase that pays reward and fees, then the front of the queue. */
  method Gather(queue: TransactionQueueMemory, height: nat, claim: Claim) returns (txs: seq<Transaction>)
    ensures IsMoney(height, Front(queue.txQueue)) ==> txs == MinedTxs(height, Front(queue.txQueue), claim)
  {
    var payments := queue.Get(MAX_TRANSACTIONS_TO_INCLUDE_PER_BLOCK - 1);
    var fees := AddFees(payments);
    if IsMoney(height, payments) {
      ExactIn64(BlockCreationReward(height), Fees(payments));
    }
    txs := [NewCoinbase(claim, Wrap64(BlockCreationReward(height) + fees), height)] + payments;
  }

  /** On a node that is in order nothing is lost in 64 bits. */
  method NextTransactions(p: Processor, height: nat, claim: Claim) returns (txs: seq<Transaction>)
    requires p.Running() && height == |p.chain|
    ensures txs == NextTxs(p, claim)
  {
    FrontIs(p.queue.txQueue);
    AmountIsMoney(p, |Front(p.queue.txQueue)|);
    txs := Gather(p.queue, height, claim);
  }

  /** Number, nonce, count and root are as they were given, or those of the transactions. */
  ghost predicate Assembled(p: Processor, block: Block, stamp: Stamp)
    reads p
  {
    && block.header.id == stamp.id && block.header.nonce == stamp.nonce
    && block.header.transactionCount == |block.txs| && block.header.hashListRoot == p.cfg.hashListRoot(block.txs)
  }

  lemma FrontIs(q: seq<Transaction>)
    ensures var n := |Front(q)|; n <= |q| && n < MAX_TRANSACTIONS_TO_INCLUDE_PER_BLOCK && Front(q) == q[..n]
  {
  }

  lemma FrontIsAll(q: seq<Transaction>)
    requires |q| < MAX_TRANSACTIONS_TO_INCLUDE_PER_BLOCK
    ensures Front(q) == q
  {
    assert q[..|q|] == q;
  }

  /** The front of the queue behind the coinbase that is claimed. */
  ghost function NextTxs(p: Processor, claim: Claim): seq<Transaction>
    reads p, p.queue
  {
    MinedTxs(|p.chain|, Front(p.queue.txQueue), claim)
  }

  /** The header of a block on the tip with these transactions. */
  method NextHeader(p: Processor, txs: seq<Transaction>, stamp: Stamp) returns (r: Option<BlockHeader>)
    requires p.Running()
    ensures r.None? <==> NothingFollows(p)
    ensures r.Some? ==> HeaderFollows(p, r.value) && r.value.time == stamp.time
    ensures r.Some? ==> Assembled(p, Block(r.value, txs), stamp)
  {
    TipHeader(p);
    var tip := p.ledger.tip.value.id;
    var tipHeader := p.store.blocks[tip].block.header;
    var next := NextTarget(p, tipHeader);
    if next.None? {
      return None;
    }
    return Some(BlockHeader(stamp.id, tip, p.cfg.hashListRoot(txs), stamp.time, next.value.0, next.value.1,
                            stamp.nonce, tipHeader.height + 1, |txs|));
  }

  /** Create a block on the tip. */
  method CreateNextBlock(p: Processor, claim: Claim, stamp: Stamp) returns (r: Option<Block>)
    requires p.Running()
    ensures r.None? <==> NothingFollows(p)
    ensures r.Some? ==> r.value.txs == NextTxs(p, claim) && HeaderFollows(p, r.value.header)
    ensures r.Some? ==> r.value.header.time == stamp.time && Assembled(p, r.value, stamp)
    ensures r.Some? ==>
              var coinbase, payments := r.value.txs[0].body, r.value.txs[1..];
              && coinbase.from == None && coinbase.to == claim.key && coinbase.memo == claim.memo
              && coinbase.amount == BlockCreationReward(|p.chain|) + Fees(payments)
              && payments <= p.queue.txQueue && (|payments| < 9999 ==> payments == p.queue.txQueue)
  {
    TipHeader(p);
    var txs := NextTransactions(p, p.store.blocks[p.ledger.tip.value.id].block.header.height + 1, claim);
    var header := NextHeader(p, txs, stamp);
    if header.None? {
      return None;
    }
    return Some(Block(header.value, txs));
  }

  /** It passes the checks on its transactions, exactly if it is minable; and then it connects. */
  lemma CreatedPasses(p: Processor, claim: Claim, block: Block)
    requires p.Running() && block.txs == NextTxs(p, claim) && HeaderFollows(p, block.header)
    ensures PaymentsPass(p, block.txs) && Connects(p, block)
    ensures BlockOK(p.cfg, block) <==> Minable(|p.chain|, Front(p.queue.txQueue), claim)
  {
    FrontIs(p.queue.txQueue);
    MinedPass(p, |Front(p.queue.txQueue)|, claim);
    StillConnects(p, block);
  }

  lemma TipHeader(p: Processor)
    requires p.Running()
    ensures p.ledger.tip.Some? && p.ledger.tip.value.id == p.TipID() && p.ledger.tip.value.id in p.store.blocks
    ensures p.store.blocks[p.ledger.tip.value.id].block.header == p.chain[|p.chain| - 1].header
    ensures p.chain[|p.chain| - 1].header.height + 1 == |p.chain|
  {
    TipOf(p.cfg.prune, p.ledger.View(), p.chain, p.tree.Keys);
    OnBranchFacts(p.cfg.genesis, p.tree, p.chain, p.store.blocks);
  }

  // ----- mining it

  method MedianAtTip(p: Processor) returns (median: int)
    requires p.Running()
    ensures median == MedianOf(p.chain)
  {
    TipHeader(p);
    OnBranchFacts(p.cfg.genesis, p.tree, p.chain, p.store.blocks);
    median := ComputeMedianTimestamp(p.store.blocks[p.ledger.tip.value.id].block.header, p.store, p.chain);
  }

  /** The clock, but at least one second after the median time. */
  function TimeAfter(time: int, median: int): int {
    if time <= median then median + 1 else time
  }

  /**
  Start on a new block, at least one second after the median time: the processor accepts it exactly
  if it is minable.
  */
  method StartBlock(p: Processor, claim: Claim, stamp: Stamp) returns (r: Option<Block>)
    requires p.Running()
    ensures r.None? <==> NothingFollows(p)
    ensures r.Some? ==> r.value.txs == NextTxs(p, claim) && HeaderFollows(p, r.value.header)
    ensures r.Some? ==> Assembled(p, r.value, stamp)
    ensures r.Some? ==> r.value.header.time == TimeAfter(stamp.time, MedianOf(p.chain))
    ensures r.Some? ==>
              (p.Acceptable(r.value, p.chain) <==> Minable(|p.chain|, Front(p.queue.txQueue), claim))
  {
    r := CreateNextBlock(p, claim, stamp);
    if r.None? {
      return;
    }
    var medianTimestamp := MedianAtTip(p);
    var header := r.value.header;
    var block := r.value.(header := header.(time := TimeAfter(header.time, medianTimestamp)));
    CreatedPasses(p, claim, block);
    return Some(block);
  }

  /** Such transactions connect on the tip, whatever else the header says. */
  lemma StillConnects(p: Processor, block: Block)
    requires p.Running() && HeaderFollows(p, block.header) && PaymentsPass(p, block.txs)
    ensures Connects(p, block)
  {
    BehindCoinbase(block.txs, p.queue.txQueue);
    GatheredConnect(p, block, |block.txs| - 1);
  }

  lemma BehindCoinbase(txs: seq<Transaction>, q: seq<Transaction>)
    requires txs != [] && txs[1..] <= q
    ensures var n := |txs| - 1; n <= |q| && txs == [txs[0]] + q[..n]
  {
    assert txs[1..] == q[..|txs| - 1];
  }

  /** On a chain without deep forks a block on the tip beats it. */
  lemma NextIsBetter(p: Processor, block: Block, now: int)
    requires p.Running() && HeaderFollows(p, block.header) && NoDeep(p)
    ensures Overtakes(block, now, p.tree[p.TipID()])
  {
    OnBranchFacts(p.cfg.genesis, p.tree, p.chain, p.tree);
    NextTargetExistsOn(p, p.chain);
    BlockWorkOfInitial(block.header.target);
  }

  ghost predicate NoDeep(p: Processor)
    reads p
  {
    forall k :: 0 <= k < |p.chain| ==> p.chain[k].header.id !in p.deep
  }

  /** What mining, the clock and the checkpoints have to add to a block that was started. */
  predicate Solved(cfg: Config, header: BlockHeader, now: int) {
    && header.id <= header.target && 0 <= header.nonce <= MAX_NUMBER && 0 <= header.time <= MAX_NUMBER
    && header.time <= now + MAX_FUTURE_SECONDS && header.height <= MAX_NUMBER
    && (header.height in cfg.checkpoints ==> cfg.checkpoints[header.height] == header.id)
  }

  /** It is all that is still missing: the count, the root and the limit are right as created. */
  lemma SolvedPasses(p: Processor, claim: Claim, block: Block, stamp: Stamp, now: int)
    requires p.Running() && block.txs == NextTxs(p, claim) && HeaderFollows(p, block.header)
    requires Assembled(p, block, stamp) && Minable(|p.chain|, Front(p.queue.txQueue), claim)
    ensures CheckBlock(p.cfg, block, now) <==> Solved(p.cfg, block.header, now)
  {
    CreatedPasses(p, claim, block);
    FrontIs(p.queue.txQueue);
    LimitNeverFalls(0, |p.chain|);
  }

  /**
  A minable block that was started on the tip and solved, with a fresh coinbase, is accepted, and
  is the tip if it beats it.
  */
  method Submit(p: Processor, block: Block, now: int, ghost claim: Claim, ghost stamp: Stamp) returns (r: Answer)
    requires p.Running() && block.txs == NextTxs(p, claim) && HeaderFollows(p, block.header)
    requires Assembled(p, block, stamp) && block.header.time > MedianOf(p.chain)
    requires Minable(|p.chain|, Front(p.queue.txQueue), claim) && Solved(p.cfg, block.header, now)
    requires p.Sound(block) && block.header.id !in p.tree && ID(block.txs[0]) !in p.ledger.txIndex
    modifies p, p.store, p.ledger, p.queue, p.queue.balanceCache
    ensures p.Running() && r.Ok? && block.header.id in p.tree
    ensures p.chain == if old(Overtakes(block, now, p.tree[p.TipID()]))
               then old(p.chain) + [block] else old(p.chain)
    ensures old(NoDeep(p)) ==> p.chain == old(p.chain) + [block]
  {
    CreatedPasses(p, claim, block);
    SolvedPasses(p, claim, block, stamp, now);
    r := Process(p, block, now);
  }

  method Process(p: Processor, block: Block, now: int) returns (r: Answer)
    requires p.Running() && HeaderFollows(p, block.header) && PaymentsPass(p, block.txs) && Connects(p, block)
    requires p.Acceptable(block, p.chain) && p.Sound(block) && block.header.id !in p.tree
    requires CheckBlock(p.cfg, block, now) && ID(block.txs[0]) !in p.ledger.txIndex
    modifies p, p.store, p.ledger, p.queue, p.queue.balanceCache
    ensures p.Running() && r.Ok? && block.header.id in p.tree
    ensures p.chain == if old(Overtakes(block, now, p.tree[p.TipID()]))
               then old(p.chain) + [block] else old(p.chain)
    ensures old(NoDeep(p)) ==> p.chain == old(p.chain) + [block]
  {
    ghost var side := p.chain;
    OnBranchFacts(p.cfg.genesis, p.tree, p.chain, p.tree);
    if NoDeep(p) {
      NextIsBetter(p, block, now);
    }
    r := p.ProcessBlock(block, now, side);
  }

  // ----- adding to a block while it is mined

  /** The coinbase's ID hashed with the hash of all the other IDs. */
  function HashListRoot(txs: seq<Transaction>, list: seq<TransactionID> -> nat, pair: (TransactionID, nat) -> nat): nat
    requires txs != []
  {
    pair(ID(txs[0]), list(IDsOf(txs)[1..]))
  }

  /** Without collisions of the two hashes the root tells the IDs of all transactions, in order. */
  lemma RootTells(txs: seq<Transaction>, others: seq<Transaction>, list: seq<TransactionID> -> nat,
                  pair: (TransactionID, nat) -> nat)
    requires txs != [] && others != [] && HashListRoot(txs, list, pair) == HashListRoot(others, list, pair)
    requires forall a, b :: list(a) == list(b) ==> a == b
    requires forall a, b, m, n :: pair(a, m) == pair(b, n) ==> a == b && m == n
    ensures IDsOf(txs) == IDsOf(others)
  {
    var a, b := IDsOf(txs), IDsOf(others);
    assert list(a[1..]) == list(b[1..]);
    assert a == [a[0]] + a[1..] && b == [b[0]] + b[1..];
  }

  /** The block after one more transaction, whose fee goes to the coinbase. */
  function WithTransaction(txs: seq<Transaction>, tx: Transaction): seq<Transaction>
    requires txs != []
  {
    var coinbase := txs[0].(body := txs[0].body.(amount := Wrap64(txs[0].body.amount + tx.body.fee)));
    [coinbase] + txs[1..] + [tx]
  }

  class MinedBlock {
    const list: seq<TransactionID> -> nat
    const pair: (TransactionID, nat) -> nat
    var txs: seq<Transaction>
    var hashListRoot: nat
    var transactionCount: int
    var hashed: seq<TransactionID>  // what the running hasher has been given

    constructor (list: seq<TransactionID> -> nat, pair: (TransactionID, nat) -> nat, txs: seq<Transaction>)
      requires txs != []
      ensures Valid() && this.txs == txs && this.list == list && this.pair == pair
    {
      this.list, this.pair, this.txs, transactionCount := list, pair, txs, |txs|;
      hashed := IDsOf(txs)[1..];
      hashListRoot := pair(ID(txs[0]), list(IDsOf(txs)[1..]));
    }

    /** The incremental root is the root of the whole list. */
    ghost predicate Valid()
      reads this
    {
      && txs != [] && transactionCount == |txs|
      && hashed == IDsOf(txs)[1..] && hashListRoot == HashListRoot(txs, list, pair)
    }

    method AddTransaction(tx: Transaction)
      requires Valid()
      modifies this
      ensures Valid() && txs == WithTransaction(old(txs), tx)
    {
      IDsWith(txs, tx);
      hashed := hashed + [ID(tx)];
      var coinbase := txs[0].(body := txs[0].body.(amount := Wrap64(txs[0].body.amount + tx.body.fee)));
      hashListRoot := pair(ID(coinbase), list(hashed));
      txs := [coinbase] + txs[1..] + [tx];
      transactionCount := transactionCount + 1;
    }
  }

  /**
  A block that holds the whole queue, with a transaction added that has just been queued, is the
  block that would be created now; so it passes, and connects.
  */
  lemma AddedIsCreated(p: Processor, claim: Claim, payments: seq<Transaction>, tx: Transaction, block: Block)
    requires p.Running() && p.queue.txQueue == payments + [tx]
    requires |payments| + 1 < MAX_TRANSACTIONS_TO_INCLUDE_PER_BLOCK && HeaderFollows(p, block.header)
    requires block.txs == WithTransaction(MinedTxs(|p.chain|, payments, claim), tx)
    ensures block.txs == NextTxs(p, claim) && PaymentsPass(p, block.txs) && Connects(p, block)
  {
    FrontIsAll(p.queue.txQueue);
    WholeQueueIsMoney(p);
    AmountWith(|p.chain|, payments, tx, claim);
    CreatedPasses(p, claim, block);
  }

  lemma WholeQueueIsMoney(p: Processor)
    requires p.Running()
    ensures IsMoney(|p.chain|, p.queue.txQueue)
  {
    var q := p.queue.txQueue;
    assert q[..|q|] == q;
    AmountIsMoney(p, |q|);
  }

  lemma AmountWith(height: nat, payments: seq<Transaction>, tx: Transaction, claim: Claim)
    requires IsMoney(height, payments + [tx])
    ensures WithTransaction(MinedTxs(height, payments, claim), tx) == MinedTxs(height, payments + [tx], claim)
  {
    assert (payments + [tx])[..|payments|] == payments;
    assert MinedTxs(height, payments, claim)[1..] == payments;
    SmallIn64(BlockCreationReward(height) + Fees(payments + [tx]));
  }

  lemma IDsWith(txs: seq<Transaction>, tx: Transaction)
    requires txs != []
    ensures IDsOf(WithTransaction(txs, tx))[1..] == IDsOf(txs)[1..] + [ID(tx)]
  {
  }

  /** The coinbase still pays the reward and all fees. */
  lemma RewardStillPaid(txs: seq<Transaction>, tx: Transaction, height: nat)
    requires PaysReward(txs, height)
    ensures PaysReward(WithTransaction(txs, tx), height)
  {
    var more := WithTransaction(txs, tx);
    assert txs == [txs[0]] + txs[1..];
    assert more == [more[0]] + (txs[1..] + [tx]);
    FeesWithHead(txs[0], more[0], txs[1..]);
    assert more[..|more| - 1] == [more[0]] + txs[1..];
    WrapAdd(Fees(txs), tx.body.fee);
    WrapAdd(BlockCreationReward(height) + Wrap64(Fees(txs)), tx.body.fee);
    WrapAdd(Fees(txs), BlockCreationReward(height) + tx.body.fee);
    WrapAdd(Fees(txs) + tx.body.fee, BlockCreationReward(height));
  }

  lemma {:induction false} FeesWithHead(a: Transaction, b: Transaction, rest: seq<Transaction>)
    requires a.body.fee == b.body.fee
    ensures Fees([a] + rest) == Fees([b] + rest)
  {
    if rest == [] {
      assert ([a] + rest)[..0] == [] && ([b] + rest)[..0] == [];
    } else {
      var n := |rest| - 1;
      FeesWithHead(a, b, rest[..n]);
      assert ([a] + rest)[..|rest|] == [a] + rest[..n] && ([b] + rest)[..|rest|] == [b] + rest[..n];
    }
  }
}
