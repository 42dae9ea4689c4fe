/**
The checks that need no chain state: the money schedule, a transaction on its own, a
transaction at a height, and a block on its own.
*/
module Rules {
  import opened Types

  /** What a node is configured with, and the cryptographic questions it asks. */
  datatype Config = Config(
    genesis: Block,
    prune: bool,
    checkpoints: map<int, BlockID>,
    verify: Transaction -> bool,
    hashListRoot: seq<Transaction> -> nat)

  function Pow2(n: nat): (p: nat)
    ensures p >= 1
  {
    if n == 0 then 1 else 2 * Pow2(n - 1)
  }

  /** x >> n */
  function ShiftRight(x: nat, n: nat): (r: nat)
    ensures r <= x
  {
    if n == 0 then x else ShiftRight(x, n - 1) / 2
  }

  function BlockCreationReward(height: nat): (r: nat)
    ensures r <= INITIAL_COINBASE_REWARD
  {
    var halvings := height / BLOCKS_UNTIL_REWARD_HALVING;
    if halvings >= 64 then 0 else ShiftRight(INITIAL_COINBASE_REWARD, halvings)
  }

  function ComputeMaxTransactionsPerBlock(height: nat): int {
    if height >= MAX_TRANSACTIONS_PER_BLOCK_EXCEEDED_AT_HEIGHT then
      MAX_TRANSACTIONS_PER_BLOCK
    else
      var doublings := height / BLOCKS_UNTIL_TRANSACTIONS_PER_BLOCK_DOUBLING;
      var remainder := height % BLOCKS_UNTIL_TRANSACTIONS_PER_BLOCK_DOUBLING;
      var factor := Pow2(doublings);
      var interpolate := (INITIAL_MAX_TRANSACTIONS_PER_BLOCK * factor * remainder) /
                         BLOCKS_UNTIL_TRANSACTIONS_PER_BLOCK_DOUBLING;
      INITIAL_MAX_TRANSACTIONS_PER_BLOCK * factor + interpolate
  }

  predicate CheckTransaction(tx: Transaction) {
    && 0 <= tx.body.time <= MAX_NUMBER
    && 0 <= tx.body.nonce
    && (IsCoinbase(tx) ==> tx.body.fee <= 0 && tx.body.matures <= 0 && tx.body.expires <= 0 && tx.signature == "")
    && tx.body.from != Some(tx.body.to)
    && 0 < tx.body.amount <= MAX_MONEY
    && 0 <= tx.body.fee <= MAX_MONEY
    && |tx.body.memo| <= MAX_MEMO_LENGTH
    && 0 <= tx.body.matures <= MAX_NUMBER
    && 0 <= tx.body.expires <= MAX_NUMBER
    && 0 < tx.body.series <= MAX_NUMBER
  }

  /** The series is the current one or, for a payment, the one before. */
  predicate CheckTransactionSeries(tx: Transaction, height: nat) {
    var high := height / BLOCKS_UNTIL_NEW_SERIES + 1;
    if IsCoinbase(tx) then
      tx.body.series == high
    else
      var low := if high - 1 == 0 then 1 else high - 1;
      low <= tx.body.series <= high
  }

  predicate IsMature(tx: Transaction, height: int) {
    tx.body.matures == 0 || tx.body.matures >= height
  }

  predicate IsExpired(tx: Transaction, height: int) {
    tx.body.expires != 0 && tx.body.expires < height
  }

  /** Series, maturity and expiration, for inclusion in a block at this height. */
  predicate TimelyAt(tx: Transaction, height: nat) {
    && CheckTransactionSeries(tx, height)
    && (!IsCoinbase(tx) ==> IsMature(tx, height) && !IsExpired(tx, height))
  }

  /** The transactions of a block: one coinbase, in front, and no transaction twice. */
  predicate CheckTransactions(txs: seq<Transaction>) {
    && txs != []
    && IsCoinbase(txs[0])
    && (forall i :: 1 <= i < |txs| ==> !IsCoinbase(txs[i]))
    && (forall i :: 0 <= i < |txs| ==> CheckTransaction(txs[i]))
    && (forall i, j :: 0 <= i < j < |txs| ==> ID(txs[i]) != ID(txs[j]))
  }

  /** What is required of a block whatever chain it is on. */
  predicate CheckBlock(cfg: Config, block: Block, now: int) {
    var header := block.header;
    && 0 <= header.time <= MAX_NUMBER
    && header.time <= now + MAX_FUTURE_SECONDS
    && header.id <= header.target
    && 0 <= header.nonce <= MAX_NUMBER
    && 0 <= header.height <= MAX_NUMBER
    && (header.height in cfg.checkpoints ==> cfg.checkpoints[header.height] == header.id)
    && 0 <= header.transactionCount == |block.txs|
    && CheckTransactions(block.txs)
    && |block.txs| <= ComputeMaxTransactionsPerBlock(header.height)
    && cfg.hashListRoot(block.txs) == header.hashListRoot
  }

  function Fees(txs: seq<Transaction>): int {
    if txs == [] then 0 else Fees(txs[..|txs| - 1]) + txs[|txs| - 1].body.fee
  }

  /** The coinbase pays the reward of its height plus all fees, added up in 64 bits. */
  predicate PaysReward(txs: seq<Transaction>, height: nat) {
    txs != [] && txs[0].body.amount == Wrap64(BlockCreationReward(height) + Wrap64(Fees(txs)))
  }
}

/** The money supply: all block rewards together never exceed MAX_MONEY. */
module Supply {
  import opened Types
  import opened Rules

  /** The rewards of heights 0 to n - 1. */
  function RewardSum(n: nat): (s: nat) {
    if n == 0 then 0 else RewardSum(n - 1) + BlockCreationReward(n - 1)
  }

  /** The reward paid during halving period k, also past the last halving. */
  function PeriodReward(k: nat): (r: nat) {
    if k >= 64 then 0 else ShiftRight(INITIAL_COINBASE_REWARD, k)
  }

  lemma RewardOfPeriod(k: nat, r: nat)
    requires r < BLOCKS_UNTIL_REWARD_HALVING
    ensures BlockCreationReward(BLOCKS_UNTIL_REWARD_HALVING * k + r) == PeriodReward(k)
  {
    var h := BLOCKS_UNTIL_REWARD_HALVING * k + r;
    assert h / BLOCKS_UNTIL_REWARD_HALVING == k;
  }

  /** After k whole periods and r more blocks. */
  lemma {:induction false} RewardSumBound(k: nat, r: nat)
    requires r <= BLOCKS_UNTIL_REWARD_HALVING
    ensures
      RewardSum(BLOCKS_UNTIL_REWARD_HALVING * k + r)
      <= BLOCKS_UNTIL_REWARD_HALVING * (2 * INITIAL_COINBASE_REWARD - 2 * PeriodReward(k)) + r * PeriodReward(k)
    decreases k, r
  {
    if r > 0 {
      RewardSumBound(k, r - 1);
      RewardOfPeriod(k, r - 1);
      MulStep(r - 1, PeriodReward(k));
    } else if k > 0 {
      RewardSumBound(k - 1, BLOCKS_UNTIL_REWARD_HALVING);
    }
  }

  /** The supply cap. */
  lemma RewardsStayBelowMaxMoney(n: nat)
    ensures RewardSum(n) <= MAX_MONEY
  {
    var k, r := n / BLOCKS_UNTIL_REWARD_HALVING, n % BLOCKS_UNTIL_REWARD_HALVING;
    RewardSumBound(k, r);
    MulMono(r, BLOCKS_UNTIL_REWARD_HALVING, PeriodReward(k));
  }

  lemma MulStep(a: nat, x: nat)
    ensures (a + 1) * x == a * x + x
  {
  }

  lemma MulMono(a: nat, b: nat, x: nat)
    requires a <= b
    ensures a * x <= b * x
  {
  }
}
