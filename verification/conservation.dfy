/**
Conservation of money: at every main chain the balances add up to the rewards that have
matured less the fees that are still immature, so no balance leaves [0, MAX_MONEY] and the
64-bit fee total of every block is exact.
*/
module Conservation {
  import opened Types
  import opened Rules
  import opened Supply
  import opened Balances
  import opened LedgerModel

  /** Every coinbase pays its reward and fees as the 64-bit check sees them. */
  ghost predicate Rewarded(chain: seq<Block>) {
    forall i :: 0 <= i < |chain| ==> PaysReward(chain[i].txs, i)
  }

  /** The fees of blocks 0 to n - 1. */
  function FeeSum(chain: seq<Block>, n: nat): int
    requires n <= |chain|
  {
    if n == 0 then 0 else FeeSum(chain, n - 1) + Fees(chain[n - 1].txs)
  }

  /** How many coinbases have matured. */
  function MatureCount(length: nat): nat {
    if length >= COINBASE_MATURITY then length - COINBASE_MATURITY else 0
  }

  /** Matured rewards, less the fees in the blocks whose coinbases are still immature. */
  function ExpectedTotal(chain: seq<Block>): int {
    var m := MatureCount(|chain|);
    RewardSum(m) - (FeeSum(chain, |chain|) - FeeSum(chain, m))
  }

  /** The 64-bit fee total loses nothing: the coinbase pays exactly reward plus fees. */
  ghost predicate ExactReward(txs: seq<Transaction>, height: nat) {
    txs != [] && txs[0].body.amount == BlockCreationReward(height) + Fees(txs)
  }

  ghost predicate ExactRewards(chain: seq<Block>) {
    forall i :: 0 <= i < |chain| ==> ExactReward(chain[i].txs, i)
  }

  // ----- one block

  function MatureAmount(mature: Option<Transaction>): int {
    if mature.Some? then mature.value.body.amount else 0
  }

  function MatureList(mature: Option<Transaction>): seq<Transaction> {
    if mature.Some? then [mature.value] else []
  }

  lemma {:induction false} EffectsOfPayments(cb: Transaction, txs: seq<Transaction>, mature: Option<Transaction>)
    requires IsCoinbase(cb) && forall i :: 0 <= i < |txs| ==> !IsCoinbase(txs[i])
    ensures Effects([cb] + txs, mature) == MatureList(mature) + txs
  {
    var all := [cb] + txs;
    var n := |all| - 1;
    if txs == [] {
      assert all[..n] == [];
    } else {
      var m := |txs| - 1;
      assert all[..n] == [cb] + txs[..m];
      EffectsOfPayments(cb, txs[..m], mature);
      assert txs == txs[..m] + [txs[m]];
    }
  }

  lemma {:induction false} FeesOfPayments(cb: Transaction, txs: seq<Transaction>)
    ensures Fees([cb] + txs) == cb.body.fee + Fees(txs)
  {
    var all := [cb] + txs;
    var n := |all| - 1;
    if txs == [] {
      assert all[..n] == [];
    } else {
      assert all[..n] == [cb] + txs[..|txs| - 1];
      FeesOfPayments(cb, txs[..|txs| - 1]);
    }
  }

  lemma {:induction false} FeesNotNegative(txs: seq<Transaction>)
    requires forall i :: 0 <= i < |txs| ==> txs[i].body.fee >= 0
    ensures Fees(txs) >= 0
  {
    if txs != [] {
      FeesNotNegative(txs[..|txs| - 1]);
    }
  }

  lemma {:induction false} TotalOfPayments(b: Table, txs: seq<Transaction>)
    requires forall i :: 0 <= i < |txs| ==> !IsCoinbase(txs[i])
    ensures Total(ApplyAll(b, txs)) == Total(b) - Fees(txs)
  {
    if txs != [] {
      var n := |txs| - 1;
      TotalOfPayments(b, txs[..n]);
      TotalApply(ApplyAll(b, txs[..n]), txs[n]);
    }
  }

  /** A block adds the coinbase it matures and destroys the fees it collects. */
  lemma BlockTotal(b: Table, txs: seq<Transaction>, mature: Option<Transaction>)
    requires CheckTransactions(txs)
    requires mature.Some? ==> IsCoinbase(mature.value)
    ensures Total(ApplyAll(b, Effects(txs, mature))) == Total(b) + MatureAmount(mature) - Fees(txs)
    ensures Fees(txs) >= 0
  {
    var cb, rest := txs[0], txs[1..];
    assert txs == [cb] + rest;
    EffectsOfPayments(cb, rest, mature);
    FeesOfPayments(cb, rest);
    FeesNotNegative(txs);
    var credited := ApplyAll(b, MatureList(mature));
    MatureTotal(b, mature);
    ApplyAllAppend(b, MatureList(mature), rest, 0);
    TotalOfPayments(credited, rest);
  }

  lemma MatureTotal(b: Table, mature: Option<Transaction>)
    requires mature.Some? ==> IsCoinbase(mature.value)
    ensures Total(ApplyAll(b, MatureList(mature))) == Total(b) + MatureAmount(mature)
  {
    if mature.Some? {
      TotalApply(b, mature.value);
      assert MatureList(mature)[..0] == [];
    }
  }

  // ----- every chain

  lemma {:induction false} FeeSumPrefix(before: seq<Block>, block: Block, n: nat)
    requires n <= |before|
    ensures FeeSum(before + [block], n) == FeeSum(before, n)
  {
    if n > 0 {
      FeeSumPrefix(before, block, n - 1);
    }
  }

  lemma {:induction false} FeeSumMonotone(chain: seq<Block>, m: nat, n: nat)
    requires Shaped(chain) && m <= n <= |chain|
    ensures FeeSum(chain, m) <= FeeSum(chain, n)
  {
    if m < n {
      FeeSumMonotone(chain, m, n - 1);
      assert SaneAt(chain, n - 1);
      FeesNotNegative(chain[n - 1].txs);
    }
  }

  /** Connecting one more block keeps the books balanced. */
  lemma ExpectedTotalStep(before: seq<Block>, block: Block)
    requires Shaped(before) && Shaped(before + [block]) && ExactRewards(before)
    ensures ExpectedTotal(before + [block])
            == ExpectedTotal(before) + MatureAmount(Matured(before)) - Fees(block.txs)
    ensures ExpectedTotal(before) + MatureAmount(Matured(before)) <= MAX_MONEY
  {
    var n, m := |before|, MatureCount(|before|);
    var chain := before + [block];
    FeeSumPrefix(before, block, n);
    assert chain[n] == block;
    FeeSumMonotone(before, m, n);
    RewardsStayBelowMaxMoney(m);
    FeeSumPrefix(before, block, m);
    if n >= COINBASE_MATURITY {
      assert ExactReward(before[m].txs, m);
      FeeSumPrefix(before, block, m + 1);
      FeeSumMonotone(before, m + 1, n);
      RewardsStayBelowMaxMoney(m + 1);
      assert MatureCount(|chain|) == m + 1;
    }
  }

  lemma RewardIsExact(txs: seq<Transaction>, height: nat)
    requires PaysReward(txs, height) && 0 <= Fees(txs) <= MAX_MONEY
    ensures ExactReward(txs, height)
  {
  }

  /** The inspector's law, at every main chain; the money supply; and exact fee totals. */
  lemma {:induction false} MoneyIsConserved(prune: bool, chain: seq<Block>)
    requires Shaped(chain) && Timely(chain) && Replayable(prune, chain) && Rewarded(chain)
    ensures Total(Replay(prune, chain).balances) == ExpectedTotal(chain)
    ensures ExactRewards(chain)
    decreases |chain|, 1
  {
    if chain != [] {
      var before, block := LastBlock(chain);
      MoneyIsConservedStep(prune, chain, before, block);
    }
  }

  lemma {:induction false} MoneyIsConservedStep(prune: bool, chain: seq<Block>, before: seq<Block>, block: Block)
    requires chain == before + [block]
    requires Shaped(chain) && Timely(chain) && Replayable(prune, chain) && Rewarded(chain)
    ensures Total(Replay(prune, chain).balances) == ExpectedTotal(chain)
    ensures ExactRewards(chain)
    decreases |chain|, 0
  {
    var n := |before|;
    ValidPrefix(chain, n);
    assert chain[..n] == before && chain[n] == block;
    ShapedAppend(before, block);
    ReplayAppend(prune, before, block);
    RewardedPrefix(chain, before, block);
    MoneyIsConserved(prune, before);
    ReplayDescribed(prune, before);
    ConnectConserves(before, block, Replay(prune, before), Pruned(prune, before));
    ExactRewardsAppend(before, block);
  }

  lemma RewardedPrefix(chain: seq<Block>, before: seq<Block>, block: Block)
    requires chain == before + [block] && Rewarded(chain)
    ensures Rewarded(before) && PaysReward(block.txs, |before|)
  {
    assert chain[|before|] == block;
    forall i | 0 <= i < |before| ensures PaysReward(before[i].txs, i) {
      assert chain[i] == before[i];
    }
  }

  lemma ExactRewardsAppend(before: seq<Block>, block: Block)
    requires ExactRewards(before) && ExactReward(block.txs, |before|)
    ensures ExactRewards(before + [block])
  {
  }

  lemma ConnectConserves(before: seq<Block>, block: Block, core: Core, pruned: Option<Block>)
    requires Shaped(before) && block.header.height == |before| && CheckTransactions(block.txs)
    requires Normal(core.balances) && CanConnect(core, block, Matured(before))
    requires Total(core.balances) == ExpectedTotal(before) && ExactRewards(before)
    requires PaysReward(block.txs, |before|)
    ensures Total(ConnectCore(core, block, Matured(before), pruned).balances) == ExpectedTotal(before + [block])
    ensures ExactReward(block.txs, |before|)
  {
    var mature := Matured(before);
    var effects := Effects(block.txs, mature);
    var after := ApplyAll(core.balances, effects);
    ShapedAppend(before, block);
    EffectsMovable(block.txs, mature);
    ApplyAllKeepsNormal(core.balances, effects, 0);
    BlockTotal(core.balances, block.txs, mature);
    ExpectedTotalStep(before, block);
    TotalNotNegative(after);
    RewardIsExact(block.txs, |before|);
  }

  lemma TotalNotNegative(b: Table)
    requires Normal(b)
    ensures Total(b) >= 0
  {
    TotalCoversEach(b, 0);
  }

  /** Hence every balance of every reachable ledger is money that exists. */
  lemma BalancesAreMoney(prune: bool, chain: seq<Block>, key: PublicKey)
    requires Shaped(chain) && Timely(chain) && Replayable(prune, chain) && Rewarded(chain)
    ensures 0 <= Bal(Replay(prune, chain).balances, key) <= MAX_MONEY
    ensures |chain| <= 100 ==> Bal(Replay(prune, chain).balances, key) == 0
  {
    MoneyIsConserved(prune, chain);
    ReplayDescribed(prune, chain);
    TotalCoversEach(Replay(prune, chain).balances, key);
    var m := MatureCount(|chain|);
    RewardsStayBelowMaxMoney(m);
    FeeSumMonotone(chain, m, |chain|);
  }
}
