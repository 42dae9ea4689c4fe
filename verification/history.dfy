/**
A public key's history: the transactions it took part in, in order, and the balance that
adding them up leads to.
*/
module History {
  import opened Types
  import opened Rules
  import opened Balances
  import opened LedgerModel
  import opened Conservation

  function Deltas(txs: seq<Transaction>, key: PublicKey): int {
    if txs == [] then 0 else Deltas(txs[..|txs| - 1], key) + Delta(txs[|txs| - 1], key)
  }

  lemma {:induction false} BalApplyAll(b: Table, txs: seq<Transaction>, key: PublicKey)
    requires AllMovable(txs)
    ensures Bal(ApplyAll(b, txs), key) == Bal(b, key) + Deltas(txs, key)
  {
    if txs != [] {
      var n := |txs| - 1;
      BalApplyAll(b, txs[..n], key);
      BalApply(ApplyAll(b, txs[..n]), txs[n], key);
    }
  }

  // ----- adding up, transaction by transaction

  /** What the transaction at a place adds, when coinbases up to a height are mature. */
  function Credit(tx: Transaction, height: int, index: int, mature: int, key: PublicKey): int {
    if index == 0 && height > mature then 0 else Delta(tx, key)
  }

  /** The first i transactions of a block. */
  function BlockSum(txs: seq<Transaction>, i: nat, height: int, mature: int, key: PublicKey): int
    requires i <= |txs|
  {
    if i == 0 then 0 else BlockSum(txs, i - 1, height, mature, key) + Credit(txs[i - 1], height, i - 1, mature, key)
  }

  /** The first n blocks. */
  function ChainSum(chain: seq<Block>, n: nat, mature: int, key: PublicKey): int
    requires n <= |chain|
  {
    if n == 0 then 0
    else ChainSum(chain, n - 1, mature, key) + BlockSum(chain[n - 1].txs, |chain[n - 1].txs|, n - 1, mature, key)
  }

  /** A block's coinbase, as far as it goes to the key. */
  function Coinbase(chain: seq<Block>, h: nat, key: PublicKey): int
    requires h < |chain|
  {
    if chain[h].txs == [] then 0 else Delta(chain[h].txs[0], key)
  }

  /** Coinbases of heights lo to n - 1, up to the mature height: counted in the history, not in the balances. */
  function Pending(chain: seq<Block>, lo: nat, n: nat, mature: int, key: PublicKey): int
    requires lo <= n <= |chain|
    decreases n
  {
    if lo == n then 0
    else Pending(chain, lo, n - 1, mature, key) + (if n - 1 <= mature then Coinbase(chain, n - 1, key) else 0)
  }

  lemma CoinbaseNotNegative(chain: seq<Block>, h: nat, key: PublicKey)
    requires Shaped(chain) && h < |chain|
    ensures Coinbase(chain, h, key) >= 0
  {
    assert SaneAt(chain, h);
  }

  lemma {:induction false} PendingNotNegative(chain: seq<Block>, lo: nat, n: nat, mature: int, key: PublicKey)
    requires Shaped(chain) && lo <= n <= |chain|
    ensures Pending(chain, lo, n, mature, key) >= 0
    decreases n
  {
    if lo < n {
      PendingNotNegative(chain, lo, n - 1, mature, key);
      CoinbaseNotNegative(chain, n - 1, key);
    }
  }

  /** The lowest pending coinbase taken out. */
  lemma {:induction false} PendingLowest(chain: seq<Block>, lo: nat, n: nat, mature: int, key: PublicKey)
    requires lo < n <= |chain| && lo <= mature
    ensures Pending(chain, lo, n, mature, key) == Coinbase(chain, lo, key) + Pending(chain, lo + 1, n, mature, key)
    decreases n
  {
    if lo + 1 < n {
      PendingLowest(chain, lo, n - 1, mature, key);
    }
  }

  lemma {:induction false} PendingSame(c: seq<Block>, d: seq<Block>, lo: nat, n: nat, mature: int, key: PublicKey)
    requires lo <= n <= |c| && n <= |d| && forall i :: 0 <= i < n ==> c[i] == d[i]
    ensures Pending(c, lo, n, mature, key) == Pending(d, lo, n, mature, key)
    decreases n
  {
    if lo < n {
      PendingSame(c, d, lo, n - 1, mature, key);
    }
  }

  lemma {:induction false} ChainSumSame(c: seq<Block>, d: seq<Block>, n: nat, mature: int, key: PublicKey)
    requires n <= |c| && n <= |d| && forall i :: 0 <= i < n ==> c[i] == d[i]
    ensures ChainSum(c, n, mature, key) == ChainSum(d, n, mature, key)
  {
    if n > 0 {
      ChainSumSame(c, d, n - 1, mature, key);
    }
  }

  // ----- within a block

  /** A block's transactions after the coinbase add up like the payments. */
  lemma {:induction false} BlockSumIsDeltas(txs: seq<Transaction>, i: nat, height: int, mature: int, key: PublicKey)
    requires 1 <= i <= |txs|
    ensures BlockSum(txs, i, height, mature, key) == Credit(txs[0], height, 0, mature, key) + Deltas(txs[1..i], key)
  {
    if i > 1 {
      BlockSumIsDeltas(txs, i - 1, height, mature, key);
      assert txs[1..i][..i - 2] == txs[1..i - 1];
    }
  }

  lemma {:induction false} DeltasAppend(xs: seq<Transaction>, ys: seq<Transaction>, key: PublicKey)
    ensures Deltas(xs + ys, key) == Deltas(xs, key) + Deltas(ys, key)
  {
    if ys == [] {
      assert xs + ys == xs;
    } else {
      var n := |ys| - 1;
      DeltasAppend(xs, ys[..n], key);
      assert (xs + ys)[..|xs + ys| - 1] == xs + ys[..n];
    }
  }

  /** What a newly matured coinbase brings the key. */
  lemma MaturedDelta(before: seq<Block>, key: PublicKey)
    requires Shaped(before)
    ensures Deltas(MatureList(Matured(before)), key)
            == if |before| >= COINBASE_MATURITY then Coinbase(before, |before| - COINBASE_MATURITY, key) else 0
  {
    var l := MatureList(Matured(before));
    if |before| >= COINBASE_MATURITY {
      assert SaneAt(before, |before| - COINBASE_MATURITY);
      assert l[..0] == [];
    }
  }

  /** The effects of a block on one key's balance: the matured coinbase, then the payments. */
  lemma BlockEffect(b: Table, before: seq<Block>, txs: seq<Transaction>, i: nat, key: PublicKey)
    requires Shaped(before) && CheckTransactions(txs) && 1 <= i <= |txs|
    ensures var mature := Matured(before);
            Bal(ApplyAll(b, MatureList(mature) + txs[1..i]), key)
            == Bal(b, key) + Deltas(MatureList(mature), key) + Deltas(txs[1..i], key)
  {
    var mature := Matured(before);
    if |before| >= COINBASE_MATURITY {
      assert SaneAt(before, |before| - COINBASE_MATURITY);
    }
    DeltasAppend(MatureList(mature), txs[1..i], key);
    BalApplyAll(b, MatureList(mature) + txs[1..i], key);
  }

  /** What is pending before and after a block is connected. */
  lemma PendingMoves(before: seq<Block>, block: Block, mature: int, key: PublicKey)
    requires Shaped(before) && mature >= |before| - COINBASE_MATURITY && block.txs != []
    ensures var n := |before|;
            Pending(before + [block], MatureCount(n + 1), n + 1, mature, key)
            == Pending(before, MatureCount(n), n, mature, key) - Deltas(MatureList(Matured(before)), key)
               + Credit(block.txs[0], n, 0, mature, key)
  {
    var n, chain := |before|, before + [block];
    MaturedDelta(before, key);
    PendingSame(before, chain, MatureCount(n + 1), n, mature, key);
    if n >= COINBASE_MATURITY {
      PendingLowest(before, n - COINBASE_MATURITY, n, mature, key);
    }
    assert Coinbase(chain, n, key) == Delta(block.txs[0], key);
  }

  /** The history of a chain adds up to the balance and what is pending. */
  lemma {:induction false} HistoryAgrees(prune: bool, chain: seq<Block>, mature: int, key: PublicKey)
    requires Shaped(chain) && Timely(chain) && Replayable(prune, chain) && mature >= |chain| - COINBASE_MATURITY - 1
    ensures ChainSum(chain, |chain|, mature, key)
            == Bal(Replay(prune, chain).balances, key) + Pending(chain, MatureCount(|chain|), |chain|, mature, key)
    decreases |chain|, 1
  {
    if chain != [] {
      var before, block := LastBlock(chain);
      HistoryStep(prune, chain, before, block, mature, key);
    }
  }

  lemma {:induction false} HistoryStep(prune: bool, chain: seq<Block>, before: seq<Block>, block: Block, mature: int,
          key: PublicKey)
    requires chain == before + [block]
    requires Shaped(chain) && Timely(chain) && Replayable(prune, chain) && mature >= |chain| - COINBASE_MATURITY - 1
    ensures ChainSum(chain, |chain|, mature, key)
            == Bal(Replay(prune, chain).balances, key) + Pending(chain, MatureCount(|chain|), |chain|, mature, key)
    decreases |chain|, 0
  {
    var n := |before|;
    ValidPrefix(chain, n);
    assert chain[..n] == before && chain[n] == block;
    ShapedAppend(before, block);
    ReplayAppend(prune, before, block);
    HistoryAgrees(prune, before, mature, key);
    ChainSumSame(before, chain, n, mature, key);
    PendingMoves(before, block, mature, key);
    BlockAdds(before, block.txs, Replay(prune, before).balances, n, mature, key);
  }

  /** A whole block, in the history and in the balances. */
  lemma BlockAdds(before: seq<Block>, txs: seq<Transaction>, b: Table, n: nat, mature: int, key: PublicKey)
    requires Shaped(before) && CheckTransactions(txs)
    ensures Bal(ApplyAll(b, Effects(txs, Matured(before))), key)
            == Bal(b, key) + Deltas(MatureList(Matured(before)), key)
               + BlockSum(txs, |txs|, n, mature, key) - Credit(txs[0], n, 0, mature, key)
  {
    assert txs == [txs[0]] + txs[1..] && txs[1..|txs|] == txs[1..];
    EffectsOfPayments(txs[0], txs[1..], Matured(before));
    BlockEffect(b, before, txs, |txs|, key);
    BlockSumIsDeltas(txs, |txs|, n, mature, key);
  }

  // ----- it never goes negative on the way

  lemma PendingCovers(before: seq<Block>, mature: int, key: PublicKey)
    requires Shaped(before) && mature >= |before| - COINBASE_MATURITY
    ensures Pending(before, MatureCount(|before|), |before|, mature, key) >= Deltas(MatureList(Matured(before)), key)
  {
    var n := |before|;
    MaturedDelta(before, key);
    if n >= COINBASE_MATURITY {
      PendingLowest(before, n - COINBASE_MATURITY, n, mature, key);
      PendingNotNegative(before, n - COINBASE_MATURITY + 1, n, mature, key);
    } else {
      PendingNotNegative(before, 0, n, mature, key);
    }
  }

  lemma HeadTail(txs: seq<Transaction>, i: nat)
    requires 1 <= i <= |txs|
    ensures txs == [txs[0]] + txs[1..] && txs[1..i] <= txs[1..]
  {
  }

  lemma PartApplies(b: Table, first: seq<Transaction>, pays: seq<Transaction>, part: seq<Transaction>)
    requires Normal(b) && CanApplyAll(b, first + pays, 0) && part <= pays && AllMovable(first + part)
    ensures Normal(ApplyAll(b, first + part))
  {
    var k := |first + part|;
    assert (first + pays)[..k] == first + part;
    CanApplyPrefix(b, first + pays, k, 0);
    ApplyAllKeepsNormal(b, first + part, 0);
  }

  /** In the middle of connecting a block, no balance is negative. */
  lemma BalanceInBlock(before: seq<Block>, txs: seq<Transaction>, b: Table, i: nat, key: PublicKey)
    requires Shaped(before) && CheckTransactions(txs) && 1 <= i <= |txs| && Normal(b)
    requires CanApplyAll(b, Effects(txs, Matured(before)), 0)
    ensures Bal(b, key) + Deltas(MatureList(Matured(before)), key) + Deltas(txs[1..i], key) >= 0
  {
    var mature := Matured(before);
    HeadTail(txs, i);
    EffectsOfPayments(txs[0], txs[1..], mature);
    PartMovable(before, txs, i);
    PartApplies(b, MatureList(mature), txs[1..], txs[1..i]);
    BlockEffect(b, before, txs, i, key);
  }

  lemma PartMovable(before: seq<Block>, txs: seq<Transaction>, i: nat)
    requires Shaped(before) && CheckTransactions(txs) && 1 <= i <= |txs|
    ensures AllMovable(MatureList(Matured(before)) + txs[1..i])
  {
    if |before| >= COINBASE_MATURITY {
      assert SaneAt(before, |before| - COINBASE_MATURITY);
    }
  }

  lemma BlockNeverNegative(prune: bool, before: seq<Block>, block: Block, mature: int, key: PublicKey, i: nat)
    requires Shaped(before + [block]) && Timely(before + [block]) && Replayable(prune, before + [block])
    requires mature >= |before| - COINBASE_MATURITY && 1 <= i <= |block.txs|
    ensures ChainSum(before, |before|, mature, key) + BlockSum(block.txs, i, |before|, mature, key) >= 0
  {
    BeforeBlock(prune, before, block);
    HistoryAgrees(prune, before, mature, key);
    PendingCovers(before, mature, key);
    BalanceInBlock(before, block.txs, Replay(prune, before).balances, i, key);
    BlockSumIsDeltas(block.txs, i, |before|, mature, key);
    CreditOfCoinbase(block.txs, |before|, mature, key);
  }

  lemma CreditOfCoinbase(txs: seq<Transaction>, height: int, mature: int, key: PublicKey)
    requires CheckTransactions(txs)
    ensures Credit(txs[0], height, 0, mature, key) >= 0
  {
  }

  /** The chain below a block, and that the block applies to its balances. */
  lemma BeforeBlock(prune: bool, before: seq<Block>, block: Block)
    requires Shaped(before + [block]) && Timely(before + [block]) && Replayable(prune, before + [block])
    ensures Shaped(before) && Timely(before) && Replayable(prune, before) && CheckTransactions(block.txs)
    ensures Normal(Replay(prune, before).balances)
    ensures CanApplyAll(Replay(prune, before).balances, Effects(block.txs, Matured(before)), 0)
  {
    var chain, n := before + [block], |before|;
    ValidPrefix(chain, n);
    assert chain[..n] == before && chain[n] == block;
    ShapedAppend(before, block);
    ReplayAppend(prune, before, block);
    ReplayDescribed(prune, before);
  }

  lemma PartReplayable(prune: bool, chain: seq<Block>, n: nat, before: seq<Block>, part: seq<Block>)
    requires Shaped(chain) && Timely(chain) && Replayable(prune, chain) && n < |chain|
    requires before == chain[..n] && part == before + [chain[n]]
    ensures Shaped(part) && Timely(part) && Replayable(prune, part)
  {
    TakeOneMore(chain, n);
    ValidPrefix(chain, n + 1);
    ReplayablePrefix(prune, chain, n + 1, part);
  }

  /** At no place of the chain is the history's balance negative. */
  lemma NeverNegative(prune: bool, chain: seq<Block>, mature: int, key: PublicKey, n: nat, i: nat)
    requires Shaped(chain) && Timely(chain) && Replayable(prune, chain) && mature >= |chain| - COINBASE_MATURITY - 1
    requires n < |chain| && 1 <= i <= |chain[n].txs|
    ensures ChainSum(chain, n, mature, key) + BlockSum(chain[n].txs, i, n, mature, key) >= 0
  {
    var before := chain[..n];
    PartReplayable(prune, chain, n, before, before + [chain[n]]);
    BlockNeverNegative(prune, before, chain[n], mature, key, i);
    ChainSumSame(before, chain, n, mature, key);
  }

  // ----- the entries of the index

  predicate Involves(tx: Transaction, key: PublicKey) {
    tx.body.to == key || tx.body.from == Some(key)
  }

  /** The key's entries among the first i transactions of a block. */
  function BlockEntries(txs: seq<Transaction>, i: nat, height: int, key: PublicKey): seq<KeyEntry>
    requires i <= |txs|
  {
    if i == 0 then []
    else BlockEntries(txs, i - 1, height, key)
         + (if Involves(txs[i - 1], key) then [KeyEntry(key, height, i - 1)] else [])
  }

  /** The key's entries in the first n blocks. */
  function Entries(chain: seq<Block>, n: nat, key: PublicKey): seq<KeyEntry>
    requires n <= |chain|
  {
    if n == 0 then [] else Entries(chain, n - 1, key) + BlockEntries(chain[n - 1].txs, |chain[n - 1].txs|, n - 1, key)
  }

  /** A place on the chain that an entry points to. */
  predicate OnChain(chain: seq<Block>, e: KeyEntry) {
    0 <= e.height < |chain| && 0 <= e.index < |chain[e.height].txs|
  }

  ghost predicate AllOnChain(chain: seq<Block>, entries: seq<KeyEntry>) {
    forall i :: 0 <= i < |entries| ==> OnChain(chain, entries[i])
  }

  /** What the entries add up to. */
  ghost function EntrySum(chain: seq<Block>, entries: seq<KeyEntry>, mature: int, key: PublicKey): int
    requires AllOnChain(chain, entries)
  {
    if entries == [] then 0
    else
      var m := |entries| - 1;
      var e := entries[m];
      EntrySum(chain, entries[..m], mature, key) + Credit(chain[e.height].txs[e.index], e.height, e.index, mature, key)
  }

  /** The key's entries up to transaction i of block n. */
  function Upto(chain: seq<Block>, n: nat, i: nat, key: PublicKey): seq<KeyEntry>
    requires n < |chain| && i <= |chain[n].txs|
  {
    Entries(chain, n, key) + BlockEntries(chain[n].txs, i, n, key)
  }

  lemma EntrySumPush(chain: seq<Block>, entries: seq<KeyEntry>, e: KeyEntry, mature: int, key: PublicKey)
    requires AllOnChain(chain, entries) && OnChain(chain, e)
    ensures AllOnChain(chain, entries + [e])
    ensures EntrySum(chain, entries + [e], mature, key)
            == EntrySum(chain, entries, mature, key)
               + Credit(chain[e.height].txs[e.index], e.height, e.index, mature, key)
  {
    assert (entries + [e])[..|entries|] == entries;
  }

  lemma UptoStep(chain: seq<Block>, n: nat, i: nat, key: PublicKey)
    requires n < |chain| && 0 < i <= |chain[n].txs|
    ensures Upto(chain, n, i, key)
            == if Involves(chain[n].txs[i - 1], key) then Upto(chain, n, i - 1, key) + [KeyEntry(key, n, i - 1)]
               else Upto(chain, n, i - 1, key)
  {
  }

  lemma UptoNext(chain: seq<Block>, n: nat, key: PublicKey)
    requires 0 < n < |chain|
    ensures Upto(chain, n, 0, key) == Upto(chain, n - 1, |chain[n - 1].txs|, key)
  {
  }

  lemma NotInvolved(tx: Transaction, height: int, index: int, mature: int, key: PublicKey)
    requires !Involves(tx, key)
    ensures Credit(tx, height, index, mature, key) == 0
  {
  }

  /** The entries up to a transaction add up to all transactions up to it. */
  ghost predicate AddsUp(chain: seq<Block>, n: nat, i: nat, mature: int, key: PublicKey, entries: seq<KeyEntry>)
    requires n < |chain| && i <= |chain[n].txs|
  {
    && AllOnChain(chain, entries)
    && EntrySum(chain, entries, mature, key)
       == ChainSum(chain, n, mature, key) + BlockSum(chain[n].txs, i, n, mature, key)
  }

  lemma AddsUpFirst(chain: seq<Block>, mature: int, key: PublicKey)
    requires chain != []
    ensures AddsUp(chain, 0, 0, mature, key, [])
  {
  }

  lemma AddsUpBlock(chain: seq<Block>, n: nat, mature: int, key: PublicKey, entries: seq<KeyEntry>)
    requires 0 < n < |chain| && AddsUp(chain, n - 1, |chain[n - 1].txs|, mature, key, entries)
    ensures AddsUp(chain, n, 0, mature, key, entries)
  {
  }

  lemma AddsUpMore(chain: seq<Block>, n: nat, i: nat, mature: int, key: PublicKey, xs: seq<KeyEntry>, ys: seq<KeyEntry>)
    requires n < |chain| && i < |chain[n].txs| && AddsUp(chain, n, i, mature, key, xs)
    requires ys == if Involves(chain[n].txs[i], key) then xs + [KeyEntry(key, n, i)] else xs
    ensures AddsUp(chain, n, i + 1, mature, key, ys)
  {
    SumStep(chain, n, i, mature, key, xs, ys);
  }

  /** Transactions that do not involve the key add nothing. */
  lemma {:induction false} SumOf(chain: seq<Block>, n: nat, i: nat, mature: int, key: PublicKey, entries: seq<KeyEntry>)
    requires n < |chain| && i <= |chain[n].txs| && entries == Upto(chain, n, i, key)
    ensures AddsUp(chain, n, i, mature, key, entries)
    decreases n, i
  {
    if i > 0 {
      var shorter := Upto(chain, n, i - 1, key);
      SumOf(chain, n, i - 1, mature, key, shorter);
      UptoStep(chain, n, i, key);
      AddsUpMore(chain, n, i - 1, mature, key, shorter, entries);
    } else if n > 0 {
      UptoNext(chain, n, key);
      SumOf(chain, n - 1, |chain[n - 1].txs|, mature, key, entries);
      AddsUpBlock(chain, n, mature, key, entries);
    } else {
      assert entries == [];
      AddsUpFirst(chain, mature, key);
    }
  }

  lemma SumUpto(chain: seq<Block>, n: nat, i: nat, mature: int, key: PublicKey)
    requires n < |chain| && i <= |chain[n].txs|
    ensures AddsUp(chain, n, i, mature, key, Upto(chain, n, i, key))
  {
    SumOf(chain, n, i, mature, key, Upto(chain, n, i, key));
  }

  /** One more transaction adds what it adds, whether it is listed or not. */
  lemma SumStep(chain: seq<Block>, n: nat, i: nat, mature: int, key: PublicKey, xs: seq<KeyEntry>, ys: seq<KeyEntry>)
    requires n < |chain| && i < |chain[n].txs| && AllOnChain(chain, xs)
    requires ys == if Involves(chain[n].txs[i], key) then xs + [KeyEntry(key, n, i)] else xs
    ensures AllOnChain(chain, ys)
    ensures EntrySum(chain, ys, mature, key)
            == EntrySum(chain, xs, mature, key) + Credit(chain[n].txs[i], n, i, mature, key)
  {
    if Involves(chain[n].txs[i], key) {
      EntrySumPush(chain, xs, KeyEntry(key, n, i), mature, key);
    } else {
      NotInvolved(chain[n].txs[i], n, i, mature, key);
    }
  }

  lemma {:induction false} BlockPlace(txs: seq<Transaction>, k: nat, height: int, key: PublicKey, t: nat)
      returns (i: nat)
    requires k <= |txs| && 0 < t <= |BlockEntries(txs, k, height, key)|
    ensures 1 <= i <= k && BlockEntries(txs, k, height, key)[..t] == BlockEntries(txs, i, height, key)
  {
    if t <= |BlockEntries(txs, k - 1, height, key)| {
      i := BlockPlace(txs, k - 1, height, key, t);
      assert BlockEntries(txs, k, height, key)[..t] == BlockEntries(txs, k - 1, height, key)[..t];
    } else {
      i := k;
      assert BlockEntries(txs, k, height, key)[..t] == BlockEntries(txs, k, height, key);
    }
  }

  /** Every part of the history ends at some transaction. */
  lemma {:induction false} EndsAt(chain: seq<Block>, m: nat, key: PublicKey, t: nat) returns (n: nat, i: nat)
    requires m <= |chain| && 0 < t <= |Entries(chain, m, key)|
    ensures n < m && 1 <= i <= |chain[n].txs| && Entries(chain, m, key)[..t] == Upto(chain, n, i, key)
  {
    var lower, txs := Entries(chain, m - 1, key), chain[m - 1].txs;
    if t <= |lower| {
      n, i := EndsAt(chain, m - 1, key, t);
      assert Entries(chain, m, key)[..t] == lower[..t];
    } else {
      n := m - 1;
      i := BlockPlace(txs, |txs|, n, key, t - |lower|);
      assert Entries(chain, m, key)[..t] == lower + BlockEntries(txs, |txs|, n, key)[..t - |lower|];
    }
  }

  lemma PartAgrees(prune: bool, chain: seq<Block>, n: nat, part: seq<Block>, mature: int, key: PublicKey)
    requires Shaped(chain) && Timely(chain) && Replayable(prune, chain) && n <= |chain| && part == chain[..n]
    requires mature == |chain| - 1 - COINBASE_MATURITY && Shaped(part)
    ensures ChainSum(chain, n, mature, key)
            == Bal(Replay(prune, part).balances, key) + Pending(chain, MatureCount(n), n, mature, key)
  {
    ValidPrefix(chain, n);
    ReplayablePrefix(prune, chain, n, part);
    HistoryAgrees(prune, part, mature, key);
    PendingSame(part, chain, MatureCount(n), n, mature, key);
    ChainSumSame(part, chain, n, mature, key);
  }

  lemma SumEntries(chain: seq<Block>, n: nat, mature: int, key: PublicKey)
    requires n <= |chain|
    ensures AllOnChain(chain, Entries(chain, n, key))
    ensures EntrySum(chain, Entries(chain, n, key), mature, key) == ChainSum(chain, n, mature, key)
  {
    if n > 0 {
      SumUpto(chain, n - 1, |chain[n - 1].txs|, mature, key);
      assert Upto(chain, n - 1, |chain[n - 1].txs|, key) == Entries(chain, n, key);
    }
  }

  /**
  The history of the first n blocks never goes below zero on the way, and adds up to the balance
  they leave plus the coinbases among them that have matured only since.
  */
  lemma HistoryIsBalance(prune: bool, chain: seq<Block>, n: nat, part: seq<Block>, key: PublicKey, t: nat)
    requires Shaped(chain) && Timely(chain) && Replayable(prune, chain) && n <= |chain| && part == chain[..n]
    requires Shaped(part) && t <= |Entries(chain, n, key)|
    ensures var all, mature := Entries(chain, n, key), |chain| - 1 - COINBASE_MATURITY;
            && AllOnChain(chain, all) && AllOnChain(chain, all[..t])
            && EntrySum(chain, all[..t], mature, key) >= 0
            && EntrySum(chain, all, mature, key)
               == Bal(Replay(prune, part).balances, key) + Pending(chain, MatureCount(n), n, mature, key)
  {
    var mature := |chain| - 1 - COINBASE_MATURITY;
    PartAgrees(prune, chain, n, part, mature, key);
    SumEntries(chain, n, mature, key);
    if t > 0 {
      var m, i := EndsAt(chain, n, key, t);
      SumUpto(chain, m, i, mature, key);
      NeverNegative(prune, chain, mature, key, m, i);
    }
  }

  /** A coinbase for the key, immature with n blocks and mature at the tip. */
  ghost predicate MaturedSince(chain: seq<Block>, n: nat, key: PublicKey, h: nat) {
    MatureCount(n) <= h < n <= |chain| && h <= |chain| - 1 - COINBASE_MATURITY
    && chain[h].txs != [] && chain[h].txs[0].body.to == key
  }

  lemma {:induction false} PendingIff(chain: seq<Block>, lo: nat, n: nat, mature: int, key: PublicKey)
    requires Shaped(chain) && lo <= n <= |chain|
    ensures Pending(chain, lo, n, mature, key) >= 0
    ensures Pending(chain, lo, n, mature, key) == 0 <==>
              forall h :: lo <= h < n && h <= mature ==> Coinbase(chain, h, key) == 0
    decreases n
  {
    if lo < n {
      PendingIff(chain, lo, n - 1, mature, key);
      CoinbaseNotNegative(chain, n - 1, key);
    }
  }

  lemma CoinbasePays(chain: seq<Block>, h: nat, key: PublicKey)
    requires Shaped(chain) && h < |chain|
    ensures Coinbase(chain, h, key) == 0 <==> chain[h].txs == [] || chain[h].txs[0].body.to != key
  {
    assert SaneAt(chain, h);
  }

  /** The history of n blocks is the balance they leave exactly when no coinbase of the key matured since. */
  lemma SinceIff(chain: seq<Block>, n: nat, key: PublicKey)
    requires Shaped(chain) && n <= |chain|
    ensures var since := Pending(chain, MatureCount(n), n, |chain| - 1 - COINBASE_MATURITY, key);
            since >= 0 && (since == 0 <==> forall h :: !MaturedSince(chain, n, key, h))
  {
    var lo, mature := MatureCount(n), |chain| - 1 - COINBASE_MATURITY;
    PendingIff(chain, lo, n, mature, key);
    forall h: nat | h < n
      ensures MaturedSince(chain, n, key, h) <==> lo <= h <= mature && Coinbase(chain, h, key) != 0
    {
      CoinbasePays(chain, h, key);
    }
  }

  // ----- which entries, and in which order

  /** The order of the database keys of one public key. */
  predicate Before(a: KeyEntry, b: KeyEntry) {
    a.height < b.height || (a.height == b.height && a.index < b.index)
  }

  ghost predicate InOrder(entries: seq<KeyEntry>) {
    forall i, j :: 0 <= i < j < |entries| ==> Before(entries[i], entries[j])
  }

  /** An iterator's output: one key's entries, all of them, in key order. */
  ghost predicate Lists(entries: seq<KeyEntry>, index: set<KeyEntry>, key: PublicKey) {
    InOrder(entries) && forall e :: e in entries <==> e in index && e.key == key
  }

  /** The entries up to a height; below -1 the limit of the range lies behind all heights. */
  ghost function Asked(index: set<KeyEntry>, height: int): set<KeyEntry> {
    set e | e in index && (height < -1 || e.height <= height)
  }

  /** How many blocks those are. */
  function AskedBlocks(height: int, length: nat): nat {
    if height < -1 || height >= length then length else height + 1
  }

  lemma PushInOrder(entries: seq<KeyEntry>, e: KeyEntry)
    requires InOrder(entries) && forall i :: 0 <= i < |entries| ==> Before(entries[i], e)
    ensures InOrder(entries + [e])
  {
  }

  lemma {:induction false} BlockEntriesInOrder(txs: seq<Transaction>, i: nat, height: int, key: PublicKey)
    requires i <= |txs|
    ensures InOrder(BlockEntries(txs, i, height, key))
    ensures forall k :: 0 <= k < |BlockEntries(txs, i, height, key)| ==>
              BlockEntries(txs, i, height, key)[k].height == height && BlockEntries(txs, i, height, key)[k].index < i
  {
    if i > 0 {
      BlockEntriesInOrder(txs, i - 1, height, key);
      PushInOrder(BlockEntries(txs, i - 1, height, key), KeyEntry(key, height, i - 1));
    }
  }

  lemma {:induction false} BlockEntriesAre(txs: seq<Transaction>, i: nat, height: int, key: PublicKey)
    requires i <= |txs|
    ensures forall e :: e in BlockEntries(txs, i, height, key) <==>
              e.key == key && e.height == height && 0 <= e.index < i && Involves(txs[e.index], key)
  {
    if i > 0 {
      BlockEntriesAre(txs, i - 1, height, key);
    }
  }

  lemma {:induction false} EntriesAre(chain: seq<Block>, n: nat, key: PublicKey)
    requires n <= |chain|
    ensures InOrder(Entries(chain, n, key))
    ensures forall e :: e in Entries(chain, n, key) <==>
              e.key == key && e.height < n && OnChain(chain, e) && Involves(chain[e.height].txs[e.index], key)
  {
    if n > 0 {
      EntriesAre(chain, n - 1, key);
      var txs := chain[n - 1].txs;
      BlockEntriesAre(txs, |txs|, n - 1, key);
      BlockEntriesInOrder(txs, |txs|, n - 1, key);
      InOrderTogether(Entries(chain, n - 1, key), BlockEntries(txs, |txs|, n - 1, key), n - 1);
    }
  }

  /** Entries of one height behind entries of lower ones. */
  lemma InOrderTogether(lower: seq<KeyEntry>, upper: seq<KeyEntry>, height: int)
    requires InOrder(lower) && InOrder(upper)
    requires (forall e :: e in lower ==> e.height < height) && forall e :: e in upper ==> e.height == height
    ensures InOrder(lower + upper)
  {
    assert forall k :: 0 <= k < |lower| ==> lower[k] in lower;
    assert forall k :: 0 <= k < |upper| ==> upper[k] in upper;
  }

  lemma {:induction false} KeyEntriesAre(txs: seq<Transaction>, height: int, e: KeyEntry)
    ensures e in KeyEntries(txs, height) <==>
              e.height == height && 0 <= e.index < |txs| && Involves(txs[e.index], e.key)
  {
    if txs != [] {
      KeyEntriesAre(txs[..|txs| - 1], height, e);
    }
  }

  lemma {:induction false} EntriesFromAre(chain: seq<Block>, e: KeyEntry)
    ensures e in EntriesFrom(chain, 0) <==> OnChain(chain, e) && Involves(chain[e.height].txs[e.index], e.key)
  {
    if chain != [] {
      var n := |chain| - 1;
      EntriesFromAre(chain[..n], e);
      KeyEntriesAre(chain[n].txs, n, e);
    }
  }

  lemma {:induction false} OneOrder(a: seq<KeyEntry>, b: seq<KeyEntry>)
    requires InOrder(a) && InOrder(b) && forall e :: e in a <==> e in b
    ensures a == b
  {
    if a == [] {
      assert forall i :: 0 <= i < |b| ==> b[i] in b;
    } else {
      assert a[0] in a && b != [];
      assert b[0] in b;
      var i :| 0 <= i < |a| && a[i] == b[0];
      var j :| 0 <= j < |b| && b[j] == a[0];
      assert a[0] == b[0];
      TailsAgree(a, b);
      OneOrder(a[1..], b[1..]);
      assert a == [a[0]] + a[1..] && b == [b[0]] + b[1..];
    }
  }

  lemma TailsAgree(a: seq<KeyEntry>, b: seq<KeyEntry>)
    requires InOrder(a) && InOrder(b) && a != [] && b != [] && a[0] == b[0] && forall e :: e in a <==> e in b
    ensures InOrder(a[1..]) && InOrder(b[1..]) && forall e :: e in a[1..] <==> e in b[1..]
  {
    forall e ensures e in a[1..] <==> e in a && e != a[0] {
      TailIs(a, e);
    }
    forall e ensures e in b[1..] <==> e in b && e != b[0] {
      TailIs(b, e);
    }
  }

  lemma TailIs(a: seq<KeyEntry>, e: KeyEntry)
    requires InOrder(a) && a != []
    ensures e in a[1..] <==> e in a && e != a[0]
  {
    if e in a[1..] {
      var i :| 0 <= i < |a| - 1 && a[1..][i] == e;
      assert Before(a[0], a[i + 1]);
    }
    if e in a && e != a[0] {
      var i :| 0 <= i < |a| && a[i] == e;
      assert a[1..][i - 1] == e;
    }
  }

  /** What an iterator over an unpruned index yields is the history. */
  lemma ListingIsHistory(listing: seq<KeyEntry>, chain: seq<Block>, height: int, key: PublicKey)
    requires Lists(listing, Asked(EntriesFrom(chain, 0), height), key)
    ensures listing == Entries(chain, AskedBlocks(height, |chain|), key)
  {
    var n := AskedBlocks(height, |chain|);
    EntriesAre(chain, n, key);
    forall e ensures e in listing <==> e in Entries(chain, n, key) {
      EntriesFromAre(chain, e);
    }
    OneOrder(listing, Entries(chain, n, key));
  }
}
