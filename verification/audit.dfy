/**
The inspector's checks of a ledger: the money supply against the reward schedule, and a
public key's balance against its history.
*/
module Audit {
  import opened Types
  import opened Rules
  import opened Supply
  import opened Balances
  import opened LedgerModel
  import opened LedgerDB
  import opened Conservation
  import opened BlockProcessor
  import opened Reachable
  import opened History
  import opened KeyIndex

  // ----- the money supply

  /** The block at a height of the main chain, as the inspector finds it. */
  lemma BlockAtHeight(p: Processor, h: int)
    requires p.Running() && 0 <= h < |p.chain|
    ensures h in p.ledger.heights && p.ledger.heights[h] in p.store.blocks
    ensures p.store.blocks[p.ledger.heights[h]].block == p.chain[h] && p.chain[h].txs != []
    ensures p.chain[h].txs[0].body.amount == BlockCreationReward(h) + Fees(p.chain[h].txs)
  {
    OnBranchFacts(p.cfg.genesis, p.tree, p.chain, p.store.blocks);
    IndexIsChain(p.cfg.prune, p.ledger.View(), p.chain, p.tree.Keys, p.store.blocks, h);
    MoneySupply(p, 0);
  }

  /** Fees that the coinbases of heights from to to - 1 pay out. */
  method ImmatureFees(ledger: LedgerDisk, store: BlockStorage, from: int, to: int, ghost p: Processor)
      returns (fees: int)
    requires p.Running() && ledger == p.ledger && store == p.store && 0 <= from <= to == |p.chain|
    ensures fees == FeeSum(p.chain, to) - FeeSum(p.chain, from)
  {
    fees := 0;
    var i := from;
    while i < to
      invariant from <= i <= to && fees == FeeSum(p.chain, i) - FeeSum(p.chain, from)
    {
      BlockAtHeight(p, i);
      var coinbase := store.blocks[ledger.heights[i]].block.txs[0];
      fees := fees + coinbase.body.amount - BlockCreationReward(i);
      i := i + 1;
    }
  }

  /** The rewards of heights 0 to last, per schedule. */
  method RewardsUpTo(last: int, ghost n: nat) returns (sum: int)
    requires n == last + 1
    ensures sum == RewardSum(n)
  {
    sum := 0;
    var i := 0;
    while i <= last
      invariant 0 <= i <= n && sum == RewardSum(i)
    {
      sum := sum + BlockCreationReward(i);
      i := i + 1;
    }
  }

  /** Matured rewards less immature fees; nothing before the first coinbase matures. */
  function Scheduled(chain: seq<Block>): int {
    if |chain| <= COINBASE_MATURITY then 0
    else
      var m := |chain| - COINBASE_MATURITY;
      RewardSum(m) - (FeeSum(chain, |chain|) - FeeSum(chain, m))
  }

  lemma ScheduledIsExpected(chain: seq<Block>, total: int)
    requires Shaped(chain) && total == ExpectedTotal(chain) && total >= 0
    ensures total == Scheduled(chain)
  {
    FeeSumMonotone(chain, 0, |chain|);
  }

  lemma ScheduledAtTip(p: Processor)
    requires p.Running()
    ensures Total(p.ledger.balances) == Scheduled(p.chain)
    ensures p.ledger.tip.Some? && |p.chain| == p.ledger.tip.value.height + 1
  {
    MoneySupply(p, 0);
    ReplayDescribed(p.cfg.prune, p.chain);
    TotalNotNegative(p.ledger.balances);
    ScheduledIsExpected(p.chain, Total(p.ledger.balances));
  }

  lemma ScheduledIs(chain: seq<Block>, m: nat, rewards: int, fees: int)
    requires m > 0 && |chain| == m + COINBASE_MATURITY
    requires rewards == RewardSum(m) && fees == FeeSum(chain, |chain|) - FeeSum(chain, m)
    ensures Scheduled(chain) == rewards - fees
  {
  }

  /** The total that the schedule calls for. */
  method ExpectedBalance(ledger: LedgerDisk, store: BlockStorage, height: int, ghost p: Processor)
      returns (expected: int)
    requires p.Running() && ledger == p.ledger && store == p.store && |p.chain| == height + 1
    ensures expected == Scheduled(p.chain)
  {
    if height - COINBASE_MATURITY < 0 {
      return 0;
    }
    var m := height - COINBASE_MATURITY + 1;
    var rewards := RewardsUpTo(height - COINBASE_MATURITY, m);
    var immatureFees := ImmatureFees(ledger, store, m, height + 1, p);
    ScheduledIs(p.chain, m, rewards, immatureFees);
    return rewards - immatureFees;
  }

  /** At the tip, what the schedule calls for is what the ledger holds. */
  method VerifyTotal(ledger: LedgerDisk, store: BlockStorage, height: int, ghost p: Processor)
      returns (expected: int, found: int)
    requires p.Running() && ledger == p.ledger && store == p.store
    requires ledger.tip.Some? && height == ledger.tip.value.height
    ensures expected == found == Total(ledger.balances)
  {
    ScheduledAtTip(p);
    expected := ExpectedBalance(ledger, store, height, p);
    found := ledger.Balance();
  }

  // ----- one key's balance

  lemma EntrySumStep(chain: seq<Block>, entries: seq<KeyEntry>, t: nat, mature: int, key: PublicKey)
    requires AllOnChain(chain, entries) && t < |entries|
    ensures var e := entries[t];
            EntrySum(chain, entries[..t + 1], mature, key)
            == EntrySum(chain, entries[..t], mature, key)
               + Credit(chain[e.height].txs[e.index], e.height, e.index, mature, key)
  {
    assert entries[..t + 1] == entries[..t] + [entries[t]];
    EntrySumPush(chain, entries[..t], entries[t], mature, key);
  }

  ghost predicate Replays(chain: seq<Block>) {
    Shaped(chain) && Timely(chain) && Replayable(false, chain)
  }

  /** What the iterator over an unpruned index yields, and where each entry points. */
  lemma ListingValue(chain: seq<Block>, listing: seq<KeyEntry>, height: int, key: PublicKey, t: nat)
    requires Replays(chain) && Lists(listing, Asked(EntriesFrom(chain, 0), height), key) && t <= |listing|
    ensures AllOnChain(chain, listing)
    ensures EntrySum(chain, listing[..t], |chain| - 1 - COINBASE_MATURITY, key) >= 0
    ensures t < |listing| ==> Involves(chain[listing[t].height].txs[listing[t].index], key)
  {
    var n := AskedBlocks(height, |chain|);
    ListingIsHistory(listing, chain, height, key);
    ShapedPrefix(chain, n);
    HistoryIsBalance(false, chain, n, chain[..n], key, t);
    EntriesAre(chain, n, key);
    assert t < |listing| ==> listing[t] in listing;
  }

  lemma NextValue(chain: seq<Block>, listing: seq<KeyEntry>, height: int, key: PublicKey, t: nat, mature: int)
    requires Replays(chain) && Lists(listing, Asked(EntriesFrom(chain, 0), height), key) && t < |listing|
    requires mature == |chain| - 1 - COINBASE_MATURITY
    ensures AllOnChain(chain, listing)
    ensures var e := listing[t];
            && Involves(chain[e.height].txs[e.index], key)
            && 0 <= EntrySum(chain, listing[..t + 1], mature, key)
               == EntrySum(chain, listing[..t], mature, key)
                  + Credit(chain[e.height].txs[e.index], e.height, e.index, mature, key)
  {
    ListingValue(chain, listing, height, key, t);
    ListingValue(chain, listing, height, key, t + 1);
    EntrySumStep(chain, listing, t, mature, key);
  }

  /** How many blocks there were up to a height: none below genesis, all of them above the tip. */
  function BlocksThen(height: int, length: nat): nat {
    if height < 0 then 0 else if height >= length then length else height + 1
  }

  function AsOf(chain: seq<Block>, height: int): seq<Block> {
    chain[..BlocksThen(height, |chain|)]
  }

  /** A key's balance when the chain was as high as asked for. */
  ghost function BalanceThen(chain: seq<Block>, height: int, key: PublicKey): int
    requires Shaped(chain)
  {
    ShapedPrefix(chain, BlocksThen(height, |chain|));
    Bal(Replay(false, AsOf(chain, height)).balances, key)
  }

  /**
  What the recomputation adds to it: the key's coinbases up to the height that have matured only
  since, and below -1, where the whole history is read, all that the key has.
  */
  ghost function Excess(chain: seq<Block>, height: int, key: PublicKey): int
    requires Shaped(chain)
  {
    var n := AskedBlocks(height, |chain|);
    if height < -1 then Bal(Replay(false, chain).balances, key)
    else Pending(chain, MatureCount(n), n, |chain| - 1 - COINBASE_MATURITY, key)
  }

  lemma WholeListing(chain: seq<Block>, listing: seq<KeyEntry>, height: int, key: PublicKey)
    requires Replays(chain) && Lists(listing, Asked(EntriesFrom(chain, 0), height), key)
    ensures AllOnChain(chain, listing)
    ensures EntrySum(chain, listing, |chain| - 1 - COINBASE_MATURITY, key)
            == BalanceThen(chain, height, key) + Excess(chain, height, key)
  {
    var n, mature := AskedBlocks(height, |chain|), |chain| - 1 - COINBASE_MATURITY;
    ListingIsHistory(listing, chain, height, key);
    ShapedPrefix(chain, n);
    PartAgrees(false, chain, n, chain[..n], mature, key);
    SumEntries(chain, n, mature, key);
    if height < -1 {
      assert chain[..n] == chain;
      SinceIff(chain, n, key);
    }
  }

  /**
  What is found is the balance then exactly when no coinbase of the key has matured since; so at
  the tip always.  Below -1, exactly when the key has nothing now.
  */
  lemma ExactWhen(chain: seq<Block>, height: int, key: PublicKey)
    requires Replays(chain)
    ensures Excess(chain, height, key) >= 0
    ensures Excess(chain, height, key) == 0 <==>
              if height < -1 then Bal(Replay(false, chain).balances, key) == 0
              else forall h :: !MaturedSince(chain, AskedBlocks(height, |chain|), key, h)
    ensures height >= |chain| - 1 && height >= -1 ==> Excess(chain, height, key) == 0
  {
    ReplayDescribed(false, chain);
    SinceIff(chain, AskedBlocks(height, |chain|), key);
  }

  /** On every chain of more than a hundred blocks genesis is counted at height 0, where it had not been paid. */
  lemma GenesisCountsEarly(chain: seq<Block>, key: PublicKey)
    requires Replays(chain) && Rewarded(chain) && |chain| > 100 && key == chain[0].txs[0].body.to
    ensures BalanceThen(chain, 0, key) == 0 < Excess(chain, 0, key)
  {
    var part := AsOf(chain, 0);
    ValidPrefix(chain, 1);
    ReplayablePrefix(false, chain, 1, part);
    BalancesAreMoney(false, part, key);
    ExactWhen(chain, 0, key);
    assert SaneAt(chain, 0);
    assert MaturedSince(chain, 1, key, 0);
  }

  /** At height -2 and below, where nobody has anything, what the key has at the tip is found. */
  lemma BelowGenesisFindsTip(chain: seq<Block>, height: int, key: PublicKey)
    requires Shaped(chain) && height <= -2
    ensures BalanceThen(chain, height, key) == 0 && Excess(chain, height, key) == BalanceThen(chain, |chain|, key)
  {
    assert AsOf(chain, |chain|) == chain;
  }

  /** The chain, as the height index and the block store tell it. */
  ghost predicate Tells(heights: map<int, BlockID>, blocks: Blocks, chain: seq<Block>) {
    forall h :: 0 <= h < |chain| ==> h in heights && heights[h] in blocks && blocks[heights[h]].block == chain[h]
  }

  /** A ledger and a store that hold a whole chain, nothing pruned. */
  ghost predicate HoldsChain(ledger: LedgerDisk, store: BlockStorage, chain: seq<Block>)
    reads ledger, store
  {
    && Replays(chain) && Tells(ledger.heights, store.blocks, chain)
    && ledger.tip.Some? && ledger.tip.value.height == |chain| - 1
    && ledger.keyIndex == EntriesFrom(chain, 0) && ledger.balances == Replay(false, chain).balances
  }

  /** Those of every running node that does not prune. */
  lemma NodeHolds(p: Processor)
    requires p.Running() && !p.cfg.prune
    ensures HoldsChain(p.ledger, p.store, p.chain)
  {
    ReplayDescribed(false, p.chain);
    forall h | 0 <= h < |p.chain|
      ensures h in p.ledger.heights && p.ledger.heights[h] in p.store.blocks
      ensures p.store.blocks[p.ledger.heights[h]].block == p.chain[h]
    {
      BlockAtHeight(p, h);
    }
  }

  /** At the tip it is the stored balance. */
  lemma TipIsStored(ledger: LedgerDisk, store: BlockStorage, chain: seq<Block>, height: int, key: PublicKey)
    requires HoldsChain(ledger, store, chain) && height >= ledger.tip.value.height
    ensures BalanceThen(chain, height, key) + Excess(chain, height, key) == Bal(ledger.balances, key)
  {
    ExactWhen(chain, height, key);
    assert AsOf(chain, height) == chain;
  }

  /** One entry of the history; `None` is an error of the inspector, which only a negative balance can be. */
  method AddEntry(ledger: LedgerDisk, store: BlockStorage, key: PublicKey, e: KeyEntry, balance: int,
          currentHeight: int, ghost chain: seq<Block>, ghost next: int)
      returns (r: Option<int>)
    requires Tells(ledger.heights, store.blocks, chain) && Shaped(chain)
    requires OnChain(chain, e) && Involves(chain[e.height].txs[e.index], key)
    requires next == balance
                     + Credit(chain[e.height].txs[e.index], e.height, e.index, currentHeight - COINBASE_MATURITY, key)
    ensures (r.Some? ==> r == Some(next)) && (next >= 0 ==> r == Some(next))
  {
    if e.index == 0 && e.height > currentHeight - COINBASE_MATURITY {
      return Some(balance);
    }
    assert SaneAt(chain, e.height);
    var tx := store.blocks[ledger.heights[e.height]].block.txs[e.index];
    if tx.body.to == key {
      return Some(balance + tx.body.amount);
    }
    var left := balance - tx.body.amount - tx.body.fee;
    return if left < 0 then None else Some(left);
  }

  method StepEntry(ledger: LedgerDisk, store: BlockStorage, key: PublicKey, listing: seq<KeyEntry>, t: nat,
          balance: int, currentHeight: int, ghost chain: seq<Block>, ghost height: int, ghost mature: int)
      returns (r: Option<int>)
    requires Tells(ledger.heights, store.blocks, chain) && currentHeight == |chain| - 1
    requires Replays(chain) && Lists(listing, Asked(EntriesFrom(chain, 0), height), key)
    requires t < |listing| && AllOnChain(chain, listing)
    requires mature == currentHeight - COINBASE_MATURITY && balance == EntrySum(chain, listing[..t], mature, key)
    ensures r == Some(EntrySum(chain, listing[..t + 1], mature, key))
  {
    NextValue(chain, listing, height, key, t, mature);
    ghost var next := EntrySum(chain, listing[..t + 1], mature, key);
    r := AddEntry(ledger, store, key, listing[t], balance, currentHeight, chain, next);
  }

  /** The entries of an iterator added up. */
  method AddEntries(ledger: LedgerDisk, store: BlockStorage, key: PublicKey, listing: seq<KeyEntry>, currentHeight: int,
          ghost chain: seq<Block>, ghost height: int)
      returns (r: Option<int>)
    requires Tells(ledger.heights, store.blocks, chain) && currentHeight == |chain| - 1
    requires Replays(chain) && Lists(listing, Asked(EntriesFrom(chain, 0), height), key)
    ensures r == Some(BalanceThen(chain, height, key) + Excess(chain, height, key))
  {
    WholeListing(chain, listing, height, key);
    var t := 0;
    ghost var mature := currentHeight - COINBASE_MATURITY;
    r := Some(0);
    while r.Some? && t < |listing|
      invariant 0 <= t <= |listing| && r == Some(EntrySum(chain, listing[..t], mature, key))
      decreases |listing| - t
    {
      r := StepEntry(ledger, store, key, listing, t, r.value, currentHeight, chain, height, mature);
      t := t + 1;
    }
    assert listing[..t] == listing;
  }

  /**
  The balance at a height recomputed from the history: never negative on the way, and off by
  exactly the coinbases that matured since.
  */
  method GetPublicKeyBalanceAt(ledger: LedgerDisk, store: BlockStorage, db: seq<KeyEntry>, key: PublicKey, height: int,
          ghost chain: seq<Block>)
      returns (r: Option<int>)
    requires HoldsChain(ledger, store, chain)
    requires DatabaseOf(db, ledger.keyIndex) && key < Pow256(32) && Int64(height)
    ensures r == Some(BalanceThen(chain, height, key) + Excess(chain, height, key))
  {
    var listing := ScanKey(db, key, height);
    assert Lists(listing, Asked(EntriesFrom(chain, 0), height), key) by {
      ScanLists(db, ledger.keyIndex, key, height);
    }
    r := AddEntries(ledger, store, key, listing, ledger.tip.value.height, chain, height);
  }
}
