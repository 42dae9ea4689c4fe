/**
The ledger database as a value: what connecting and disconnecting a block do to it, and the
database that a whole main chain leads to.

The database without the branch flags is a function of the main chain alone (`Replay`).
That is what makes a rolled-back reorganisation leave no trace.
*/
module LedgerModel {
  import opened Types
  import opened Rules
  import opened Balances

  datatype Tip = Tip(id: BlockID, height: int)

  /** Where a transaction is confirmed. */
  datatype Place = Place(height: int, index: int)

  /** A public key took part in the transaction at this place. */
  datatype KeyEntry = KeyEntry(key: PublicKey, height: int, index: int)

  datatype Core = Core(
    tip: Option<Tip>,
    heights: map<int, BlockID>,
    txIndex: map<TransactionID, Place>,
    keyIndex: set<KeyEntry>,
    balances: Table)

  datatype Ledger = Ledger(core: Core, branch: map<BlockID, BranchType>)

  const EMPTY_CORE := Core(None, map[], map[], {}, map[])
  const WINDOW := 2 * BLOCKS_UNTIL_NEW_SERIES

  // ----- what one block contributes

  function TxIDs(txs: seq<Transaction>): set<TransactionID> {
    set i | 0 <= i < |txs| :: ID(txs[i])
  }

  function TxPlaces(txs: seq<Transaction>, height: int): (m: map<TransactionID, Place>)
    ensures m.Keys == TxIDs(txs)
  {
    if txs == [] then map[]
    else
      var n := |txs| - 1;
      assert TxIDs(txs) == TxIDs(txs[..n]) + {ID(txs[n])} by {
        assert forall i :: 0 <= i < n ==> txs[..n][i] == txs[i];
      }
      TxPlaces(txs[..n], height)[ID(txs[n]) := Place(height, n)]
  }

  function EntriesOf(tx: Transaction, height: int, index: int): set<KeyEntry> {
    (if IsCoinbase(tx) then {} else {KeyEntry(tx.body.from.value, height, index)})
    + {KeyEntry(tx.body.to, height, index)}
  }

  function KeyEntries(txs: seq<Transaction>, height: int): (s: set<KeyEntry>)
    ensures forall e :: e in s ==> e.height == height && 0 <= e.index < |txs|
  {
    if txs == [] then {}
    else
      var n := |txs| - 1;
      KeyEntries(txs[..n], height) + EntriesOf(txs[n], height, n)
  }

  /** What a transaction of a block does to balances: a coinbase only matures an older one. */
  function Effect(tx: Transaction, mature: Option<Transaction>): seq<Transaction> {
    if !IsCoinbase(tx) then [tx] else if mature.Some? then [mature.value] else []
  }

  function Effects(txs: seq<Transaction>, mature: Option<Transaction>): seq<Transaction> {
    if txs == [] then []
    else
      var n := |txs| - 1;
      Effects(txs[..n], mature) + Effect(txs[n], mature)
  }

  function PlacesOf(block: Option<Block>): map<TransactionID, Place> {
    if block.None? then map[] else TxPlaces(block.value.txs, block.value.header.height)
  }

  function EntriesOfBlock(block: Option<Block>): set<KeyEntry> {
    if block.None? then {} else KeyEntries(block.value.txs, block.value.header.height)
  }

  // ----- connecting and disconnecting one block

  /** No transaction is processed already, and every sender can pay. */
  predicate CanConnect(core: Core, block: Block, mature: Option<Transaction>) {
    && TxIDs(block.txs) !! core.txIndex.Keys
    && CanApplyAll(core.balances, Effects(block.txs, mature), 0)
  }

  function ConnectCore(core: Core, block: Block, mature: Option<Transaction>, pruned: Option<Block>): Core {
    var id, height := block.header.id, block.header.height;
    Core(
      Some(Tip(id, height)),
      core.heights[height := id],
      (core.txIndex + PlacesOf(Some(block))) - PlacesOf(pruned).Keys,
      (core.keyIndex + EntriesOfBlock(Some(block))) - EntriesOfBlock(pruned),
      ApplyAll(core.balances, Effects(block.txs, mature)))
  }

  function DisconnectCore(core: Core, block: Block, mature: Option<Transaction>, pruned: Option<Block>): Core {
    var height := block.header.height;
    Core(
      Some(Tip(block.header.previous, height - 1)),
      core.heights - {height},
      (core.txIndex - PlacesOf(Some(block)).Keys) + PlacesOf(pruned),
      (core.keyIndex - EntriesOfBlock(Some(block))) + EntriesOfBlock(pruned),
      UndoAll(core.balances, Effects(block.txs, mature)))
  }

  // ----- the database of a main chain

  /** Heights count up from zero and every block is sane on its own. */
  ghost predicate Shaped(chain: seq<Block>) {
    forall i {:trigger SaneAt(chain, i)} :: 0 <= i < |chain| ==> SaneAt(chain, i)
  }

  ghost predicate SaneAt(chain: seq<Block>, i: nat) {
    i < |chain| && chain[i].header.height == i && CheckTransactions(chain[i].txs)
  }

  lemma TakeOneMore(chain: seq<Block>, n: nat)
    requires n < |chain|
    ensures chain[..n + 1] == chain[..n] + [chain[n]]
  {
  }

  lemma ShapedPrefix(chain: seq<Block>, n: nat)
    requires Shaped(chain) && n <= |chain|
    ensures Shaped(chain[..n])
  {
    forall i | 0 <= i < n ensures SaneAt(chain[..n], i) {
      assert SaneAt(chain, i);
    }
  }

  lemma ShapedAppend(before: seq<Block>, block: Block)
    ensures Shaped(before + [block])
            <==> Shaped(before) && block.header.height == |before| && CheckTransactions(block.txs)
  {
    var chain := before + [block];
    if Shaped(chain) {
      ShapedPrefix(chain, |before|);
      assert chain[..|before|] == before;
      assert SaneAt(chain, |before|);
    } else if Shaped(before) && block.header.height == |before| && CheckTransactions(block.txs) {
      forall i | 0 <= i < |chain| ensures SaneAt(chain, i) {
        assert i < |before| ==> SaneAt(before, i);
      }
    }
  }

  /** The coinbase that the next block matures. */
  function Matured(chain: seq<Block>): (tx: Option<Transaction>)
    requires Shaped(chain)
    ensures tx.Some? ==> IsCoinbase(tx.value) && CheckTransaction(tx.value)
  {
    var h := |chain| - COINBASE_MATURITY;
    if h >= 0 then assert SaneAt(chain, h); Some(chain[h].txs[0]) else None
  }

  /** The block whose indices the next block prunes. */
  function Pruned(prune: bool, chain: seq<Block>): Option<Block> {
    if prune && |chain| >= WINDOW then Some(chain[|chain| - WINDOW]) else None
  }

  function Replay(prune: bool, chain: seq<Block>): Core
    requires Shaped(chain)
  {
    if chain == [] then EMPTY_CORE
    else
      var before := chain[..|chain| - 1];
      ShapedPrefix(chain, |chain| - 1);
      ConnectCore(Replay(prune, before), chain[|chain| - 1], Matured(before), Pruned(prune, before))
  }

  /** Every block of the chain could be connected in turn. */
  ghost predicate Replayable(prune: bool, chain: seq<Block>)
    requires Shaped(chain)
  {
    chain == [] ||
    var before := chain[..|chain| - 1];
    ShapedPrefix(chain, |chain| - 1);
    Replayable(prune, before) && CanConnect(Replay(prune, before), chain[|chain| - 1], Matured(before))
  }

  /** Every transaction had a current series, maturity and expiration when it was confirmed. */
  ghost predicate Timely(chain: seq<Block>) {
    forall i :: 0 <= i < |chain| ==> AllTimely(chain[i].txs, i)
  }

  ghost predicate AllTimely(txs: seq<Transaction>, height: nat) {
    forall t :: 0 <= t < |txs| ==> TimelyAt(txs[t], height)
  }

  ghost predicate Linked(chain: seq<Block>) {
    forall i {:trigger LinkedAt(chain, i)} :: 1 <= i < |chain| ==> LinkedAt(chain, i)
  }

  ghost predicate LinkedAt(chain: seq<Block>, i: nat) {
    1 <= i < |chain| && chain[i].header.previous == chain[i - 1].header.id
  }

  // ----- the index window

  /** The lowest height whose transactions are indexed. */
  function Lo(prune: bool, length: nat): nat {
    if prune && length >= WINDOW then length - WINDOW else 0
  }

  /** The places of the transactions of blocks lo, lo + 1, ... */
  function PlacesFrom(chain: seq<Block>, lo: nat): map<TransactionID, Place> {
    if |chain| <= lo then map[]
    else
      var n := |chain| - 1;
      PlacesFrom(chain[..n], lo) + TxPlaces(chain[n].txs, n)
  }

  function EntriesFrom(chain: seq<Block>, lo: nat): set<KeyEntry> {
    if |chain| <= lo then {}
    else
      var n := |chain| - 1;
      EntriesFrom(chain[..n], lo) + KeyEntries(chain[n].txs, n)
  }

  /** No transaction is in two blocks of the chain. */
  ghost predicate ConfirmedOnce(chain: seq<Block>) {
    forall i, j :: 0 <= i < j < |chain| ==> TxIDs(chain[i].txs) !! TxIDs(chain[j].txs)
  }

  lemma {:induction false} PlacesFromKeys(chain: seq<Block>, lo: nat)
    ensures forall id :: id in PlacesFrom(chain, lo) <==> exists i :: lo <= i < |chain| && id in TxIDs(chain[i].txs)
  {
    if |chain| > lo {
      var n := |chain| - 1;
      PlacesFromKeys(chain[..n], lo);
      assert forall i :: 0 <= i < n ==> chain[..n][i] == chain[i];
    }
  }

  /** `p` is part of `m`. */
  ghost predicate Within<K, V>(p: map<K, V>, m: map<K, V>) {
    p.Keys <= m.Keys && forall k :: k in p ==> m[k] == p[k]
  }

  lemma WithinUnion<K, V>(p: map<K, V>, m: map<K, V>, t: map<K, V>)
    requires Within(p, m) && p.Keys !! t.Keys
    ensures Within(p, m + t)
    ensures (m + t) - p.Keys == (m - p.Keys) + t
  {
  }

  lemma PlacesFromAppend(before: seq<Block>, block: Block, lo: nat)
    requires lo <= |before|
    ensures PlacesFrom(before + [block], lo) == PlacesFrom(before, lo) + TxPlaces(block.txs, |before|)
    ensures EntriesFrom(before + [block], lo) == EntriesFrom(before, lo) + KeyEntries(block.txs, |before|)
  {
    assert (before + [block])[..|before|] == before;
  }

  lemma ConfirmedOncePrefix(chain: seq<Block>, n: nat)
    requires ConfirmedOnce(chain) && n <= |chain|
    ensures ConfirmedOnce(chain[..n])
  {
    forall i, j | 0 <= i < j < n ensures TxIDs(chain[..n][i].txs) !! TxIDs(chain[..n][j].txs) {
      assert chain[..n][i] == chain[i] && chain[..n][j] == chain[j];
    }
  }

  /** The lowest block's places are in the window, undisturbed. */
  lemma {:induction false} LowestPlaces(chain: seq<Block>, lo: nat)
    requires lo < |chain| && ConfirmedOnce(chain)
    ensures Within(TxPlaces(chain[lo].txs, lo), PlacesFrom(chain, lo))
    ensures PlacesFrom(chain, lo + 1) == PlacesFrom(chain, lo) - TxIDs(chain[lo].txs)
  {
    var n := |chain| - 1;
    var lowest, top := TxPlaces(chain[lo].txs, lo), TxPlaces(chain[n].txs, n);
    if lo < n {
      ConfirmedOncePrefix(chain, n);
      LowestPlaces(chain[..n], lo);
      WithinUnion(lowest, PlacesFrom(chain[..n], lo), top);
    } else {
      assert PlacesFrom(chain[..n], lo) == map[];
      assert map[] + top == top;
    }
  }

  lemma {:induction false} EntriesBelow(chain: seq<Block>, lo: nat)
    ensures forall e :: e in EntriesFrom(chain, lo) ==> lo <= e.height < |chain|
  {
    if |chain| > lo {
      EntriesBelow(chain[..|chain| - 1], lo);
    }
  }

  lemma {:induction false} LowestEntries(chain: seq<Block>, lo: nat)
    requires lo < |chain|
    ensures KeyEntries(chain[lo].txs, lo) <= EntriesFrom(chain, lo)
    ensures EntriesFrom(chain, lo + 1) == EntriesFrom(chain, lo) - KeyEntries(chain[lo].txs, lo)
  {
    var n := |chain| - 1;
    if lo < n {
      LowestEntries(chain[..n], lo);
    } else {
      assert EntriesFrom(chain[..n], lo) == {};
    }
  }

  // ----- what Replay leads to

  /** The contents of the database, told from the chain. */
  ghost predicate Describes(prune: bool, chain: seq<Block>, core: Core) {
    && core.tip == (if chain == [] then None else Some(Tip(chain[|chain| - 1].header.id, |chain| - 1)))
    && core.heights == (map i | 0 <= i < |chain| :: chain[i].header.id)
    && core.txIndex == PlacesFrom(chain, Lo(prune, |chain|))
    && core.keyIndex == EntriesFrom(chain, Lo(prune, |chain|))
    && Normal(core.balances)
  }

  lemma SeriesNeverOverlap(tx: Transaction, height: nat, older: Transaction, oldHeight: nat)
    requires CheckTransactionSeries(tx, height) && CheckTransactionSeries(older, oldHeight)
    requires oldHeight + WINDOW <= height
    ensures ID(tx) != ID(older)
  {
    assert oldHeight / BLOCKS_UNTIL_NEW_SERIES + 2 <= height / BLOCKS_UNTIL_NEW_SERIES;
    assert tx.body.series > older.body.series;
  }

  /** Blocks a whole window apart share no transaction. */
  lemma FarApart(older: seq<Transaction>, oldHeight: nat, txs: seq<Transaction>, height: nat)
    requires AllTimely(older, oldHeight) && AllTimely(txs, height) && oldHeight + WINDOW <= height
    ensures TxIDs(older) !! TxIDs(txs)
  {
    forall s, t | 0 <= s < |older| && 0 <= t < |txs| ensures ID(older[s]) != ID(txs[t]) {
      assert TimelyAt(older[s], oldHeight) && TimelyAt(txs[t], height);
      SeriesNeverOverlap(txs[t], height, older[s], oldHeight);
    }
  }

  /** A block that can be connected repeats no transaction of the chain, pruned or not. */
  lemma NewBlockIsNew(prune: bool, chain: seq<Block>, block: Block, i: nat)
    requires Shaped(chain) && Timely(chain) && AllTimely(block.txs, |chain|) && i < |chain|
    requires TxIDs(block.txs) !! PlacesFrom(chain, Lo(prune, |chain|)).Keys
    ensures TxIDs(chain[i].txs) !! TxIDs(block.txs)
  {
    var h := |chain|;
    if i >= Lo(prune, h) {
      PlacesFromKeys(chain, Lo(prune, h));
    } else {
      FarApart(chain[i].txs, i, block.txs, h);
    }
  }

  /** The effects of a sane block are movable transactions. */
  lemma {:induction false} EffectsMovable(txs: seq<Transaction>, mature: Option<Transaction>)
    requires forall i :: 0 <= i < |txs| ==> CheckTransaction(txs[i])
    requires mature.Some? ==> CheckTransaction(mature.value)
    ensures AllMovable(Effects(txs, mature))
  {
    if txs != [] {
      EffectsMovable(txs[..|txs| - 1], mature);
    }
  }

  lemma PrunedIsLowest(prune: bool, chain: seq<Block>)
    requires Shaped(chain)
    ensures var pruned, lo := Pruned(prune, chain), Lo(prune, |chain|);
            if prune && |chain| >= WINDOW then
              lo < |chain| && PlacesOf(pruned) == TxPlaces(chain[lo].txs, lo)
              && EntriesOfBlock(pruned) == KeyEntries(chain[lo].txs, lo)
            else
              PlacesOf(pruned) == map[] && EntriesOfBlock(pruned) == {}
  {
    if prune && |chain| >= WINDOW {
      assert SaneAt(chain, |chain| - WINDOW);
    }
  }

  /** The window moves up by one when a block is connected. */
  lemma PlacesMove(prune: bool, before: seq<Block>, block: Block)
    requires Shaped(before) && ConfirmedOnce(before + [block])
    ensures (PlacesFrom(before, Lo(prune, |before|)) + TxPlaces(block.txs, |before|))
            - PlacesOf(Pruned(prune, before)).Keys
            == PlacesFrom(before + [block], Lo(prune, |before| + 1))
  {
    PrunedIsLowest(prune, before);
    PlacesMoveBy(before, block, Lo(prune, |before|), Lo(prune, |before| + 1), PlacesOf(Pruned(prune, before)));
  }

  lemma PlacesMoveBy(before: seq<Block>, block: Block, lo: nat, hi: nat, gone: map<TransactionID, Place>)
    requires ConfirmedOnce(before + [block]) && lo <= |before|
    requires if hi == lo then gone == map[] else hi == lo + 1 && lo < |before| && gone == TxPlaces(before[lo].txs, lo)
    ensures (PlacesFrom(before, lo) + TxPlaces(block.txs, |before|)) - gone.Keys == PlacesFrom(before + [block], hi)
  {
    PlacesFromAppend(before, block, lo);
    assert PlacesFrom(before + [block], lo) - gone.Keys == PlacesFrom(before + [block], hi) by {
      if hi == lo {
        MinusNothing(PlacesFrom(before + [block], lo), gone);
      } else {
        LowestLeaves(before, block, lo);
      }
    }
  }

  lemma LowestLeaves(before: seq<Block>, block: Block, lo: nat)
    requires lo < |before| && ConfirmedOnce(before + [block])
    ensures PlacesFrom(before + [block], lo) - TxPlaces(before[lo].txs, lo).Keys == PlacesFrom(before + [block], lo + 1)
  {
    assert (before + [block])[lo] == before[lo];
    LowestPlaces(before + [block], lo);
  }

  lemma MinusNothing<K, V>(m: map<K, V>, none: map<K, V>)
    requires none == map[]
    ensures m - none.Keys == m
  {
  }

  lemma EntriesMove(prune: bool, before: seq<Block>, block: Block)
    requires Shaped(before)
    ensures (EntriesFrom(before, Lo(prune, |before|)) + KeyEntries(block.txs, |before|))
            - EntriesOfBlock(Pruned(prune, before))
            == EntriesFrom(before + [block], Lo(prune, |before| + 1))
  {
    var lo := Lo(prune, |before|);
    PlacesFromAppend(before, block, lo);
    PrunedIsLowest(prune, before);
    if prune && |before| >= WINDOW {
      LowestEntries(before + [block], lo);
    }
  }

  lemma ReplayAppend(prune: bool, before: seq<Block>, block: Block)
    requires Shaped(before) && block.header.height == |before| && CheckTransactions(block.txs)
    ensures Shaped(before + [block])
    ensures Replay(prune, before + [block])
            == ConnectCore(Replay(prune, before), block, Matured(before), Pruned(prune, before))
    ensures Replayable(prune, before + [block])
            <==> Replayable(prune, before) && CanConnect(Replay(prune, before), block, Matured(before))
  {
    ShapedAppend(before, block);
    assert (before + [block])[..|before|] == before;
  }

  lemma ValidPrefix(chain: seq<Block>, n: nat)
    requires Shaped(chain) && Timely(chain) && n <= |chain|
    ensures Shaped(chain[..n]) && Timely(chain[..n])
  {
    ShapedPrefix(chain, n);
    assert forall i :: 0 <= i < n ==> chain[..n][i] == chain[i];
  }

  lemma LastBlock(chain: seq<Block>) returns (before: seq<Block>, block: Block)
    requires chain != []
    ensures chain == before + [block]
  {
    before, block := chain[..|chain| - 1], chain[|chain| - 1];
  }

  lemma {:induction false} ReplayablePrefix(prune: bool, chain: seq<Block>, n: nat, part: seq<Block>)
    requires Shaped(chain) && n <= |chain| && part == chain[..n] && Shaped(part)
    ensures Replayable(prune, chain) ==> Replayable(prune, part)
  {
    if n == |chain| {
      assert part == chain;
    } else {
      var before, block := LastBlock(chain);
      ShapedAppend(before, block);
      ReplayAppend(prune, before, block);
      ReplayablePrefix(prune, before, n, part);
    }
  }

  /** The whole database, at every chain: the indices hold exactly the window. */
  lemma {:induction false} ReplayDescribed(prune: bool, chain: seq<Block>)
    requires Shaped(chain) && Timely(chain) && Replayable(prune, chain)
    ensures Describes(prune, chain, Replay(prune, chain))
    ensures ConfirmedOnce(chain)
    decreases |chain|, 1
  {
    if chain != [] {
      var before, block := LastBlock(chain);
      AppendDescribed(prune, chain, before, block);
    }
  }

  lemma {:induction false} AppendDescribed(prune: bool, chain: seq<Block>, before: seq<Block>, block: Block)
    requires chain == before + [block]
    requires Shaped(chain) && Timely(chain) && Replayable(prune, chain)
    ensures Describes(prune, chain, Replay(prune, chain))
    ensures ConfirmedOnce(chain)
    decreases |chain|, 0
  {
    ValidPrefix(chain, |before|);
    assert chain[..|before|] == before && chain[|before|] == block;
    ShapedAppend(before, block);
    ReplayAppend(prune, before, block);
    ReplayDescribed(prune, before);
    StepDescribed(prune, before, block, Replay(prune, before));
  }

  lemma StaysConfirmedOnce(prune: bool, before: seq<Block>, block: Block)
    requires Shaped(before) && Timely(before) && AllTimely(block.txs, |before|) && ConfirmedOnce(before)
    requires TxIDs(block.txs) !! PlacesFrom(before, Lo(prune, |before|)).Keys
    ensures ConfirmedOnce(before + [block])
  {
    var chain := before + [block];
    forall i, j | 0 <= i < j < |chain| ensures TxIDs(chain[i].txs) !! TxIDs(chain[j].txs) {
      if j < |before| {
        assert chain[i] == before[i] && chain[j] == before[j];
      } else {
        NewBlockIsNew(prune, before, block, i);
      }
    }
  }

  lemma StepDescribed(prune: bool, before: seq<Block>, block: Block, core: Core)
    requires Shaped(before) && block.header.height == |before| && CheckTransactions(block.txs)
    requires Timely(before) && AllTimely(block.txs, |before|) && ConfirmedOnce(before)
    requires Describes(prune, before, core) && CanConnect(core, block, Matured(before))
    ensures ConfirmedOnce(before + [block])
    ensures Describes(prune, before + [block], ConnectCore(core, block, Matured(before), Pruned(prune, before)))
  {
    var mature := Matured(before);
    StaysConfirmedOnce(prune, before, block);
    PlacesMove(prune, before, block);
    EntriesMove(prune, before, block);
    EffectsMovable(block.txs, mature);
    ApplyAllKeepsNormal(core.balances, Effects(block.txs, mature), 0);
    HeightsAppend(before, block);
    CoreMoves(prune, before, block, core, mature, Pruned(prune, before), before + [block]);
  }

  lemma CoreMoves(prune: bool, before: seq<Block>, block: Block, core: Core, mature: Option<Transaction>,
          pruned: Option<Block>, chain: seq<Block>)
    requires |chain| == |before| + 1 && chain[|before|] == block && block.header.height == |before|
    requires core.heights[|before| := block.header.id] == (map i | 0 <= i < |chain| :: chain[i].header.id)
    requires (core.txIndex + TxPlaces(block.txs, |before|)) - PlacesOf(pruned).Keys
             == PlacesFrom(chain, Lo(prune, |chain|))
    requires (core.keyIndex + KeyEntries(block.txs, |before|)) - EntriesOfBlock(pruned)
             == EntriesFrom(chain, Lo(prune, |chain|))
    requires Normal(ApplyAll(core.balances, Effects(block.txs, mature)))
    ensures Describes(prune, chain, ConnectCore(core, block, mature, pruned))
  {
  }

  lemma HeightsAppend(before: seq<Block>, block: Block)
    ensures var m: map<int, BlockID> := map i | 0 <= i < |before| :: before[i].header.id;
            var chain := before + [block];
            && m[|before| := block.header.id] == (map i | 0 <= i < |chain| :: chain[i].header.id)
            && m[|before| := block.header.id] - {|before|} == m
  {
  }

  // ----- disconnecting what was connected

  lemma RestoreMap<K, V>(t: map<K, V>, b: map<K, V>, p: map<K, V>)
    requires b.Keys !! t.Keys && Within(p, t)
    ensures (((t + b) - p.Keys) - b.Keys) + p == t
  {
  }

  lemma RestoreSet<K>(t: set<K>, b: set<K>, p: set<K>)
    requires b !! t && p <= t
    ensures (((t + b) - p) - b) + p == t
  {
  }

  /** Disconnecting the tip gives exactly the database of the chain without it, and no panic. */
  lemma DisconnectInvertsConnect(prune: bool, before: seq<Block>, block: Block)
    requires Shaped(before) && Timely(before) && Replayable(prune, before) && before != []
    requires block.header.height == |before| && CheckTransactions(block.txs)
    requires block.header.previous == before[|before| - 1].header.id
    requires CanConnect(Replay(prune, before), block, Matured(before))
    ensures var core := ConnectCore(Replay(prune, before), block, Matured(before), Pruned(prune, before));
            && CanUndoAll(core.balances, Effects(block.txs, Matured(before)))
            && DisconnectCore(core, block, Matured(before), Pruned(prune, before)) == Replay(prune, before)
  {
    ReplayDescribed(prune, before);
    DisconnectRestores(prune, before, block, Replay(prune, before));
  }

  lemma DisconnectRestores(prune: bool, before: seq<Block>, block: Block, core: Core)
    requires Shaped(before) && ConfirmedOnce(before) && Describes(prune, before, core) && before != []
    requires block.header.height == |before| && CheckTransactions(block.txs)
    requires block.header.previous == before[|before| - 1].header.id
    requires CanConnect(core, block, Matured(before))
    ensures var after := ConnectCore(core, block, Matured(before), Pruned(prune, before));
            && CanUndoAll(after.balances, Effects(block.txs, Matured(before)))
            && DisconnectCore(after, block, Matured(before), Pruned(prune, before)) == core
  {
    BalancesRestored(core.balances, block.txs, Matured(before));
    TxIndexRestored(prune, before, block);
    KeyIndexRestored(prune, before, block);
    HeightsAppend(before, block);
    CoreRestored(core, block, Matured(before), Pruned(prune, before),
      ConnectCore(core, block, Matured(before), Pruned(prune, before)));
  }

  lemma CoreRestored(core: Core, block: Block, mature: Option<Transaction>, pruned: Option<Block>, after: Core)
    requires core.tip == Some(Tip(block.header.previous, block.header.height - 1))
    requires after.heights - {block.header.height} == core.heights
    requires (after.txIndex - PlacesOf(Some(block)).Keys) + PlacesOf(pruned) == core.txIndex
    requires (after.keyIndex - EntriesOfBlock(Some(block))) + EntriesOfBlock(pruned) == core.keyIndex
    requires UndoAll(after.balances, Effects(block.txs, mature)) == core.balances
    ensures DisconnectCore(after, block, mature, pruned) == core
  {
  }

  lemma BalancesRestored(balances: Table, txs: seq<Transaction>, mature: Option<Transaction>)
    requires Normal(balances) && CheckTransactions(txs) && (mature.Some? ==> CheckTransaction(mature.value))
    requires CanApplyAll(balances, Effects(txs, mature), 0)
    ensures CanUndoAll(ApplyAll(balances, Effects(txs, mature)), Effects(txs, mature))
    ensures UndoAll(ApplyAll(balances, Effects(txs, mature)), Effects(txs, mature)) == balances
  {
    EffectsMovable(txs, mature);
    UndoAllInvertsApplyAll(balances, Effects(txs, mature), 0);
  }

  lemma TxIndexRestored(prune: bool, before: seq<Block>, block: Block)
    requires Shaped(before) && ConfirmedOnce(before)
    requires TxIDs(block.txs) !! PlacesFrom(before, Lo(prune, |before|)).Keys
    ensures var t, pruned := PlacesFrom(before, Lo(prune, |before|)), PlacesOf(Pruned(prune, before));
            (((t + PlacesOf(Some(block))) - pruned.Keys) - PlacesOf(Some(block)).Keys) + pruned == t
  {
    var lo := Lo(prune, |before|);
    PrunedIsLowest(prune, before);
    if prune && |before| >= WINDOW {
      LowestPlaces(before, lo);
    }
    RestoreMap(PlacesFrom(before, lo), PlacesOf(Some(block)), PlacesOf(Pruned(prune, before)));
  }

  lemma KeyIndexRestored(prune: bool, before: seq<Block>, block: Block)
    requires Shaped(before) && block.header.height == |before|
    ensures var t, pruned := EntriesFrom(before, Lo(prune, |before|)), EntriesOfBlock(Pruned(prune, before));
            (((t + EntriesOfBlock(Some(block))) - pruned) - EntriesOfBlock(Some(block))) + pruned == t
  {
    var lo := Lo(prune, |before|);
    EntriesBelow(before, lo);
    PrunedIsLowest(prune, before);
    if prune && |before| >= WINDOW {
      LowestEntries(before, lo);
    }
    RestoreSet(EntriesFrom(before, lo), EntriesOfBlock(Some(block)), EntriesOfBlock(Pruned(prune, before)));
  }
}
