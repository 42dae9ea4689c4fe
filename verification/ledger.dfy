/**
The on-disk ledger: block storage, the balance cache and the database with its connect and
disconnect batches, proved against the value model.
*/
module LedgerDB {
  import opened Types
  import opened Balances
  import opened LedgerModel

  // ----- the lookups a batch makes, as values

  datatype Lookup<+T> = Missing | Found(value: Option<T>)

  /** The coinbase from 100 blocks ago, through the height index and block storage. */
  function MaturedAt(heights: map<int, BlockID>, blocks: Blocks, height: int): Lookup<Transaction> {
    var h := height - COINBASE_MATURITY;
    if h < 0 then Found(None)
    else if h in heights && heights[h] in blocks && blocks[heights[h]].block.txs != [] then
      Found(Some(blocks[heights[h]].block.txs[0]))
    else Missing
  }

  /** The block leaving the index window. */
  function PrunedAt(prune: bool, heights: map<int, BlockID>, blocks: Blocks, height: int): Lookup<Block> {
    var h := height - WINDOW;
    if !prune || h < 0 then Found(None)
    else if h in heights && heights[h] in blocks then Found(Some(blocks[heights[h]].block))
    else Missing
  }

  /** Connecting a block, with its error cases; `None` leaves the database as it was. */
  function Connect(prune: bool, l: Ledger, blocks: Blocks, block: Block): Option<Ledger> {
    var mature, pruned := MaturedAt(l.core.heights, blocks, block.header.height),
                          PrunedAt(prune, l.core.heights, blocks, block.header.height);
    if l.core.tip.Some? && l.core.tip.value.id != block.header.previous then None
    else if mature.Missing? || pruned.Missing? then None
    else if !CanConnect(l.core, block, mature.value) then None
    else Some(Ledger(ConnectCore(l.core, block, mature.value, pruned.value), l.branch[block.header.id := MAIN]))
  }

  /** Disconnecting a block, with its error cases and the negative-balance panic. */
  function Disconnect(prune: bool, l: Ledger, blocks: Blocks, block: Block): Option<Ledger> {
    var mature, pruned := MaturedAt(l.core.heights, blocks, block.header.height),
                          PrunedAt(prune, l.core.heights, blocks, block.header.height);
    if l.core.tip.None? || l.core.tip.value.id != block.header.id then None
    else if mature.Missing? || pruned.Missing? then None
    else if !CanUndoAll(l.core.balances, Effects(block.txs, mature.value)) then None
    else Some(Ledger(DisconnectCore(l.core, block, mature.value, pruned.value), l.branch[block.header.id := SIDE]))
  }

  function IDsOf(txs: seq<Transaction>): seq<TransactionID> {
    seq(|txs|, i requires 0 <= i < |txs| => ID(txs[i]))
  }

  // ----- prefixes of a block's transactions

  lemma PrefixGrows(txs: seq<Transaction>, i: nat, height: int, mature: Option<Transaction>)
    requires i < |txs|
    ensures TxPlaces(txs[..i + 1], height) == TxPlaces(txs[..i], height)[ID(txs[i]) := Place(height, i)]
    ensures KeyEntries(txs[..i + 1], height) == KeyEntries(txs[..i], height) + EntriesOf(txs[i], height, i)
    ensures Effects(txs[..i + 1], mature) == Effects(txs[..i], mature) + Effect(txs[i], mature)
  {
    assert txs[..i + 1][..i] == txs[..i];
  }

  // ----- the same effects, by position in the block, as the loops go through them

  /** The effect of transaction i. */
  function EffectAt(txs: seq<Transaction>, i: nat, mature: Option<Transaction>): Option<Transaction>
    requires i < |txs|
  {
    if IsCoinbase(txs[i]) then mature else Some(txs[i])
  }

  ghost function AppliedTo(b: Table, txs: seq<Transaction>, i: nat, mature: Option<Transaction>): Table
    requires i <= |txs|
  {
    if i == 0 then b
    else
      var before, effect := AppliedTo(b, txs, i - 1, mature), EffectAt(txs, i - 1, mature);
      if effect.Some? then ApplyTx(before, effect.value) else before
  }

  ghost predicate AppliesTo(b: Table, txs: seq<Transaction>, i: nat, mature: Option<Transaction>)
    requires i <= |txs|
  {
    i == 0 ||
    var effect := EffectAt(txs, i - 1, mature);
    && AppliesTo(b, txs, i - 1, mature)
    && (effect.Some? ==> CanApply(AppliedTo(b, txs, i - 1, mature), effect.value, 0))
  }

  lemma {:induction false} NotAppliesToMore(b: Table, txs: seq<Transaction>, i: nat, j: nat,
          mature: Option<Transaction>)
    requires i <= j <= |txs| && !AppliesTo(b, txs, i, mature)
    ensures !AppliesTo(b, txs, j, mature)
  {
    if i < j {
      NotAppliesToMore(b, txs, i, j - 1, mature);
    }
  }

  lemma ApplyOneMore(b: Table, xs: seq<Transaction>, tx: Transaction, min: int)
    ensures ApplyAll(b, xs + [tx]) == ApplyTx(ApplyAll(b, xs), tx)
    ensures CanApplyAll(b, xs + [tx], min) <==> CanApplyAll(b, xs, min) && CanApply(ApplyAll(b, xs), tx, min)
  {
    assert (xs + [tx])[..|xs|] == xs;
  }

  lemma EffectsGrow(txs: seq<Transaction>, i: nat, mature: Option<Transaction>)
    requires i < |txs|
    ensures var effect := EffectAt(txs, i, mature);
            Effects(txs[..i + 1], mature) == if effect.Some? then Effects(txs[..i], mature) + [effect.value]
                                             else Effects(txs[..i], mature)
  {
    assert txs[..i + 1][..i] == txs[..i];
    assert Effects(txs[..i], mature) + [] == Effects(txs[..i], mature);
  }

  lemma {:induction false} AppliedToEffects(b: Table, txs: seq<Transaction>, i: nat, mature: Option<Transaction>,
                                            xs: seq<Transaction>)
    requires i <= |txs| && xs == Effects(txs[..i], mature)
    ensures AppliedTo(b, txs, i, mature) == ApplyAll(b, xs)
    ensures AppliesTo(b, txs, i, mature) == CanApplyAll(b, xs, 0)
  {
    if i > 0 {
      var ys := Effects(txs[..i - 1], mature);
      AppliedToEffects(b, txs, i - 1, mature, ys);
      EffectsGrow(txs, i - 1, mature);
      AppliedToStep(b, txs, i - 1, mature, ys, xs);
    } else {
      NoEffects(txs, mature);
    }
  }

  lemma AppliedToIsApplyAll(b: Table, txs: seq<Transaction>, i: nat, mature: Option<Transaction>)
    requires i <= |txs|
    ensures AppliedTo(b, txs, i, mature) == ApplyAll(b, Effects(txs[..i], mature))
    ensures AppliesTo(b, txs, i, mature) == CanApplyAll(b, Effects(txs[..i], mature), 0)
  {
    AppliedToEffects(b, txs, i, mature, Effects(txs[..i], mature));
  }

  lemma NoEffects(txs: seq<Transaction>, mature: Option<Transaction>)
    ensures Effects(txs[..0], mature) == []
  {
    assert txs[..0] == [];
  }

  lemma AppliedToStep(b: Table, txs: seq<Transaction>, i: nat, mature: Option<Transaction>,
                      xs: seq<Transaction>, ys: seq<Transaction>)
    requires i < |txs|
    requires ys == var effect := EffectAt(txs, i, mature); if effect.Some? then xs + [effect.value] else xs
    requires AppliedTo(b, txs, i, mature) == ApplyAll(b, xs)
    requires AppliesTo(b, txs, i, mature) == CanApplyAll(b, xs, 0)
    ensures AppliedTo(b, txs, i + 1, mature) == ApplyAll(b, ys)
    ensures AppliesTo(b, txs, i + 1, mature) == CanApplyAll(b, ys, 0)
  {
    var effect := EffectAt(txs, i, mature);
    if effect.Some? {
      ApplyOneMore(b, xs, effect.value, 0);
    }
  }

  /** The table after transactions i, i + 1, ... are undone, last one first. */
  ghost function UndoneTo(b: Table, txs: seq<Transaction>, i: nat, mature: Option<Transaction>): Table
    requires i <= |txs|
    decreases |txs| - i
  {
    if i == |txs| then b
    else
      var later, effect := UndoneTo(b, txs, i + 1, mature), EffectAt(txs, i, mature);
      if effect.Some? then UndoTx(later, effect.value) else later
  }

  ghost predicate UndoesTo(b: Table, txs: seq<Transaction>, i: nat, mature: Option<Transaction>)
    requires i <= |txs|
    decreases |txs| - i
  {
    i == |txs| ||
    var effect := EffectAt(txs, i, mature);
    && UndoesTo(b, txs, i + 1, mature)
    && (effect.Some? ==> CanUndo(UndoneTo(b, txs, i + 1, mature), effect.value))
  }

  lemma {:induction false} NotUndoesToLess(b: Table, txs: seq<Transaction>, i: nat, j: nat, mature: Option<Transaction>)
    requires i <= j <= |txs| && !UndoesTo(b, txs, j, mature)
    ensures !UndoesTo(b, txs, i, mature)
    decreases j
  {
    if i < j {
      NotUndoesToLess(b, txs, i, j - 1, mature);
    }
  }

  lemma UndoOneLess(b: Table, xs: seq<Transaction>, tx: Transaction)
    ensures CanUndoAll(b, xs + [tx]) <==> CanUndo(b, tx) && CanUndoAll(UndoTx(b, tx), xs)
    ensures UndoAll(b, xs + [tx]) == UndoAll(UndoTx(b, tx), xs)
  {
    assert (xs + [tx])[..|xs|] == xs;
  }

  lemma {:induction false} UndoneToIsUndoAll(b: Table, txs: seq<Transaction>, i: nat, mature: Option<Transaction>)
    requires i <= |txs|
    ensures UndoAll(UndoneTo(b, txs, i, mature), Effects(txs[..i], mature)) == UndoAll(b, Effects(txs[..|txs|], mature))
    ensures (UndoesTo(b, txs, i, mature) && CanUndoAll(UndoneTo(b, txs, i, mature), Effects(txs[..i], mature)))
            == CanUndoAll(b, Effects(txs[..|txs|], mature))
    decreases |txs| - i
  {
    if i < |txs| {
      UndoneToIsUndoAll(b, txs, i + 1, mature);
      EffectsGrow(txs, i, mature);
      var xs, effect := Effects(txs[..i], mature), EffectAt(txs, i, mature);
      if effect.Some? {
        UndoOneLess(UndoneTo(b, txs, i + 1, mature), xs, effect.value);
      }
    }
  }

  lemma WholeBlock(b: Table, txs: seq<Transaction>, mature: Lookup<Transaction>)
    ensures mature.Found? ==>
              && AppliesTo(b, txs, |txs|, mature.value) == CanApplyAll(b, Effects(txs, mature.value), 0)
              && AppliedTo(b, txs, |txs|, mature.value) == ApplyAll(b, Effects(txs, mature.value))
              && UndoesTo(b, txs, 0, mature.value) == CanUndoAll(b, Effects(txs, mature.value))
              && UndoneTo(b, txs, 0, mature.value) == UndoAll(b, Effects(txs, mature.value))
  {
    if mature.Found? {
      AppliedToIsApplyAll(b, txs, |txs|, mature.value);
      UndoneToIsUndoAll(b, txs, 0, mature.value);
      assert txs[..|txs|] == txs && txs[..0] == [];
    }
  }

  ghost predicate NoneIndexed(txs: seq<Transaction>, txIndex: map<TransactionID, Place>) {
    forall j :: 0 <= j < |txs| ==> ID(txs[j]) !in txIndex
  }

  lemma NoneIndexedIsDisjoint(txs: seq<Transaction>, txIndex: map<TransactionID, Place>)
    ensures NoneIndexed(txs, txIndex) == (TxIDs(txs) !! txIndex.Keys)
  {
    if TxIDs(txs) !! txIndex.Keys {
      forall j | 0 <= j < |txs| ensures ID(txs[j]) !in txIndex {
        assert ID(txs[j]) in TxIDs(txs);
      }
    }
  }

  // ----- the objects

  class BlockStorage {
    var blocks: Blocks

    constructor ()
      ensures blocks == map[]
    {
      blocks := map[];
    }

    method Store(block: Block, now: int)
      modifies this
      ensures blocks == old(blocks)[block.header.id := Stored(block, now)]
    {
      blocks := blocks[block.header.id := Stored(block, now)];
    }
  }

  class BalanceCache {
    const ledger: LedgerDisk
    const minBalance: int
    var cache: Table

    constructor (ledger: LedgerDisk, minBalance: int)
      ensures this.ledger == ledger && this.minBalance == minBalance && cache == map[]
    {
      this.ledger := ledger;
      this.minBalance := minBalance;
      cache := map[];
    }

    /** The table this view stands for. */
    ghost function View(): Table
      reads this, ledger
    {
      Commit(ledger.balances, cache)
    }

    method Reset()
      modifies this
      ensures cache == map[] && View() == ledger.balances
    {
      CommitEmpty(ledger.balances);
      cache := map[];
    }

    /** The cached balance, or else the ledger's. */
    method Get(key: PublicKey) returns (balance: int)
      ensures balance == Bal(View(), key)
    {
      if key in cache {
        balance := cache[key];
      } else {
        balance := ledger.GetPublicKeyBalance(key);
      }
    }

    method Set(key: PublicKey, balance: int)
      modifies this
      ensures View() == Put(old(View()), key, balance)
    {
      CommitPut(ledger.balances, cache, key, balance);
      cache := cache[key := balance];
    }

    method Apply(tx: Transaction) returns (ok: bool)
      modifies this
      ensures ok == CanApply(old(View()), tx, minBalance)
      ensures View() == (if ok then ApplyTx(old(View()), tx) else old(View()))
      ensures IsCoinbase(tx) ==> ok
      ensures !IsCoinbase(tx) ==>
                var left := Bal(old(View()), tx.body.from.value) - tx.body.amount - tx.body.fee;
                ok <==> left == 0 || (left > 0 && left >= minBalance)
    {
      if !IsCoinbase(tx) {
        var senderBalance := Get(tx.body.from.value);
        var totalSpent := tx.body.amount + tx.body.fee;
        if totalSpent > senderBalance {
          return false;
        }
        senderBalance := senderBalance - totalSpent;
        if senderBalance > 0 && senderBalance < minBalance {
          return false;
        }
        Set(tx.body.from.value, senderBalance);
      }
      var recipientBalance := Get(tx.body.to);
      Set(tx.body.to, recipientBalance + tx.body.amount);
      return true;
    }

    /** `ok` is false where the source panics. */
    method Undo(tx: Transaction) returns (ok: bool)
      modifies this
      ensures ok == CanUndo(old(View()), tx)
      ensures ok ==> View() == UndoTx(old(View()), tx)
      ensures tx.body.from != Some(tx.body.to) ==> (ok <==> Bal(old(View()), tx.body.to) >= tx.body.amount)
    {
      if !IsCoinbase(tx) {
        var senderBalance := Get(tx.body.from.value);
        var totalSpent := tx.body.amount + tx.body.fee;
        Set(tx.body.from.value, senderBalance + totalSpent);
      }
      var recipientBalance := Get(tx.body.to);
      if recipientBalance < tx.body.amount {
        return false;
      }
      Set(tx.body.to, recipientBalance - tx.body.amount);
      return true;
    }
  }

  class LedgerDisk {
    const prune: bool
    const store: BlockStorage
    var tip: Option<Tip>
    var branch: map<BlockID, BranchType>
    var heights: map<int, BlockID>
    var txIndex: map<TransactionID, Place>
    var keyIndex: set<KeyEntry>
    var balances: Table

    constructor (prune: bool, store: BlockStorage)
      ensures this.prune == prune && this.store == store
      ensures View() == Ledger(EMPTY_CORE, map[])
    {
      this.prune := prune;
      this.store := store;
      tip, branch, heights, txIndex, keyIndex, balances := None, map[], map[], map[], {}, map[];
    }

    ghost function View(): Ledger
      reads this
    {
      Ledger(Core(tip, heights, txIndex, keyIndex, balances), branch)
    }

    method GetPublicKeyBalance(key: PublicKey) returns (balance: int)
      ensures balance == Bal(balances, key)
    {
      if key !in balances {
        return 0;
      }
      balance := balances[key];
    }

    /** The sum of all public key balances. */
    method Balance() returns (total: int)
      ensures total == Total(balances)
    {
      total := 0;
      var rest := balances;
      while rest != map[]
        invariant total + Total(rest) == Total(balances)
        decreases |rest|
      {
        var key :| key in rest;
        TotalWithout(rest, key);
        total := total + rest[key];
        rest := rest - {key};
      }
    }

    function GetBranchType(id: BlockID): BranchType
      reads this
    {
      if id in branch then branch[id] else UNKNOWN
    }

    method SetBranchType(id: BlockID, branchType: BranchType)
      modifies this
      ensures View() == old(View()).(branch := old(branch)[id := branchType])
    {
      branch := branch[id := branchType];
    }

    /** The transaction whose effect on balances a transaction of the new block has, if any. */
    method TransactionToApply(tx: Transaction, height: int) returns (ok: bool, effect: Option<Transaction>)
      ensures ok == (IsCoinbase(tx) ==> MaturedAt(heights, store.blocks, height).Found?)
      ensures ok && IsCoinbase(tx) ==> effect == MaturedAt(heights, store.blocks, height).value
      ensures !IsCoinbase(tx) ==> effect == Some(tx)
    {
      effect := Some(tx);
      if IsCoinbase(tx) {
        effect := None;
        var h := height - COINBASE_MATURITY;
        if h >= 0 {
          if h !in heights || heights[h] !in store.blocks || store.blocks[heights[h]].block.txs == [] {
            return false, None;
          }
          effect := Some(store.blocks[heights[h]].block.txs[0]);
        }
      }
      return true, effect;
    }

    /** The effect of one transaction, if it has one. */
    method ApplyEffect(effect: Option<Transaction>, balanceCache: BalanceCache, ghost txs: seq<Transaction>,
            ghost i: nat, ghost mature: Option<Transaction>)
        returns (ok: bool)
      requires balanceCache.ledger == this && balanceCache.minBalance == 0
      requires i < |txs| && effect == EffectAt(txs, i, mature)
      requires AppliesTo(balances, txs, i, mature) && balanceCache.View() == AppliedTo(balances, txs, i, mature)
      modifies balanceCache
      ensures ok == AppliesTo(balances, txs, i + 1, mature)
      ensures ok ==> balanceCache.View() == AppliedTo(balances, txs, i + 1, mature)
    {
      ok := true;
      if effect.Some? {
        ok := balanceCache.Apply(effect.value);
      }
    }

    /** Check and apply the transactions of a block in the cache, in order. */
    method ApplyTransactions(block: Block, balanceCache: BalanceCache) returns (ok: bool, txIDs: seq<TransactionID>)
      requires block.txs != [] && IsCoinbase(block.txs[0])
      requires balanceCache.ledger == this && balanceCache.minBalance == 0 && balanceCache.cache == map[]
      modifies balanceCache
      ensures var mature, txs := MaturedAt(heights, store.blocks, block.header.height), block.txs;
              && ok == (mature.Found? && NoneIndexed(txs, txIndex) && AppliesTo(balances, txs, |txs|, mature.value))
              && (ok ==> txIDs == IDsOf(txs) && balanceCache.View() == AppliedTo(balances, txs, |txs|, mature.value))
    {
      var height, txs := block.header.height, block.txs;
      ghost var mature := MaturedAt(heights, store.blocks, height);
      ghost var known := if mature.Found? then mature.value else None;
      CommitEmpty(balances);
      txIDs := [];
      var i := 0;
      while i < |txs|
        invariant 0 <= i <= |txs|
        invariant i > 0 ==> mature.Found?
        invariant |txIDs| == i && forall j :: 0 <= j < i ==> txIDs[j] == ID(txs[j])
        invariant forall j :: 0 <= j < i ==> ID(txs[j]) !in txIndex
        invariant AppliesTo(balances, txs, i, known) && balanceCache.View() == AppliedTo(balances, txs, i, known)
      {
        var tx := txs[i];
        txIDs := txIDs + [ID(tx)];
        if ID(tx) in txIndex {
          return false, [];
        }
        var found, effect := TransactionToApply(tx, height);
        if !found {
          return false, [];
        }
        var applied := ApplyEffect(effect, balanceCache, txs, i, known);
        if !applied {
          NotAppliesToMore(balances, txs, i + 1, |txs|, known);
          return false, [];
        }
        i := i + 1;
      }
      return true, txIDs;
    }

    method ApplyBlock(block: Block, balanceCache: BalanceCache) returns (ok: bool, txIDs: seq<TransactionID>)
      requires block.txs != [] && IsCoinbase(block.txs[0])
      requires balanceCache.ledger == this && balanceCache.minBalance == 0 && balanceCache.cache == map[]
      modifies balanceCache
      ensures var mature := MaturedAt(heights, store.blocks, block.header.height);
              && ok == (mature.Found? && CanConnect(View().core, block, mature.value))
              && (ok ==> txIDs == IDsOf(block.txs)
                         && balanceCache.View() == ApplyAll(balances, Effects(block.txs, mature.value)))
    {
      ok, txIDs := ApplyTransactions(block, balanceCache);
      WholeBlock(balances, block.txs, MaturedAt(heights, store.blocks, block.header.height));
      NoneIndexedIsDisjoint(block.txs, txIndex);
    }

    /** The indices leaving or re-entering the window with a block at this height. */
    method PrunedIndices(height: int) returns (ok: bool, places: map<TransactionID, Place>, entries: set<KeyEntry>)
      ensures var pruned := PrunedAt(prune, heights, store.blocks, height);
              ok == pruned.Found? &&
              (ok ==> places == PlacesOf(pruned.value) && entries == EntriesOfBlock(pruned.value))
    {
      places, entries := map[], {};
      var h := height - WINDOW;
      if prune && h >= 0 {
        if h !in heights || heights[h] !in store.blocks {
          return false, map[], {};
        }
        places, entries := IndicesOf(store.blocks[heights[h]].block);
      }
      return true, places, entries;
    }

    /** A whole batch, written at once. */
    method Write(balances: Table, heights: map<int, BlockID>, branch: map<BlockID, BranchType>, tip: Tip,
            txIndex: map<TransactionID, Place>, keyIndex: set<KeyEntry>)
      modifies this
      ensures View() == Ledger(Core(Some(tip), heights, txIndex, keyIndex, balances), branch)
    {
      this.balances, this.heights, this.branch, this.tip := balances, heights, branch, Some(tip);
      this.txIndex, this.keyIndex := txIndex, keyIndex;
    }

    method ConnectBlock(block: Block) returns (r: Option<seq<TransactionID>>)
      requires block.txs != [] && IsCoinbase(block.txs[0])
      modifies this
      ensures match Connect(prune, old(View()), store.blocks, block)
              case None => r == None && View() == old(View())
              case Some(l) => r == Some(IDsOf(block.txs)) && View() == l
    {
      var id, height := block.header.id, block.header.height;
      if tip.Some? && tip.value.id != block.header.previous {
        return None;
      }
      var balanceCache := new BalanceCache(this, 0);
      var applied, txIDs := ApplyBlock(block, balanceCache);
      if !applied {
        return None;
      }
      var places, entries := IndicesOf(block);
      var ok, prunedPlaces, prunedEntries := PrunedIndices(height);
      if !ok {
        return None;
      }
      Write(Commit(balances, balanceCache.cache), heights[height := id], branch[id := MAIN], Tip(id, height),
          (txIndex + places) - prunedPlaces.Keys, (keyIndex + entries) - prunedEntries);
      return Some(txIDs);
    }

    /** Undo the transactions of a block in the cache, last one first. */
    method UndoTransactions(block: Block, balanceCache: BalanceCache) returns (ok: bool, txIDs: seq<TransactionID>)
      requires block.txs != [] && IsCoinbase(block.txs[0])
      requires balanceCache.ledger == this && balanceCache.cache == map[]
      modifies balanceCache
      ensures var mature, txs := MaturedAt(heights, store.blocks, block.header.height), block.txs;
              && ok == (mature.Found? && UndoesTo(balances, txs, 0, mature.value))
              && (ok ==> txIDs == IDsOf(txs) && balanceCache.View() == UndoneTo(balances, txs, 0, mature.value))
    {
      var height, txs := block.header.height, block.txs;
      ghost var mature := MaturedAt(heights, store.blocks, height);
      ghost var known := if mature.Found? then mature.value else None;
      CommitEmpty(balances);
      txIDs := [];
      var i := |txs|;
      while i > 0
        invariant 0 <= i <= |txs|
        invariant i == 0 ==> mature.Found?
        invariant |txIDs| == |txs| - i && forall j :: i <= j < |txs| ==> txIDs[j - i] == ID(txs[j])
        invariant UndoesTo(balances, txs, i, known) && balanceCache.View() == UndoneTo(balances, txs, i, known)
      {
        i := i - 1;
        var tx := txs[i];
        txIDs := [ID(tx)] + txIDs;
        var found, effect := TransactionToApply(tx, height);
        if !found {
          return false, [];
        }
        if effect.Some? {
          var undone := balanceCache.Undo(effect.value);
          if !undone {
            NotUndoesToLess(balances, txs, 0, i, known);
            return false, [];
          }
        }
      }
      return true, txIDs;
    }

    method UndoBlock(block: Block, balanceCache: BalanceCache) returns (ok: bool, txIDs: seq<TransactionID>)
      requires block.txs != [] && IsCoinbase(block.txs[0])
      requires balanceCache.ledger == this && balanceCache.cache == map[]
      modifies balanceCache
      ensures var mature := MaturedAt(heights, store.blocks, block.header.height);
              && ok == (mature.Found? && CanUndoAll(balances, Effects(block.txs, mature.value)))
              && (ok ==> txIDs == IDsOf(block.txs)
                         && balanceCache.View() == UndoAll(balances, Effects(block.txs, mature.value)))
    {
      ok, txIDs := UndoTransactions(block, balanceCache);
      WholeBlock(balances, block.txs, MaturedAt(heights, store.blocks, block.header.height));
    }

    method DisconnectBlock(block: Block) returns (r: Option<seq<TransactionID>>)
      requires block.txs != [] && IsCoinbase(block.txs[0])
      modifies this
      ensures match Disconnect(prune, old(View()), store.blocks, block)
              case None => r == None && View() == old(View())
              case Some(l) => r == Some(IDsOf(block.txs)) && View() == l
    {
      var id, height := block.header.id, block.header.height;
      if tip.None? || tip.value.id != id {
        return None;
      }
      var balanceCache := new BalanceCache(this, 0);
      var undone, txIDs := UndoBlock(block, balanceCache);
      if !undone {
        return None;
      }
      var places, entries := IndicesOf(block);
      var ok, prunedPlaces, prunedEntries := PrunedIndices(height);
      if !ok {
        return None;
      }
      Write(Commit(balances, balanceCache.cache), heights - {height}, branch[id := SIDE],
          Tip(block.header.previous, height - 1), (txIndex - places.Keys) + prunedPlaces,
          (keyIndex - entries) + prunedEntries);
      return Some(txIDs);
    }
  }

  /** The index entries that a block created, collected as pruning and restoring do. */
  method IndicesOf(block: Block) returns (places: map<TransactionID, Place>, entries: set<KeyEntry>)
    ensures places == PlacesOf(Some(block)) && entries == EntriesOfBlock(Some(block))
  {
    var height, txs := block.header.height, block.txs;
    places, entries := map[], {};
    var i := 0;
    while i < |txs|
      invariant 0 <= i <= |txs|
      invariant places == TxPlaces(txs[..i], height) && entries == KeyEntries(txs[..i], height)
    {
      PrefixGrows(txs, i, height, None);
      places := places[ID(txs[i]) := Place(height, i)];
      if txs[i].body.from.Some? {
        entries := entries + {KeyEntry(txs[i].body.from.value, height, i)};
      }
      entries := entries + {KeyEntry(txs[i].body.to, height, i)};
      i := i + 1;
    }
    assert txs[..i] == txs;
  }
}
