/**
Public key balances, the effect of a transaction on them and its undoing.

A balance table holds no zero entries, as the database does.  The overlay cache used while
connecting, disconnecting and queueing is related to the table it would commit.
*/
module Balances {
  import opened Types

  type Table = map<PublicKey, int>

  function Bal(b: Table, key: PublicKey): int {
    if key in b then b[key] else 0
  }

  /** Every recorded balance is positive: zero balances are deleted. */
  ghost predicate Normal(b: Table) {
    forall k :: k in b ==> b[k] > 0
  }

  function Put(b: Table, key: PublicKey, balance: int): Table {
    if balance == 0 then b - {key} else b[key := balance]
  }

  lemma NormalTablesAgree(a: Table, b: Table)
    requires Normal(a) && Normal(b)
    requires forall k :: Bal(a, k) == Bal(b, k)
    ensures a == b
  {
    forall k ensures k in a <==> k in b {
      assert Bal(a, k) == Bal(b, k);
    }
    forall k | k in a ensures a[k] == b[k] {
      assert Bal(a, k) == Bal(b, k);
    }
  }

  /** A transaction as far as balances are concerned. */
  predicate Movable(tx: Transaction) {
    tx.body.amount > 0 && tx.body.fee >= 0 && tx.body.from != Some(tx.body.to)
  }

  /** The sender can pay, and is left with nothing or at least `min`. */
  predicate CanApply(b: Table, tx: Transaction, min: int) {
    IsCoinbase(tx) ||
    var left := Bal(b, tx.body.from.value) - (tx.body.amount + tx.body.fee);
    left >= 0 && !(0 < left < min)
  }

  function ApplyTx(b: Table, tx: Transaction): Table {
    var paid := if IsCoinbase(tx) then b
                else Put(b, tx.body.from.value, Bal(b, tx.body.from.value) - (tx.body.amount + tx.body.fee));
    Put(paid, tx.body.to, Bal(paid, tx.body.to) + tx.body.amount)
  }

  /** False is the "Recipient balance went negative" panic. */
  predicate CanUndo(b: Table, tx: Transaction) {
    Bal(Refunded(b, tx), tx.body.to) >= tx.body.amount
  }

  function Refunded(b: Table, tx: Transaction): Table {
    if IsCoinbase(tx) then b
    else Put(b, tx.body.from.value, Bal(b, tx.body.from.value) + (tx.body.amount + tx.body.fee))
  }

  function UndoTx(b: Table, tx: Transaction): Table {
    var back := Refunded(b, tx);
    Put(back, tx.body.to, Bal(back, tx.body.to) - tx.body.amount)
  }

  /** A payment is possible exactly if it leaves the sender with nothing, or with something that is enough. */
  lemma PossibleWhen(b: Table, tx: Transaction, min: int)
    ensures IsCoinbase(tx) ==> CanApply(b, tx, min)
    ensures !IsCoinbase(tx) ==>
              var left := Bal(b, tx.body.from.value) - tx.body.amount - tx.body.fee;
              CanApply(b, tx, min) <==> left == 0 || (left > 0 && left >= min)
  {
  }

  /** What a transaction does to one key's balance: the recipient gets the amount, the sender pays it and the fee. */
  function Delta(tx: Transaction, key: PublicKey): int {
    (if tx.body.to == key then tx.body.amount else 0)
    - (if tx.body.from == Some(key) then tx.body.amount + tx.body.fee else 0)
  }

  lemma BalApply(b: Table, tx: Transaction, key: PublicKey)
    requires tx.body.from != Some(tx.body.to)
    ensures Bal(ApplyTx(b, tx), key) == Bal(b, key) + Delta(tx, key)
  {
  }

  /** Undoing is possible exactly if the recipient still has the amount, and moves everything back. */
  lemma BalUndo(b: Table, tx: Transaction, key: PublicKey)
    requires tx.body.from != Some(tx.body.to)
    ensures CanUndo(b, tx) <==> Bal(b, tx.body.to) >= tx.body.amount
    ensures Bal(UndoTx(b, tx), key) == Bal(b, key) - Delta(tx, key)
  {
  }

  lemma ApplyKeepsNormal(b: Table, tx: Transaction, min: int)
    requires Normal(b) && Movable(tx) && CanApply(b, tx, min)
    ensures Normal(ApplyTx(b, tx))
  {
  }

  /** Undoing a transaction just applied gives back the table, and never panics. */
  lemma UndoInvertsApply(b: Table, tx: Transaction, min: int)
    requires Normal(b) && Movable(tx) && CanApply(b, tx, min)
    ensures CanUndo(ApplyTx(b, tx), tx)
    ensures UndoTx(ApplyTx(b, tx), tx) == b
  {
    var a := ApplyTx(b, tx);
    ApplyKeepsNormal(b, tx, min);
    var u := UndoTx(a, tx);
    forall k ensures Bal(u, k) == Bal(b, k) {
      if k == tx.body.to {
      } else if Some(k) == tx.body.from {
      }
    }
    NormalTablesAgree(u, b);
  }

  // ----- sequences of transactions

  /** All transactions can be applied, in order. */
  predicate CanApplyAll(b: Table, txs: seq<Transaction>, min: int) {
    txs == [] ||
    var n := |txs| - 1;
    CanApplyAll(b, txs[..n], min) && CanApply(ApplyAll(b, txs[..n]), txs[n], min)
  }

  function ApplyAll(b: Table, txs: seq<Transaction>): Table {
    if txs == [] then b
    else
      var n := |txs| - 1;
      ApplyTx(ApplyAll(b, txs[..n]), txs[n])
  }

  /** All transactions can be undone, last one first. */
  predicate CanUndoAll(b: Table, txs: seq<Transaction>)
    decreases |txs|
  {
    txs == [] ||
    var n := |txs| - 1;
    CanUndo(b, txs[n]) && CanUndoAll(UndoTx(b, txs[n]), txs[..n])
  }

  function UndoAll(b: Table, txs: seq<Transaction>): Table
    decreases |txs|
  {
    if txs == [] then b
    else
      var n := |txs| - 1;
      UndoAll(UndoTx(b, txs[n]), txs[..n])
  }

  ghost predicate AllMovable(txs: seq<Transaction>) {
    forall i :: 0 <= i < |txs| ==> Movable(txs[i])
  }

  lemma {:induction false} ApplyAllKeepsNormal(b: Table, txs: seq<Transaction>, min: int)
    requires Normal(b) && AllMovable(txs) && CanApplyAll(b, txs, min)
    ensures Normal(ApplyAll(b, txs))
  {
    if txs != [] {
      var n := |txs| - 1;
      ApplyAllKeepsNormal(b, txs[..n], min);
      ApplyKeepsNormal(ApplyAll(b, txs[..n]), txs[n], min);
    }
  }

  /** A whole block's worth of transactions is undone exactly. */
  lemma {:induction false} UndoAllInvertsApplyAll(b: Table, txs: seq<Transaction>, min: int)
    requires Normal(b) && AllMovable(txs) && CanApplyAll(b, txs, min)
    ensures CanUndoAll(ApplyAll(b, txs), txs)
    ensures UndoAll(ApplyAll(b, txs), txs) == b
  {
    if txs != [] {
      var n := |txs| - 1;
      ApplyAllKeepsNormal(b, txs[..n], min);
      UndoInvertsApply(ApplyAll(b, txs[..n]), txs[n], min);
      UndoAllInvertsApplyAll(b, txs[..n], min);
    }
  }

  /** `a` gives every key at least what `b` gives it. */
  ghost predicate Covers(a: Table, b: Table) {
    forall k :: Bal(a, k) >= Bal(b, k)
  }

  lemma ApplyKeepsCovers(a: Table, b: Table, tx: Transaction, min: int)
    requires Covers(a, b) && CanApply(b, tx, min)
    ensures CanApply(a, tx, 0)
    ensures Covers(ApplyTx(a, tx), ApplyTx(b, tx))
  {
    var x, y := ApplyTx(a, tx), ApplyTx(b, tx);
    forall k ensures Bal(x, k) >= Bal(y, k) {
      assert Bal(a, k) >= Bal(b, k);
      if !IsCoinbase(tx) {
        assert Bal(a, tx.body.from.value) >= Bal(b, tx.body.from.value);
      }
      assert Bal(a, tx.body.to) >= Bal(b, tx.body.to);
    }
  }

  /** What applies to a poorer table under a stricter minimum applies to a richer one. */
  lemma {:induction false} ApplyAllKeepsCovers(a: Table, b: Table, txs: seq<Transaction>, min: int)
    requires Covers(a, b) && CanApplyAll(b, txs, min)
    ensures CanApplyAll(a, txs, 0)
    ensures Covers(ApplyAll(a, txs), ApplyAll(b, txs))
  {
    if txs != [] {
      var n := |txs| - 1;
      ApplyAllKeepsCovers(a, b, txs[..n], min);
      ApplyKeepsCovers(ApplyAll(a, txs[..n]), ApplyAll(b, txs[..n]), txs[n], min);
    }
  }

  lemma {:induction false} CanApplyPrefix(b: Table, txs: seq<Transaction>, n: nat, min: int)
    requires n <= |txs| && CanApplyAll(b, txs, min)
    ensures CanApplyAll(b, txs[..n], min)
  {
    if n < |txs| {
      var m := |txs| - 1;
      CanApplyPrefix(b, txs[..m], n, min);
      assert txs[..m][..n] == txs[..n];
    } else {
      assert txs[..n] == txs;
    }
  }

  lemma {:induction false} ApplyAllAppend(b: Table, xs: seq<Transaction>, ys: seq<Transaction>, min: int)
    ensures ApplyAll(b, xs + ys) == ApplyAll(ApplyAll(b, xs), ys)
    ensures CanApplyAll(b, xs + ys, min) <==> CanApplyAll(b, xs, min) && CanApplyAll(ApplyAll(b, xs), ys, min)
  {
    if ys == [] {
      assert xs + ys == xs;
    } else {
      var n := |ys| - 1;
      var all := xs + ys;
      assert all[..|all| - 1] == xs + ys[..n];
      assert all[|all| - 1] == ys[n];
      ApplyAllAppend(b, xs, ys[..n], min);
    }
  }

  // ----- the sum of all balances

  ghost function Total(b: Table): int {
    if b == map[] then 0
    else
      var k :| k in b;
      b[k] + Total(b - {k})
  }

  lemma {:induction false} TotalWithout(b: Table, key: PublicKey)
    requires key in b
    ensures Total(b) == b[key] + Total(b - {key})
    decreases |b|
  {
    var k :| k in b && Total(b) == b[k] + Total(b - {k});
    if k != key {
      TotalWithout(b - {k}, key);
      TotalWithout(b - {key}, k);
      assert b - {k} - {key} == b - {key} - {k};
    }
  }

  lemma TotalPut(b: Table, key: PublicKey, balance: int)
    ensures Total(Put(b, key, balance)) == Total(b) - Bal(b, key) + balance
  {
    var p := Put(b, key, balance);
    if key in b {
      TotalWithout(b, key);
    } else {
      assert b - {key} == b;
    }
    if balance != 0 {
      TotalWithout(p, key);
      assert p - {key} == b - {key};
    }
  }

  /** A transfer moves the amount and destroys the fee; a coinbase creates its amount. */
  lemma TotalApply(b: Table, tx: Transaction)
    ensures Total(ApplyTx(b, tx)) == Total(b) + (if IsCoinbase(tx) then tx.body.amount else -tx.body.fee)
  {
    var paid := b;
    if !IsCoinbase(tx) {
      var left := Bal(b, tx.body.from.value) - (tx.body.amount + tx.body.fee);
      TotalPut(b, tx.body.from.value, left);
      paid := Put(b, tx.body.from.value, left);
    }
    TotalPut(paid, tx.body.to, Bal(paid, tx.body.to) + tx.body.amount);
  }

  lemma {:induction false} TotalCoversEach(b: Table, key: PublicKey)
    requires Normal(b)
    ensures 0 <= Bal(b, key) <= Total(b)
    decreases |b|
  {
    if b != map[] {
      var k :| k in b;
      TotalWithout(b, k);
      if key != k {
        TotalCoversEach(b - {k}, key);
        assert Bal(b - {k}, key) == Bal(b, key);
      } else {
        TotalCoversEach(b - {k}, key);
      }
    }
  }

  // ----- the overlay cache

  /** The table after the cached balances are written over it. */
  function Commit(base: Table, cache: Table): Table {
    (base - cache.Keys) + map k | k in cache && cache[k] != 0 :: cache[k]
  }

  lemma CommitPut(base: Table, cache: Table, key: PublicKey, balance: int)
    ensures Commit(base, cache[key := balance]) == Put(Commit(base, cache), key, balance)
  {
    var x, y := Commit(base, cache[key := balance]), Put(Commit(base, cache), key, balance);
    assert cache[key := balance].Keys == cache.Keys + {key};
    assert x.Keys == y.Keys;
  }

  lemma CommitEmpty(base: Table)
    ensures Commit(base, map[]) == base
  {
  }
}
