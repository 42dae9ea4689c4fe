/**
What becomes of waiting transactions when the main chain moves: everything that was confirmed on
the old chain, and then everything that was queued, less what the new chain confirms, in order.
*/
module Requeue {
  import opened Types
  import opened Rules
  import opened Balances
  import opened LedgerModel
  import opened LedgerDB
  import opened Queue
  import opened NodeModel

  // ----- leaving out

  /** A list without the transactions that have one of these IDs. */
  ghost function Except(q: seq<Transaction>, ids: set<TransactionID>): seq<Transaction> {
    if q == [] then []
    else
      var n := |q| - 1;
      Except(q[..n], ids) + (if ID(q[n]) in ids then [] else [q[n]])
  }

  lemma {:induction false} ExceptHas(q: seq<Transaction>, ids: set<TransactionID>, tx: Transaction)
    ensures tx in Except(q, ids) <==> tx in q && ID(tx) !in ids
  {
    if q != [] {
      var n := |q| - 1;
      ExceptHas(q[..n], ids, tx);
      assert q == q[..n] + [q[n]];
    }
  }

  lemma SubsequencePush(r: seq<Transaction>, q: seq<Transaction>, tx: Transaction)
    requires Subsequence(r, q)
    ensures Subsequence(r, q + [tx]) && Subsequence(r + [tx], q + [tx])
  {
    assert (q + [tx])[..|q|] == q && (r + [tx])[..|r|] == r;
  }

  lemma {:induction false} ExceptInOrder(q: seq<Transaction>, ids: set<TransactionID>)
    ensures Subsequence(Except(q, ids), q)
  {
    if q != [] {
      var n := |q| - 1;
      var r := Except(q[..n], ids);
      ExceptInOrder(q[..n], ids);
      SubsequencePush(r, q[..n], q[n]);
      assert q == q[..n] + [q[n]] && r + [] == r;
    }
  }

  lemma {:induction false} ExceptConcat(p: seq<Transaction>, q: seq<Transaction>, ids: set<TransactionID>)
    ensures Except(p + q, ids) == Except(p, ids) + Except(q, ids)
  {
    if q == [] {
      assert p + q == p;
    } else {
      var n := |q| - 1;
      ExceptConcat(p, q[..n], ids);
      assert (p + q)[..|p + q| - 1] == p + q[..n];
    }
  }

  lemma {:induction false} ExceptNone(q: seq<Transaction>, ids: set<TransactionID>)
    requires forall tx :: tx in q ==> ID(tx) !in ids
    ensures Except(q, ids) == q
  {
    if q != [] {
      var n := |q| - 1;
      assert q == q[..n] + [q[n]];
      ExceptNone(q[..n], ids);
    }
  }

  lemma {:induction false} ExceptAll(q: seq<Transaction>, ids: set<TransactionID>)
    requires forall tx :: tx in q ==> ID(tx) in ids
    ensures Except(q, ids) == []
  {
    if q != [] {
      var n := |q| - 1;
      assert q == q[..n] + [q[n]];
      ExceptAll(q[..n], ids);
    }
  }

  lemma ExceptPush(q: seq<Transaction>, tx: Transaction, ids: set<TransactionID>)
    ensures Except(q + [tx], ids) == Except(q, ids) + (if ID(tx) in ids then [] else [tx])
  {
    assert (q + [tx])[..|q|] == q;
  }

  lemma {:induction false} ExceptTwice(q: seq<Transaction>, a: set<TransactionID>, b: set<TransactionID>)
    ensures Except(Except(q, a), b) == Except(q, a + b)
  {
    if q != [] {
      var n := |q| - 1;
      var r := Except(q[..n], a);
      ExceptTwice(q[..n], a, b);
      ExceptPush(r, q[n], b);
      assert r + [] == r && Except(r, b) + [] == Except(r, b);
    }
  }

  /** One transaction out of the middle. */
  lemma ExceptMiddle(front: seq<Transaction>, tx: Transaction, back: seq<Transaction>, id: TransactionID)
    requires ID(tx) == id
    requires (forall t :: t in front ==> ID(t) != id) && forall t :: t in back ==> ID(t) != id
    ensures Except(front + [tx] + back, {id}) == front + back
  {
    ExceptConcat(front + [tx], back, {id});
    ExceptPush(front, tx, {id});
    ExceptNone(front, {id});
    ExceptNone(back, {id});
    assert front + [] == front;
  }

  /** Taking one transaction out of a list. */
  lemma WithoutIsExcept(q: seq<Transaction>, id: TransactionID)
    requires DistinctIDs(q)
    ensures Without(q, id) == Except(q, {id})
  {
    if k :| At(q, k, id) {
      WithoutAt(q, k, id);
      assert q == q[..k] + [q[k]] + q[k + 1..];
      OthersDiffer(q, k);
      ExceptMiddle(q[..k], q[k], q[k + 1..], id);
    } else {
      NoneAt(q, id);
      ExceptNone(q, {id});
    }
  }

  lemma OthersDiffer(q: seq<Transaction>, k: nat)
    requires DistinctIDs(q) && k < |q|
    ensures (forall t :: t in q[..k] ==> ID(t) != ID(q[k])) && forall t :: t in q[k + 1..] ==> ID(t) != ID(q[k])
  {
  }

  lemma NoneAt(q: seq<Transaction>, id: TransactionID)
    requires !exists k :: At(q, k, id)
    ensures forall tx :: tx in q ==> ID(tx) !in {id}
  {
    forall tx | tx in q ensures ID(tx) != id {
      var i :| 0 <= i < |q| && q[i] == tx;
      assert !At(q, i, id);
    }
  }

  ghost function SetOf(ids: seq<TransactionID>): set<TransactionID> {
    set id | id in ids
  }

  lemma {:induction false} RemovedIsExcept(q: seq<Transaction>, ids: seq<TransactionID>, n: nat)
    requires DistinctIDs(q) && n <= |ids|
    ensures Removed(q, ids, n) == Except(q, SetOf(ids[..n]))
  {
    if n == 0 {
      ExceptNone(q, SetOf(ids[..0]));
    } else {
      var r := Removed(q, ids, n - 1);
      RemovedIsExcept(q, ids, n - 1);
      RemovedDistinct(q, ids, n - 1);
      SetOfMore(ids, n - 1);
      WithoutExcept(q, SetOf(ids[..n - 1]), ids[n - 1], r);
    }
  }

  lemma RemovedDistinct(q: seq<Transaction>, ids: seq<TransactionID>, n: nat)
    requires n <= |ids| && DistinctIDs(q)
    ensures DistinctIDs(Removed(q, ids, n))
  {
    RemovedFacts(q, ids, n);
  }

  lemma WithoutExcept(q: seq<Transaction>, ids: set<TransactionID>, id: TransactionID, r: seq<Transaction>)
    requires r == Except(q, ids) && DistinctIDs(r)
    ensures Without(r, id) == Except(q, ids + {id})
  {
    WithoutIsExcept(r, id);
    ExceptTwice(q, ids, {id});
  }

  lemma SetOfMore(ids: seq<TransactionID>, n: nat)
    requires n < |ids|
    ensures SetOf(ids[..n + 1]) == SetOf(ids[..n]) + {ids[n]}
  {
    assert ids[..n + 1] == ids[..n] + [ids[n]];
  }

  // ----- what a chain confirms

  ghost function Confirmed(chain: seq<Block>): set<TransactionID> {
    set j, id | 0 <= j < |chain| && id in TxIDs(chain[j].txs) :: id
  }

  lemma UnconfirmedIs(tx: Transaction, chain: seq<Block>)
    ensures Unconfirmed(tx, chain) <==> ID(tx) !in Confirmed(chain)
  {
  }

  lemma ConfirmedMore(chain: seq<Block>, block: Block)
    ensures Confirmed(chain + [block]) == Confirmed(chain) + TxIDs(block.txs)
  {
    var longer := chain + [block];
    forall id ensures id in Confirmed(longer) <==> id in Confirmed(chain) || id in TxIDs(block.txs) {
      if j :| 0 <= j < |longer| && id in TxIDs(longer[j].txs) {
        assert j < |chain| ==> longer[j] == chain[j];
      }
      if j :| 0 <= j < |chain| && id in TxIDs(chain[j].txs) {
        assert longer[j] == chain[j];
      }
      assert longer[|chain|] == block;
    }
  }

  /** The payments that a chain confirms, in order. */
  ghost function Payments(chain: seq<Block>): seq<Transaction> {
    if chain == [] then []
    else
      var n := |chain| - 1;
      Payments(chain[..n]) + (if chain[n].txs == [] then [] else chain[n].txs[1..])
  }

  lemma PaymentsMore(chain: seq<Block>, block: Block)
    requires block.txs != []
    ensures Payments(chain + [block]) == Payments(chain) + block.txs[1..]
  {
    assert (chain + [block])[..|chain|] == chain;
  }

  lemma {:induction false} PaymentsConfirmed(chain: seq<Block>)
    ensures forall tx :: tx in Payments(chain) ==> ID(tx) in Confirmed(chain)
  {
    if chain != [] {
      var n := |chain| - 1;
      PaymentsConfirmed(chain[..n]);
      assert chain == chain[..n] + [chain[n]];
      ConfirmedMore(chain[..n], chain[n]);
      if chain[n].txs != [] {
        forall tx | tx in chain[n].txs[1..] ensures ID(tx) in TxIDs(chain[n].txs) {
          var i :| 1 <= i < |chain[n].txs| && chain[n].txs[i] == tx;
        }
      }
    }
  }

  // ----- everything there is

  /** All payments that a node knows of: those on its chain, and then those in its queue. */
  ghost function Known(chain: seq<Block>, q: seq<Transaction>): seq<Transaction> {
    Payments(chain) + q
  }

  /** Those that a chain does not confirm. */
  ghost function NotOn(known: seq<Transaction>, chain: seq<Block>): seq<Transaction> {
    Except(known, Confirmed(chain))
  }

  /** What reprocessing keeps of them for the block after the chain. */
  ghost function Requeued(b: Table, known: seq<Transaction>, chain: seq<Block>): seq<Transaction> {
    var left := NotOn(known, chain);
    Kept(b, left, |chain|, |left|)
  }

  /** What is left of them: as it is while more blocks follow, and reprocessed after the last one. */
  ghost function Left(b: Table, known: seq<Transaction>, chain: seq<Block>, more: bool): seq<Transaction> {
    if more then NotOn(known, chain) else Requeued(b, known, chain)
  }

  /** Every known payment that a chain does not confirm is left, in the order it is known in. */
  lemma NothingIsLost(known: seq<Transaction>, chain: seq<Block>, tx: Transaction)
    ensures tx in NotOn(known, chain) <==> tx in known && Unconfirmed(tx, chain)
    ensures Subsequence(NotOn(known, chain), known)
  {
    ExceptHas(known, Confirmed(chain), tx);
    ExceptInOrder(known, Confirmed(chain));
    UnconfirmedIs(tx, chain);
  }

  /** The queue is what its own chain leaves of all that is known. */
  lemma QueueIsNotOn(cfg: Config, chain: seq<Block>, q: seq<Transaction>)
    requires QueueOK(cfg, q, chain)
    ensures NotOn(Known(chain, q), chain) == q
  {
    var ids := Confirmed(chain);
    PaymentsConfirmed(chain);
    ExceptConcat(Payments(chain), q, ids);
    ExceptAll(Payments(chain), ids);
    forall tx | tx in q ensures ID(tx) !in ids {
      UnconfirmedIs(tx, chain);
    }
    ExceptNone(q, ids);
  }

  /** A longer chain leaves less of what a shorter one has left. */
  lemma NotOnMore(known: seq<Transaction>, chain: seq<Block>, block: Block)
    ensures NotOn(NotOn(known, chain), chain + [block]) == NotOn(known, chain + [block])
  {
    ExceptTwice(known, Confirmed(chain), Confirmed(chain + [block]));
    ConfirmedMore(chain, block);
    assert Confirmed(chain) + Confirmed(chain + [block]) == Confirmed(chain + [block]);
  }

  lemma RequeuedMore(b: Table, known: seq<Transaction>, chain: seq<Block>, block: Block)
    ensures Requeued(b, NotOn(known, chain), chain + [block]) == Requeued(b, known, chain + [block])
  {
    NotOnMore(known, chain, block);
  }

  // ----- one block up, one block down

  /** Removing a block's payments from the queue is leaving out what the longer chain confirms. */
  lemma RemovedIsNotOn(cfg: Config, q: seq<Transaction>, chain: seq<Block>, block: Block)
    requires QueueOK(cfg, q, chain) && DistinctIDs(q) && CheckTransactions(block.txs)
    ensures var ids := IDsOf(block.txs)[1..]; Removed(q, ids, |ids|) == NotOn(q, chain + [block])
  {
    var ids := IDsOf(block.txs)[1..];
    var paid := SetOf(ids);
    RemovedIsExcept(q, ids, |ids|);
    assert ids[..|ids|] == ids;
    forall tx | tx in q ensures ID(tx) in paid <==> ID(tx) in Confirmed(chain + [block]) {
      PaidIffConfirmed(cfg, tx, chain, block);
    }
    ExceptSame(q, paid, Confirmed(chain + [block]));
  }

  /** The queue after a block is connected, whether or not more blocks follow. */
  lemma QueueUp(cfg: Config, b: Table, q: seq<Transaction>, chain: seq<Block>, block: Block, ids: seq<TransactionID>,
          more: bool)
    requires QueueOK(cfg, q, chain) && DistinctIDs(q) && CheckTransactions(block.txs) && ids == IDsOf(block.txs)[1..]
    ensures var left := Left(b, q, chain + [block], more);
            && AfterBatch(b, q, ids, |chain|, more) == left && QueueOK(cfg, left, chain + [block])
            && (!more ==> Ready(b, left, |chain| + 1))
  {
    QueueConnected(cfg, b, q, chain, block);
    RemovedIsNotOn(cfg, q, chain, block);
  }

  lemma PaidIffConfirmed(cfg: Config, tx: Transaction, chain: seq<Block>, block: Block)
    requires Queueable(cfg, tx) && Unconfirmed(tx, chain) && CheckTransactions(block.txs)
    ensures var ids := IDsOf(block.txs)[1..];
            ID(tx) in SetOf(ids) <==> ID(tx) in Confirmed(chain + [block])
  {
    var ids := IDsOf(block.txs)[1..];
    ConfirmedMore(chain, block);
    UnconfirmedIs(tx, chain);
    if ID(tx) in ids {
      var i :| 0 <= i < |ids| && ids[i] == ID(tx);
      assert ID(block.txs[i + 1]) == ID(tx);
    } else {
      NotTheCoinbase(tx, block.txs);
    }
  }

  lemma {:induction false} ExceptSame(q: seq<Transaction>, a: set<TransactionID>, b: set<TransactionID>)
    requires forall tx :: tx in q ==> (ID(tx) in a <==> ID(tx) in b)
    ensures Except(q, a) == Except(q, b)
  {
    if q != [] {
      var n := |q| - 1;
      assert q == q[..n] + [q[n]];
      ExceptSame(q[..n], a, b);
    }
  }

  /** No two of these transactions have the same ID, and the queue has none of them. */
  ghost predicate Apart(q: seq<Transaction>, txs: seq<Transaction>) {
    DistinctIDs(txs) && forall tx, j :: tx in q && 0 <= j < |txs| ==> ID(tx) != ID(txs[j])
  }

  lemma OneInFront(q: seq<Transaction>, txs: seq<Transaction>, i: nat, rest: seq<Transaction>)
    requires i < |txs| && Apart(q, txs) && rest == txs[i + 1..] + q
    ensures [txs[i]] + Without(rest, ID(txs[i])) == txs[i..] + q
  {
    forall k | 0 <= k < |rest| ensures ID(rest[k]) != ID(txs[i]) {
      if k < |txs| - i - 1 {
        assert rest[k] == txs[i + 1 + k];
      } else {
        assert rest[k] in q;
      }
    }
    WithoutAbsent(rest, ID(txs[i]));
    assert txs[i..] == [txs[i]] + txs[i + 1..];
  }

  /** Pushing a block's payments to the front puts them before the queue, which has none of them. */
  lemma {:induction false} PushedIsConcat(q: seq<Transaction>, txs: seq<Transaction>, i: nat)
    requires i <= |txs| && Apart(q, txs)
    ensures PushedFront(q, txs, i) == txs[i..] + q
    decreases |txs| - i
  {
    if i == |txs| {
      assert txs[i..] == [];
    } else {
      PushedIsConcat(q, txs, i + 1);
      OneInFront(q, txs, i, txs[i + 1..] + q);
    }
  }

  lemma PaymentsInFront(cfg: Config, q: seq<Transaction>, before: seq<Block>, block: Block)
    requires QueueOK(cfg, q, before + [block]) && CheckTransactions(block.txs)
    ensures PushedFront(q, block.txs[1..], 0) == block.txs[1..] + q
  {
    var txs := block.txs[1..];
    forall tx, j | tx in q && 0 <= j < |txs| ensures ID(tx) != ID(txs[j]) {
      assert (before + [block])[|before|] == block;
      assert ID(block.txs[j + 1]) in TxIDs(block.txs);
    }
    PushedIsConcat(q, txs, 0);
    assert txs[0..] == txs;
  }

  /** So a disconnection forgets nothing and changes no order. */
  lemma KnownStays(before: seq<Block>, block: Block, q: seq<Transaction>)
    requires block.txs != []
    ensures Known(before, block.txs[1..] + q) == Known(before + [block], q)
  {
    PaymentsMore(before, block);
  }

  // ----- a reorganisation that fails

  /** The transactions after going over to another chain and back. */
  ghost function ThereAndBack(b: Table, main: seq<Block>, q: seq<Transaction>, there: seq<Block>): seq<Transaction> {
    Requeued(b, Known(there, NotOn(Known(main, q), there)), main)
  }

  /**
  The queue after a block is dealt with, successfully or not: as before, if the chain stays; what the
  new chain leaves of all that was known, reprocessed; or what is left after going some way up the
  other branch and back.
  */
  ghost predicate QueueAfter(q: seq<Transaction>, b: Table, before: seq<Transaction>, main: seq<Block>,
          chain: seq<Block>, side: seq<Block>)
  {
    if chain != main then q == Requeued(b, Known(main, before), chain)
    else q == before || exists m :: 0 <= m <= |side| && q == ThereAndBack(b, main, before, side[..m])
  }

  lemma CameBack(q: seq<Transaction>, b: Table, before: seq<Transaction>, main: seq<Block>, side: seq<Block>, m: nat)
    requires m <= |side| && q == ThereAndBack(b, main, before, side[..m])
    ensures QueueAfter(q, b, before, main, main, side)
  {
  }

  /** Every queued payment is handed to reprocessing again, as it was or as the other chain had it. */
  lemma NothingIsLostThereAndBack(cfg: Config, main: seq<Block>, q: seq<Transaction>, there: seq<Block>,
          tx: Transaction)
    requires QueueOK(cfg, q, main) && Shaped(there) && tx in q
    ensures exists t :: t in NotOn(Known(there, NotOn(Known(main, q), there)), main) && ID(t) == ID(tx)
  {
    var left := NotOn(Known(main, q), there);
    var handed := NotOn(Known(there, left), main);
    assert tx in Known(main, q);
    NothingIsLost(Known(main, q), there, tx);
    if Unconfirmed(tx, there) {
      assert tx in Known(there, left);
      NothingIsLost(Known(there, left), main, tx);
      assert tx in handed;
    } else {
      var t := AsPaid(there, tx);
      assert t in Known(there, left) && Unconfirmed(t, main);
      NothingIsLost(Known(there, left), main, t);
      assert t in handed;
    }
  }

  /** A payment whose ID a chain confirms is among the chain's payments. */
  lemma {:induction false} AsPaid(chain: seq<Block>, tx: Transaction) returns (t: Transaction)
    requires Shaped(chain) && !Unconfirmed(tx, chain) && !IsCoinbase(tx)
    ensures t in Payments(chain) && ID(t) == ID(tx)
  {
    var n := |chain| - 1;
    assert chain == chain[..n] + [chain[n]];
    ShapedPrefix(chain, n);
    if !Unconfirmed(tx, chain[..n]) {
      t := AsPaid(chain[..n], tx);
    } else {
      UnconfirmedIs(tx, chain);
      UnconfirmedIs(tx, chain[..n]);
      ConfirmedMore(chain[..n], chain[n]);
      assert SaneAt(chain, n);
      var i :| 0 <= i < |chain[n].txs| && ID(chain[n].txs[i]) == ID(tx);
      t := chain[n].txs[i];
      assert chain[n].txs[1..][i - 1] == t;
    }
  }
}
