/**
The queue of transactions waiting to be confirmed: a list, a map by ID and an unconfirmed
balance view that must equal a replay of the list over the ledger.
*/
module Queue {
  import opened Types
  import opened Rules
  import opened Balances
  import opened LedgerDB

  const MIN_BALANCE := MIN_AMOUNT_CRUZBITS + MIN_FEE_CRUZBITS

  // ----- the list, as a value

  ghost predicate DistinctIDs(q: seq<Transaction>) {
    forall i, j :: 0 <= i < j < |q| ==> ID(q[i]) != ID(q[j])
  }

  ghost predicate At(q: seq<Transaction>, k: int, id: TransactionID) {
    0 <= k < |q| && ID(q[k]) == id
  }

  /** The list without the transaction with this ID. */
  ghost function Without(q: seq<Transaction>, id: TransactionID): seq<Transaction> {
    if exists k :: At(q, k, id) then
      var k :| At(q, k, id);
      q[..k] + q[k + 1..]
    else q
  }

  lemma WithoutAt(q: seq<Transaction>, k: nat, id: TransactionID)
    requires DistinctIDs(q) && At(q, k, id)
    ensures Without(q, id) == q[..k] + q[k + 1..]
  {
  }

  lemma WithoutFacts(q: seq<Transaction>, id: TransactionID)
    requires DistinctIDs(q)
    ensures DistinctIDs(Without(q, id))
    ensures forall tx :: tx in Without(q, id) <==> tx in q && ID(tx) != id
  {
    if k :| At(q, k, id) {
      WithoutAt(q, k, id);
      var r := q[..k] + q[k + 1..];
      forall tx ensures tx in r <==> tx in q && ID(tx) != id {
        if tx in q && ID(tx) != id {
          var i :| 0 <= i < |q| && q[i] == tx;
          assert r[if i < k then i else i - 1] == tx;
        }
      }
    } else {
      forall tx | tx in q ensures ID(tx) != id {
        var i :| 0 <= i < |q| && q[i] == tx;
        assert !At(q, i, id);
      }
    }
  }

  /** Worth keeping for a block at this height: timely, and paying the minimum fee and amount. */
  predicate Eligible(tx: Transaction, height: nat) {
    && CheckTransactionSeries(tx, height)
    && IsMature(tx, height) && !IsExpired(tx, height)
    && tx.body.fee >= MIN_FEE_CRUZBITS && tx.body.amount >= MIN_AMOUNT_CRUZBITS
  }

  /** What reprocessing keeps of the first n transactions, given the confirmed balances. */
  function Kept(b: Table, q: seq<Transaction>, height: nat, n: nat): seq<Transaction>
    requires n <= |q|
  {
    if n == 0 then []
    else
      var kept := Kept(b, q, height, n - 1);
      if Eligible(q[n - 1], height) && CanApply(ApplyAll(b, kept), q[n - 1], MIN_BALANCE)
      then kept + [q[n - 1]] else kept
  }

  /** One step of reprocessing: position k of the list holds transaction n of the copy. */
  lemma KeptStep(b: Table, tmp: seq<Transaction>, height: nat, n: nat,
                 before: seq<Transaction>, k: nat, after: seq<Transaction>, good: bool)
    requires n < |tmp| && |before| - k == |tmp| - n
    requires before[..k] == Kept(b, tmp, height, n)
    requires before[k..] == tmp[n..]
    requires good == (Eligible(before[k], height) && CanApply(ApplyAll(b, before[..k]), before[k], MIN_BALANCE))
    requires after == if good then before else before[..k] + before[k + 1..]
    ensures var k' := if good then k + 1 else k;
            && |after| - k' == |tmp| - (n + 1)
            && after[..k'] == Kept(b, tmp, height, n + 1)
            && after[k'..] == tmp[n + 1..]
  {
    assert before[k] == before[k..][0] == tmp[n];
    assert before[k + 1..] == before[k..][1..] && tmp[n + 1..] == tmp[n..][1..];
    assert before[..k + 1] == before[..k] + [before[k]];
  }

  /** Every queued transaction could be confirmed, in order, in a block at this height. */
  ghost predicate Ready(b: Table, q: seq<Transaction>, height: nat) {
    && CanApplyAll(b, q, MIN_BALANCE)
    && forall i :: 0 <= i < |q| ==> Eligible(q[i], height)
  }

  lemma ReadyOneMore(b: Table, q: seq<Transaction>, tx: Transaction, height: nat)
    requires Ready(b, q, height) && Eligible(tx, height) && CanApply(ApplyAll(b, q), tx, MIN_BALANCE)
    ensures Ready(b, q + [tx], height)
  {
    ApplyOneMore(b, q, tx, MIN_BALANCE);
  }

  lemma {:induction false} KeptIsReady(b: Table, q: seq<Transaction>, height: nat, n: nat)
    requires n <= |q|
    ensures Ready(b, Kept(b, q, height, n), height)
  {
    if n > 0 {
      KeptIsReady(b, q, height, n - 1);
      var kept, tx := Kept(b, q, height, n - 1), q[n - 1];
      if Eligible(tx, height) && CanApply(ApplyAll(b, kept), tx, MIN_BALANCE) {
        ReadyOneMore(b, kept, tx, height);
      }
    }
  }

  /** Some transactions of a list, in the order of the list. */
  ghost predicate Subsequence(r: seq<Transaction>, q: seq<Transaction>)
    decreases |q|
  {
    if r == [] then true
    else if q == [] then false
    else
      var m, n := |r| - 1, |q| - 1;
      Subsequence(r, q[..n]) || (r[m] == q[n] && Subsequence(r[..m], q[..n]))
  }

  lemma {:induction false} SubsequenceHas(r: seq<Transaction>, q: seq<Transaction>, tx: Transaction)
    requires Subsequence(r, q) && tx in r
    ensures tx in q
    decreases |q|
  {
    var m, n := |r| - 1, |q| - 1;
    if Subsequence(r, q[..n]) {
      SubsequenceHas(r, q[..n], tx);
    } else if tx != r[m] {
      SubsequenceHas(r[..m], q[..n], tx);
    }
  }

  /** Reprocessing only ever drops transactions, and keeps the order of the rest. */
  lemma {:induction false} KeptIsPart(b: Table, q: seq<Transaction>, height: nat, n: nat)
    requires n <= |q|
    ensures Subsequence(Kept(b, q, height, n), q[..n])
    ensures DistinctIDs(q) ==> DistinctIDs(Kept(b, q, height, n))
  {
    if n > 0 {
      KeptIsPart(b, q, height, n - 1);
      var before, after := Kept(b, q, height, n - 1), Kept(b, q, height, n);
      assert q[..n][..n - 1] == q[..n - 1];
      if after != before {
        assert after[..|before|] == before;
        NewerDiffers(before, q, n - 1);
      }
    }
  }

  lemma NewerDiffers(before: seq<Transaction>, q: seq<Transaction>, n: nat)
    requires n < |q| && Subsequence(before, q[..n])
    ensures DistinctIDs(q) && DistinctIDs(before) ==> DistinctIDs(before + [q[n]])
  {
    if DistinctIDs(q) && DistinctIDs(before) {
      forall k | 0 <= k < |before| ensures ID(before[k]) != ID(q[n]) {
        SubsequenceHas(before, q[..n], before[k]);
      }
    }
  }

  /** A transaction is kept exactly if it is eligible, and its sender can pay after those kept before it. */
  lemma {:induction false} KeptExactly(b: Table, q: seq<Transaction>, height: nat, n: nat, i: nat)
    requires i < n <= |q| && DistinctIDs(q)
    ensures q[i] in Kept(b, q, height, n) <==>
              Eligible(q[i], height) && CanApply(ApplyAll(b, Kept(b, q, height, i)), q[i], MIN_BALANCE)
  {
    if i < n - 1 {
      KeptExactly(b, q, height, n - 1, i);
      assert q[i] != q[n - 1];
    } else {
      NotYetKept(b, q, height, i);
    }
  }

  lemma NotYetKept(b: Table, q: seq<Transaction>, height: nat, i: nat)
    requires i < |q| && DistinctIDs(q)
    ensures q[i] !in Kept(b, q, height, i)
  {
    KeptIsPart(b, q, height, i);
    if q[i] in Kept(b, q, height, i) {
      SubsequenceHas(Kept(b, q, height, i), q[..i], q[i]);
    }
  }

  /** A queue that is ready already loses nothing. */
  lemma {:induction false} ReadyIsKept(b: Table, q: seq<Transaction>, height: nat, n: nat)
    requires n <= |q| && Ready(b, q, height)
    ensures Kept(b, q, height, n) == q[..n]
  {
    if n > 0 {
      ReadyIsKept(b, q, height, n - 1);
      assert q[..n] == q[..n - 1] + [q[n - 1]];
      CanApplyPrefix(b, q, n, MIN_BALANCE);
      ApplyOneMore(b, q[..n - 1], q[n - 1], MIN_BALANCE);
    }
  }

  /** The list after the transactions from position i on are pushed to the front, last one first. */
  ghost function PushedFront(q: seq<Transaction>, txs: seq<Transaction>, i: nat): seq<Transaction>
    requires i <= |txs|
    decreases |txs| - i
  {
    if i == |txs| then q else [txs[i]] + Without(PushedFront(q, txs, i + 1), ID(txs[i]))
  }

  lemma PushedStep(q: seq<Transaction>, txs: seq<Transaction>, i: nat, rest: seq<Transaction>)
    requires i < |txs| && rest == PushedFront(q, txs, i + 1)
    ensures PushedFront(q, txs, i) == [txs[i]] + Without(rest, ID(txs[i]))
  {
  }

  lemma {:induction false} PushedFrontFacts(q: seq<Transaction>, txs: seq<Transaction>, i: nat)
    requires i <= |txs| && DistinctIDs(q)
    ensures DistinctIDs(PushedFront(q, txs, i))
    ensures forall tx :: tx in PushedFront(q, txs, i) ==> tx in q || tx in txs
    decreases |txs| - i
  {
    if i < |txs| {
      PushedFrontFacts(q, txs, i + 1);
      WithoutFacts(PushedFront(q, txs, i + 1), ID(txs[i]));
    }
  }

  /** The list without the transactions of the first n IDs. */
  ghost function Removed(q: seq<Transaction>, ids: seq<TransactionID>, n: nat): seq<Transaction>
    requires n <= |ids|
  {
    if n == 0 then q else Without(Removed(q, ids, n - 1), ids[n - 1])
  }

  lemma {:induction false} RemovedFacts(q: seq<Transaction>, ids: seq<TransactionID>, n: nat)
    requires n <= |ids| && DistinctIDs(q)
    ensures DistinctIDs(Removed(q, ids, n))
    ensures forall tx :: tx in Removed(q, ids, n) <==> tx in q && ID(tx) !in ids[..n]
  {
    if n > 0 {
      RemovedFacts(q, ids, n - 1);
      WithoutFacts(Removed(q, ids, n - 1), ids[n - 1]);
      assert ids[..n] == ids[..n - 1] + [ids[n - 1]];
    }
  }

  /** The list after a block's transactions are removed, and what is left is reprocessed unless more blocks follow. */
  ghost function AfterBatch(b: Table, q: seq<Transaction>, ids: seq<TransactionID>, height: nat, more: bool)
      : seq<Transaction>
  {
    var left := Removed(q, ids, |ids|);
    if more then left else Kept(b, left, height + 1, |left|)
  }

  // ----- the map

  /** The map finds exactly the listed transactions. */
  ghost predicate Agree(m: map<TransactionID, Transaction>, q: seq<Transaction>) {
    && DistinctIDs(q)
    && (forall i :: 0 <= i < |q| ==> ID(q[i]) in m && m[ID(q[i])] == q[i])
    && (forall id :: id in m ==> exists i :: At(q, i, id))
  }

  lemma AgreeWithout(m: map<TransactionID, Transaction>, q: seq<Transaction>, k: nat)
    requires Agree(m, q) && k < |q|
    ensures Agree(m - {ID(q[k])}, q[..k] + q[k + 1..])
  {
    var id, r := ID(q[k]), q[..k] + q[k + 1..];
    forall i | 0 <= i < |r| ensures ID(r[i]) in m - {id} && m[ID(r[i])] == r[i] {
      assert r[i] == q[if i < k then i else i + 1];
    }
    forall x | x in m - {id} ensures exists i :: At(r, i, x) {
      var i :| At(q, i, x);
      assert At(r, if i < k then i else i - 1, x);
    }
  }

  lemma AgreePush(m: map<TransactionID, Transaction>, q: seq<Transaction>, tx: Transaction)
    requires Agree(m, q) && ID(tx) !in m
    ensures Agree(m[ID(tx) := tx], [tx] + q) && Agree(m[ID(tx) := tx], q + [tx])
  {
    var m', front, back := m[ID(tx) := tx], [tx] + q, q + [tx];
    forall x | x in m' ensures (exists i :: At(front, i, x)) && exists i :: At(back, i, x) {
      if x == ID(tx) {
        assert At(front, 0, x) && At(back, |q|, x);
      } else {
        var i :| At(q, i, x);
        assert At(front, i + 1, x) && At(back, i, x);
      }
    }
  }

  lemma WithoutAbsent(q: seq<Transaction>, id: TransactionID)
    requires forall i :: 0 <= i < |q| ==> ID(q[i]) != id
    ensures Without(q, id) == q
  {
  }

  class TransactionQueueMemory {
    var txMap: map<TransactionID, Transaction>
    var txQueue: seq<Transaction>
    const balanceCache: BalanceCache
    const ledger: LedgerDisk

    constructor (ledger: LedgerDisk)
      ensures txMap == map[] && txQueue == [] && this.ledger == ledger && balanceCache.ledger == ledger
      ensures balanceCache.minBalance == MIN_BALANCE && balanceCache.cache == map[] && fresh(balanceCache)
    {
      txMap, txQueue := map[], [];
      this.ledger := ledger;
      balanceCache := new BalanceCache(ledger, MIN_BALANCE);
    }

    /** The map and the list agree, and the balance view is set up for this queue. */
    ghost predicate Valid()
      reads this
    {
      Agree(txMap, txQueue) && balanceCache.ledger == ledger && balanceCache.minBalance == MIN_BALANCE
    }

    /** The balance view is the replay of the list over the ledger. */
    ghost predicate Replayed()
      reads this, balanceCache, ledger
    {
      && balanceCache.ledger == ledger
      && balanceCache.View() == ApplyAll(ledger.balances, txQueue)
    }

    method Add(tx: Transaction) returns (added: bool, failed: bool)
      requires Valid() && Replayed()
      modifies this, balanceCache
      ensures Valid() && Replayed()
      ensures added == (ID(tx) !in old(txMap) && CanApply(ApplyAll(ledger.balances, old(txQueue)), tx, MIN_BALANCE))
      ensures failed == (ID(tx) !in old(txMap) && !added)
      ensures txQueue == old(txQueue) + (if added then [tx] else [])
    {
      if ID(tx) in txMap {
        return false, false;
      }
      var ok := balanceCache.Apply(tx);
      if !ok {
        return false, true;
      }
      AgreePush(txMap, txQueue, tx);
      ApplyOneMore(ledger.balances, txQueue, tx, MIN_BALANCE);
      txQueue := txQueue + [tx];
      txMap := txMap[ID(tx) := tx];
      return true, false;
    }

    /** Take a transaction out of the list and the map, if it is there. */
    method Drop(id: TransactionID)
      requires Valid()
      modifies this
      ensures Valid() && id !in txMap
      ensures txQueue == Without(old(txQueue), id)
    {
      if id !in txMap {
        WithoutAbsent(txQueue, id);
        return;
      }
      ghost var at :| At(txQueue, at, id);
      var k := 0;
      while ID(txQueue[k]) != id
        invariant 0 <= k <= at
        decreases at - k
      {
        k := k + 1;
      }
      WithoutAt(txQueue, k, id);
      AgreeWithout(txMap, txQueue, k);
      txQueue := txQueue[..k] + txQueue[k + 1..];
      txMap := txMap - {id};
    }

    method PushFront(tx: Transaction)
      requires Valid() && ID(tx) !in txMap
      modifies this
      ensures Valid() && txQueue == [tx] + old(txQueue)
    {
      AgreePush(txMap, txQueue, tx);
      txQueue := [tx] + txQueue;
      txMap := txMap[ID(tx) := tx];
    }

    /** A block has been disconnected: its transactions go to the front. */
    method AddBatch(txs: seq<Transaction>)
      requires Valid()
      modifies this
      ensures Valid()
      ensures txQueue == PushedFront(old(txQueue), txs, 0)
    {
      var i := |txs|;
      ghost var q := txQueue;
      while i > 0
        invariant 0 <= i <= |txs| && Valid()
        invariant txQueue == PushedFront(q, txs, i)
      {
        i := i - 1;
        PushedStep(q, txs, i, txQueue);
        Drop(ID(txs[i]));
        PushFront(txs[i]);
      }
    }

    /** A block has been connected: its transactions leave, and so may others unless more blocks follow. */
    method RemoveBatch(ids: seq<TransactionID>, height: nat, more: bool)
      requires Valid()
      modifies this, balanceCache
      ensures Valid() && (!more ==> Replayed())
      ensures txQueue == AfterBatch(ledger.balances, old(txQueue), ids, height, more)
    {
      var n := 0;
      while n < |ids|
        invariant 0 <= n <= |ids| && Valid()
        invariant txQueue == Removed(old(txQueue), ids, n)
      {
        Drop(ids[n]);
        n := n + 1;
      }
      if !more {
        ReprocessQueue(height);
      }
    }

    /** Apply a transaction to the balance view if it is still good for the next block. */
    method StillGood(tx: Transaction, height: nat) returns (good: bool)
      requires Valid()
      modifies balanceCache
      ensures good == (Eligible(tx, height) && CanApply(old(balanceCache.View()), tx, MIN_BALANCE))
      ensures balanceCache.View() == (if good then ApplyTx(old(balanceCache.View()), tx) else old(balanceCache.View()))
    {
      if !CheckTransactionSeries(tx, height) || !IsMature(tx, height) || IsExpired(tx, height) ||
         tx.body.fee < MIN_FEE_CRUZBITS || tx.body.amount < MIN_AMOUNT_CRUZBITS {
        return false;
      }
      good := balanceCache.Apply(tx);
    }

    /** Keep the transaction at position k, behind those kept before it, or drop it. */
    method ReprocessOne(k: nat, height: nat) returns (good: bool)
      requires Valid() && k < |txQueue|
      requires balanceCache.View() == ApplyAll(ledger.balances, txQueue[..k])
      modifies this, balanceCache
      ensures Valid()
      ensures good == (Eligible(old(txQueue)[k], height)
                       && CanApply(ApplyAll(ledger.balances, old(txQueue)[..k]), old(txQueue)[k], MIN_BALANCE))
      ensures txQueue == (if good then old(txQueue) else old(txQueue)[..k] + old(txQueue)[k + 1..])
      ensures balanceCache.View() == ApplyAll(ledger.balances, txQueue[..if good then k + 1 else k])
    {
      var tx := txQueue[k];
      ApplyOneMore(ledger.balances, txQueue[..k], tx, MIN_BALANCE);
      assert txQueue[..k] + [tx] == txQueue[..k + 1];
      good := StillGood(tx, height);
      if !good {
        WithoutAt(txQueue, k, ID(tx));
        Drop(ID(tx));
        assert txQueue[..k] == old(txQueue)[..k];
      }
    }

    /** The first n transactions of the copy are dealt with; the k kept ones are in front. */
    ghost predicate Halfway(tmp: seq<Transaction>, height: nat, n: nat, k: nat)
      reads this, balanceCache, ledger
    {
      && Valid() && k <= |txQueue| && n <= |tmp|
      && txQueue[..k] == Kept(ledger.balances, tmp, height, n) && txQueue[k..] == tmp[n..]
      && balanceCache.View() == ApplyAll(ledger.balances, txQueue[..k])
    }

    method ReprocessNext(tmp: seq<Transaction>, height: nat, n: nat, k: nat) returns (k': nat)
      requires Halfway(tmp, height, n, k) && n < |tmp|
      modifies this, balanceCache
      ensures Halfway(tmp, height, n + 1, k')
    {
      ghost var before := txQueue;
      assert |before| - k == |before[k..]| == |tmp| - n;
      var good := ReprocessOne(k, height);
      KeptStep(ledger.balances, tmp, height, n, before, k, txQueue, good);
      return if good then k + 1 else k;
    }

    /** Go through the queue again, in order, and drop what can no longer be confirmed. */
    method ReprocessQueue(height: nat)
      requires Valid()
      modifies this, balanceCache
      ensures Valid() && Replayed()
      ensures txQueue == Kept(ledger.balances, old(txQueue), height + 1, |old(txQueue)|)
    {
      balanceCache.Reset();
      var tmpQueue := txQueue;
      var n: nat, k: nat := 0, 0;
      while n < |tmpQueue|
        invariant n <= |tmpQueue| && Halfway(tmpQueue, height + 1, n, k) && ledger.balances == old(ledger.balances)
      {
        k := ReprocessNext(tmpQueue, height + 1, n, k);
        n := n + 1;
      }
      assert |txQueue[k..]| == 0;
      assert txQueue[..k] == txQueue;
    }

    /** The first transactions, for the miner. */
    method Get(limit: nat) returns (txs: seq<Transaction>)
      ensures txs == (if limit == 0 || |txQueue| < limit then txQueue else txQueue[..limit])
    {
      txs := [];
      var i := 0;
      while i < |txQueue|
        invariant 0 <= i <= |txQueue| && txs == txQueue[..i]
        invariant limit != 0 ==> i < limit
      {
        txs := txs + [txQueue[i]];
        i := i + 1;
        if i == limit {
          break;
        }
      }
    }

    predicate ExistsSigned(id: TransactionID, signature: string)
      reads this
    {
      id in txMap && txMap[id].signature == signature
    }
  }
}
