/**
The schedules written into the rules: how rewards halve, how the transaction limit grows, and
how long a new transaction's series is accepted.
*/
module Schedule {
  import opened Types
  import opened Rules
  import opened Targets

  // ----- rewards

  lemma {:induction false} ShiftBound(x: nat, n: nat)
    ensures ShiftRight(x, n) * Pow2(n) <= x
  {
    if n > 0 {
      ShiftBound(x, n - 1);
      var y := ShiftRight(x, n - 1);
      MulOrder(2 * (y / 2), y, Pow2(n - 1), Pow2(n - 1));
      assert (y / 2) * Pow2(n) == 2 * (y / 2) * Pow2(n - 1);
    }
  }

  lemma {:induction false} Pow2Grows(m: nat, n: nat)
    requires m <= n
    ensures Pow2(m) <= Pow2(n)
  {
    if m < n {
      Pow2Grows(m, n - 1);
    }
  }

  /** After 33 halvings nothing is left. */
  lemma NothingLeft(n: nat)
    requires n >= 33
    ensures ShiftRight(INITIAL_COINBASE_REWARD, n) == 0
  {
    Pow2At33();
    Pow2Grows(33, n);
    ShiftBound(INITIAL_COINBASE_REWARD, n);
    var y := ShiftRight(INITIAL_COINBASE_REWARD, n);
    if y > 0 {
      MulOrder(1, y, Pow2(33), Pow2(n));
    }
  }

  lemma Pow2At33()
    ensures Pow2(17) == 131072 && Pow2(33) == 8589934592
  {
    assert Pow2(4) == 16;
    assert Pow2(8) == 256;
    assert Pow2(12) == 4096;
    assert Pow2(16) == 65536;
    assert Pow2(20) == 1048576;
    assert Pow2(24) == 16777216;
    assert Pow2(28) == 268435456;
    assert Pow2(32) == 4294967296;
  }

  lemma {:induction false} ShiftAtLeast(x: nat, n: nat, k: nat)
    requires k * Pow2(n) <= x
    ensures ShiftRight(x, n) >= k
  {
    if n > 0 {
      assert 2 * k * Pow2(n - 1) == k * Pow2(n);
      ShiftAtLeast(x, n - 1, 2 * k);
    }
  }

  /** After 32 halvings something is. */
  lemma SomethingLeft(n: nat)
    requires n <= 32
    ensures ShiftRight(INITIAL_COINBASE_REWARD, n) > 0
  {
    Pow2At33();
    Pow2Grows(n, 32);
    ShiftAtLeast(INITIAL_COINBASE_REWARD, n, 1);
  }

  /** From the 33rd halving on there is no reward, and before it there is. */
  lemma RewardEnds(height: nat)
    ensures BlockCreationReward(height) == 0 <==> height >= 33 * BLOCKS_UNTIL_REWARD_HALVING
  {
    var halvings := height / BLOCKS_UNTIL_REWARD_HALVING;
    if halvings >= 33 {
      NothingLeft(halvings);
    } else {
      SomethingLeft(halvings);
    }
  }

  /** Fifty coins at first, and half as much, rounded down, one period later: that is the whole schedule. */
  lemma RewardHalves(height: nat)
    ensures height < BLOCKS_UNTIL_REWARD_HALVING ==> BlockCreationReward(height) == INITIAL_COINBASE_REWARD
    ensures BlockCreationReward(height + BLOCKS_UNTIL_REWARD_HALVING) == BlockCreationReward(height) / 2
  {
    var k := height / BLOCKS_UNTIL_REWARD_HALVING;
    assert (height + BLOCKS_UNTIL_REWARD_HALVING) / BLOCKS_UNTIL_REWARD_HALVING == k + 1;
    if k + 1 >= 64 {
      NothingLeft(k);
    }
  }

  // ----- the transaction limit

  /** The limit before it is capped: linear between doublings. */
  function Growth(doublings: nat, remainder: nat): nat {
    var first := INITIAL_MAX_TRANSACTIONS_PER_BLOCK * Pow2(doublings);
    first + first * remainder / BLOCKS_UNTIL_TRANSACTIONS_PER_BLOCK_DOUBLING
  }

  lemma LimitIsGrowth(height: nat)
    requires height < MAX_TRANSACTIONS_PER_BLOCK_EXCEEDED_AT_HEIGHT
    ensures ComputeMaxTransactionsPerBlock(height)
            == Growth(height / BLOCKS_UNTIL_TRANSACTIONS_PER_BLOCK_DOUBLING,
                height % BLOCKS_UNTIL_TRANSACTIONS_PER_BLOCK_DOUBLING)
  {
  }

  lemma DivMono(a: nat, b: nat, d: nat)
    requires a <= b && d > 0
    ensures a / d <= b / d
  {
    DivReaches(a, d, a / d);
    DivReaches(b, d, a / d);
  }

  lemma GrowthWithin(k: nat, r: nat, s: nat)
    requires r <= s
    ensures Growth(k, r) <= Growth(k, s)
  {
    var first := INITIAL_MAX_TRANSACTIONS_PER_BLOCK * Pow2(k);
    MulOrder(first, first, r, s);
    DivMono(first * r, first * s, BLOCKS_UNTIL_TRANSACTIONS_PER_BLOCK_DOUBLING);
  }

  /** A whole period doubles the limit. */
  lemma GrowthDoubles(k: nat)
    ensures Growth(k, BLOCKS_UNTIL_TRANSACTIONS_PER_BLOCK_DOUBLING) == Growth(k + 1, 0) == 2 * Growth(k, 0)
  {
    var first, d := INITIAL_MAX_TRANSACTIONS_PER_BLOCK * Pow2(k), BLOCKS_UNTIL_TRANSACTIONS_PER_BLOCK_DOUBLING;
    DivReaches(first * d, d, first);
    DivReaches(first * d, d, first + 1);
    assert (first + 1) * d == first * d + d;
    assert Pow2(k + 1) == 2 * Pow2(k);
    assert first * 0 == 0;
  }

  lemma GrowthStep(height: nat)
    ensures var d := BLOCKS_UNTIL_TRANSACTIONS_PER_BLOCK_DOUBLING;
            Growth(height / d, height % d) <= Growth((height + 1) / d, (height + 1) % d)
  {
    var d := BLOCKS_UNTIL_TRANSACTIONS_PER_BLOCK_DOUBLING;
    var k, r := height / d, height % d;
    if r + 1 < d {
      assert (height + 1) / d == k && (height + 1) % d == r + 1;
      GrowthWithin(k, r, r + 1);
    } else {
      assert (height + 1) / d == k + 1 && (height + 1) % d == 0;
      GrowthWithin(k, r, d);
      GrowthDoubles(k);
    }
  }

  lemma {:induction false} GrowthMonotone(a: nat, b: nat)
    requires a <= b
    ensures var d := BLOCKS_UNTIL_TRANSACTIONS_PER_BLOCK_DOUBLING;
            Growth(a / d, a % d) <= Growth(b / d, b % d)
  {
    if a < b {
      GrowthMonotone(a, b - 1);
      GrowthStep(b - 1);
    }
  }

  /** The limit never falls, and stays below the hard cap until the height where the cap sets in. */
  lemma LimitNeverFalls(a: nat, b: nat)
    requires a <= b
    ensures ComputeMaxTransactionsPerBlock(a) <= ComputeMaxTransactionsPerBlock(b)
    ensures ComputeMaxTransactionsPerBlock(a) < MAX_TRANSACTIONS_PER_BLOCK <==>
              a < MAX_TRANSACTIONS_PER_BLOCK_EXCEEDED_AT_HEIGHT
  {
    var last := MAX_TRANSACTIONS_PER_BLOCK_EXCEEDED_AT_HEIGHT - 1;
    if a <= last {
      LimitIsGrowth(a);
      GrowthMonotone(a, last);
      Pow2At33();
      assert last / BLOCKS_UNTIL_TRANSACTIONS_PER_BLOCK_DOUBLING == 17;
      if b <= last {
        LimitIsGrowth(b);
        GrowthMonotone(a, b);
      }
    }
  }

  /** Between two doublings the limit grows in a straight line, rounded down. */
  lemma LimitBetween(height: nat)
    requires height < MAX_TRANSACTIONS_PER_BLOCK_EXCEEDED_AT_HEIGHT
    ensures var limit, first := ComputeMaxTransactionsPerBlock(height), 10000 * Pow2(height / 105000);
            var more := height % 105000;
            (limit - first) * 105000 <= first * more < (limit - first + 1) * 105000
  {
    LimitIsGrowth(height);
    DivBetween(INITIAL_MAX_TRANSACTIONS_PER_BLOCK * Pow2(height / 105000) * (height % 105000), 105000);
  }

  /** At every doubling the limit is the initial one times a power of two. */
  lemma LimitAtDoublings(k: nat)
    requires k * BLOCKS_UNTIL_TRANSACTIONS_PER_BLOCK_DOUBLING < MAX_TRANSACTIONS_PER_BLOCK_EXCEEDED_AT_HEIGHT
    ensures ComputeMaxTransactionsPerBlock(k * BLOCKS_UNTIL_TRANSACTIONS_PER_BLOCK_DOUBLING)
            == INITIAL_MAX_TRANSACTIONS_PER_BLOCK * Pow2(k)
  {
    var d := BLOCKS_UNTIL_TRANSACTIONS_PER_BLOCK_DOUBLING;
    var h := k * d;
    assert h / d == k && h % d == 0;
    LimitIsGrowth(h);
    assert INITIAL_MAX_TRANSACTIONS_PER_BLOCK * Pow2(k) * 0 == 0;
  }

  // ----- the series of a new transaction

  /** Division that truncates toward zero. */
  function TruncatedDiv(a: int, b: int): int
    requires b > 0
  {
    if a >= 0 then a / b else -((-a) / b)
  }

  function ComputeTransactionSeries(isCoinbase: bool, height: nat): int {
    if isCoinbase then height / BLOCKS_UNTIL_NEW_SERIES + 1
    else TruncatedDiv(height - 100, BLOCKS_UNTIL_NEW_SERIES) + 1
  }

  /** A payment made at some height is accepted in exactly the blocks up to the end of the series after its own. */
  lemma PaymentSeriesAccepted(tx: Transaction, made: nat, height: nat)
    requires !IsCoinbase(tx) && tx.body.series == ComputeTransactionSeries(false, made) && made <= height
    ensures CheckTransactionSeries(tx, height) <==> height / BLOCKS_UNTIL_NEW_SERIES <= tx.body.series
    ensures height <= made + 908 ==> CheckTransactionSeries(tx, height)
    ensures tx.body.series >= 1
  {
    var s, w := tx.body.series, BLOCKS_UNTIL_NEW_SERIES;
    if made < 100 {
      assert (100 - made) / w == 0;
    }
  }

  /** A coinbase is accepted at its own height's series and in no other. */
  lemma CoinbaseSeriesAccepted(tx: Transaction, made: nat, height: nat)
    requires IsCoinbase(tx) && tx.body.series == ComputeTransactionSeries(true, made)
    ensures CheckTransactionSeries(tx, height) <==> made / BLOCKS_UNTIL_NEW_SERIES == height / BLOCKS_UNTIL_NEW_SERIES
  {
  }
}
