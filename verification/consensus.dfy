/**
Consensus arithmetic on a branch of blocks, genesis first: median time, proof-of-work
targets and cumulative work.
*/
module MedianTime {
  import opened Types

  const NUM_BLOCKS_FOR_MEDIAN_TIMESTAMP := 11

  /** The times of the last k blocks, newest first. */
  function Times(branch: seq<Block>, k: nat): (ts: seq<int>)
    ensures |ts| == if |branch| < k then |branch| else k
  {
    if k == 0 || branch == [] then []
    else
      var n := |branch| - 1;
      [branch[n].header.time] + Times(branch[..n], k - 1)
  }

  function Insert(s: seq<int>, x: int): (r: seq<int>)
    ensures |r| == |s| + 1
  {
    if s == [] || x <= s[0] then [x] + s else [s[0]] + Insert(s[1..], x)
  }

  function Sort(s: seq<int>): (r: seq<int>)
    ensures |r| == |s|
  {
    if s == [] then [] else Insert(Sort(s[1..]), s[0])
  }

  function Median(s: seq<int>): int
    requires s != []
  {
    Sort(s)[|s| / 2]
  }

  /** The median time that a block on top of this branch must exceed. */
  function MedianOf(branch: seq<Block>): int
    requires branch != []
  {
    Median(Times(branch, NUM_BLOCKS_FOR_MEDIAN_TIMESTAMP))
  }

  ghost predicate IsSorted(s: seq<int>) {
    forall i, j :: 0 <= i < j < |s| ==> s[i] <= s[j]
  }

  /** How many elements are below m. */
  ghost function Below(s: seq<int>, m: int): nat {
    if s == [] then 0 else (if s[0] < m then 1 else 0) + Below(s[1..], m)
  }

  lemma {:induction false} InsertAtLeast(s: seq<int>, x: int, lo: int)
    requires x >= lo && forall i :: 0 <= i < |s| ==> s[i] >= lo
    ensures forall i :: 0 <= i < |Insert(s, x)| ==> Insert(s, x)[i] >= lo
  {
    if s != [] && x > s[0] {
      InsertAtLeast(s[1..], x, lo);
    }
  }

  lemma {:induction false} InsertSorted(s: seq<int>, x: int)
    requires IsSorted(s)
    ensures IsSorted(Insert(s, x))
  {
    if s != [] && x > s[0] {
      InsertSorted(s[1..], x);
      InsertAtLeast(s[1..], x, s[0]);
    }
  }

  lemma {:induction false} InsertKeeps(s: seq<int>, x: int)
    ensures multiset(Insert(s, x)) == multiset(s) + multiset{x}
  {
    if s != [] && x > s[0] {
      InsertKeeps(s[1..], x);
      assert s == [s[0]] + s[1..];
    }
  }

  lemma {:induction false} InsertBelow(s: seq<int>, x: int, m: int)
    ensures Below(Insert(s, x), m) == Below(s, m) + (if x < m then 1 else 0)
  {
    var r := Insert(s, x);
    if s == [] || x <= s[0] {
      assert r[1..] == s;
    } else {
      InsertBelow(s[1..], x, m);
      assert r[1..] == Insert(s[1..], x);
    }
  }

  /** Sorting sorts, and rearranges. */
  lemma {:induction false} SortSorts(s: seq<int>, m: int)
    ensures IsSorted(Sort(s)) && multiset(Sort(s)) == multiset(s)
    ensures Below(Sort(s), m) == Below(s, m)
  {
    if s != [] {
      SortSorts(s[1..], m);
      InsertSorted(Sort(s[1..]), s[0]);
      InsertKeeps(Sort(s[1..]), s[0]);
      InsertBelow(Sort(s[1..]), s[0], m);
      assert s == [s[0]] + s[1..];
    }
  }

  lemma {:induction false} SortedBelow(s: seq<int>, m: int, k: nat)
    requires IsSorted(s) && k < |s|
    ensures s[k] >= m <==> Below(s, m) <= k
  {
    if s[0] >= m {
      NoneBelow(s, m);
    } else if k > 0 {
      SortedBelow(s[1..], m, k - 1);
    }
  }

  lemma {:induction false} NoneBelow(s: seq<int>, m: int)
    requires forall i :: 0 <= i < |s| ==> s[i] >= m
    ensures Below(s, m) == 0
  {
    if s != [] {
      NoneBelow(s[1..], m);
    }
  }

  /** The median is at least m exactly when at most half of the elements are below m. */
  lemma MedianAtLeast(s: seq<int>, m: int)
    requires s != []
    ensures Median(s) >= m <==> Below(s, m) <= |s| / 2
  {
    SortSorts(s, m);
    SortedBelow(Sort(s), m, |s| / 2);
  }

  lemma {:induction false} ShorterWindowBelow(branch: seq<Block>, k: nat, m: int)
    ensures Below(Times(branch, k), m) <= Below(Times(branch, k + 1), m)
  {
    if k > 0 && branch != [] {
      ShorterWindowBelow(branch[..|branch| - 1], k - 1, m);
    }
  }

  /** The times of the last blocks, the newest first. */
  lemma {:induction false} TimesAre(branch: seq<Block>, k: nat, i: nat)
    requires i < k && i < |branch|
    ensures Times(branch, k)[i] == branch[|branch| - 1 - i].header.time
  {
    if i > 0 {
      TimesAre(branch[..|branch| - 1], k - 1, i - 1);
    }
  }

  lemma TimesAppend(branch: seq<Block>, block: Block, k: nat)
    ensures Times(branch + [block], k + 1) == [block.header.time] + Times(branch, k)
  {
    assert (branch + [block])[..|branch|] == branch;
  }

  /** A block later than the median never lowers it, in growing and in full windows. */
  lemma MedianNeverDecreases(branch: seq<Block>, block: Block)
    requires branch != [] && block.header.time > MedianOf(branch)
    ensures MedianOf(branch + [block]) >= MedianOf(branch)
  {
    var m, k := MedianOf(branch), NUM_BLOCKS_FOR_MEDIAN_TIMESTAMP;
    var before, after := Times(branch, k), Times(branch + [block], k);
    MedianAtLeast(before, m);
    MedianAtLeast(after, m);
    TimesAppend(branch, block, k - 1);
    ShorterWindowBelow(branch, k - 1, m);
    assert after[1..] == Times(branch, k - 1);
  }

  /** The block at this position is later than the median of the blocks below it. */
  ghost predicate LaterAt(branch: seq<Block>, k: int)
    requires 1 <= k < |branch|
  {
    branch[k].header.time > MedianOf(branch[..k])
  }

  /** So the median never decreases along a branch of such blocks. */
  lemma {:induction false} MedianNeverFalls(branch: seq<Block>, i: nat, j: nat)
    requires 1 <= i <= j <= |branch|
    requires forall k {:trigger LaterAt(branch, k)} :: 1 <= k < |branch| ==> LaterAt(branch, k)
    ensures MedianOf(branch[..i]) <= MedianOf(branch[..j])
  {
    if i < j {
      MedianNeverFalls(branch, i, j - 1);
      assert LaterAt(branch, j - 1);
      MedianNeverDecreases(branch[..j - 1], branch[j - 1]);
      assert branch[..j] == branch[..j - 1] + [branch[j - 1]];
    }
  }
}

module Work {
  import opened Types

  const INITIAL_TARGET: nat := 0x00000000ffff0000000000000000000000000000000000000000000000000000
  const RETARGET_INTERVAL := 2016
  const RETARGET_TIME := 1209600
  const TARGET_SPACING := 600
  const RETARGET_SMA_WINDOW := 144
  const BITCOIN_CASH_RETARGET_ALGORITHM_HEIGHT := 28861

  /** 2^256 / (target + 1), and nothing for a zero target. */
  function BlockWork(target: nat): nat {
    if target == 0 then 0 else TWO_256 / (target + 1)
  }

  /** Storing a number in 32 bytes: the absolute value, or the "Too much work" panic. */
  function SetBigInt(i: int): Option<nat> {
    var magnitude := if i < 0 then -i else i;
    if magnitude >= TWO_256 then None else Some(magnitude)
  }

  function ChainWork(target: nat, previous: nat): Option<nat> {
    SetBigInt(previous + BlockWork(target))
  }

  // ----- the original retarget

  function ClampedTimespan(actual: int): int {
    if actual < RETARGET_TIME / 4 then RETARGET_TIME / 4
    else if actual > RETARGET_TIME * 4 then RETARGET_TIME * 4
    else actual
  }

  function Retarget(target: nat, actual: int): nat {
    var t := target * ClampedTimespan(actual) / RETARGET_TIME;
    if t > INITIAL_TARGET then INITIAL_TARGET else t
  }

  /** How far back the first block of the interval is. */
  function BlocksToGoBack(height: int): int {
    if height + 1 != RETARGET_INTERVAL then RETARGET_INTERVAL else RETARGET_INTERVAL - 1
  }

  /** The target of a block on top of this branch. */
  function TargetBitcoin(branch: seq<Block>): nat
    requires branch != []
  {
    var n := |branch| - 1;
    if |branch| % RETARGET_INTERVAL != 0 then branch[n].header.target
    else
      var first := n - BlocksToGoBack(n);
      Retarget(branch[n].header.target, branch[n].header.time - branch[first].header.time)
  }

  // ----- the revised retarget

  function ClampedWindowTimespan(actual: int): int {
    if actual > 2 * RETARGET_SMA_WINDOW * TARGET_SPACING then 2 * RETARGET_SMA_WINDOW * TARGET_SPACING
    else if actual < (RETARGET_SMA_WINDOW / 2) * TARGET_SPACING then (RETARGET_SMA_WINDOW / 2) * TARGET_SPACING
    else actual
  }

  /** The work estimate for one block, from the work and time between two headers. */
  function WorkEstimate(prev: BlockHeader, first: BlockHeader): int {
    (prev.chainWork - first.chainWork) * TARGET_SPACING / ClampedWindowTimespan(prev.time - first.time)
  }

  /** `None` is a panic: a division by zero, or a number too large for 32 bytes. */
  function TargetBitcoinCash(prev: BlockHeader, first: BlockHeader): Option<nat> {
    var work := WorkEstimate(prev, first);
    if work == 0 then None
    else
      var t := TWO_256 / work - 1;
      if t > INITIAL_TARGET then Some(INITIAL_TARGET) else SetBigInt(t)
  }
}

/** What the retarget rules keep along a branch. */
module Targets {
  import opened Types
  import opened Work

  // ----- division, one fact at a time

  lemma MulOrder(a: nat, b: nat, c: nat, d: nat)
    requires a <= b && c <= d
    ensures a * c <= b * d
  {
    assert a * c <= b * c;
    assert b * c <= b * d;
  }

  /** q fits d times into n exactly when n / d reaches q. */
  lemma DivReaches(n: nat, d: nat, q: nat)
    requires d > 0
    ensures q * d <= n <==> q <= n / d
  {
    var r := n / d;
    assert r * d <= n < r * d + d;
    if q <= r {
      MulOrder(q, r, d, d);
    } else {
      MulOrder(r + 1, q, d, d);
      assert (r + 1) * d == r * d + d;
    }
  }

  // ----- the original retarget moves a target down by at most a factor of four

  lemma RetargetBounds(target: nat, actual: int, x: nat)
    requires 4 * x <= target && x <= INITIAL_TARGET
    ensures x <= Retarget(target, actual) <= INITIAL_TARGET
  {
    var span := ClampedTimespan(actual);
    MulOrder(4 * x, target, RETARGET_TIME / 4, span);
    DivReaches(target * span, RETARGET_TIME, x);
  }

  lemma DivMonotone(a: nat, b: nat, d: nat)
    requires a <= b && d > 0
    ensures a / d <= b / d
  {
    DivReaches(a, d, a / d);
    DivReaches(b, d, a / d);
  }

  lemma DivBetween(n: nat, d: nat)
    requires d > 0
    ensures n / d * d <= n < (n / d + 1) * d
  {
    DivReaches(n, d, n / d);
    DivReaches(n, d, n / d + 1);
  }

  /** The longer an interval takes, the easier the next one is. */
  lemma RetargetFollowsTime(target: nat, quick: int, slow: int)
    requires quick <= slow
    ensures Retarget(target, quick) <= Retarget(target, slow)
  {
    MulOrder(target, target, ClampedTimespan(quick), ClampedTimespan(slow));
    DivMonotone(target * ClampedTimespan(quick), target * ClampedTimespan(slow), RETARGET_TIME);
  }

  /** Two weeks to the second change nothing. */
  lemma RetargetOnTime(target: nat)
    requires target <= INITIAL_TARGET
    ensures Retarget(target, 1209600) == target
  {
    DivReaches(target * RETARGET_TIME, RETARGET_TIME, target);
    DivReaches(target * RETARGET_TIME, RETARGET_TIME, target + 1);
  }

  /** The target moves in proportion to the time, which counts between half a week and eight weeks; up to the cap. */
  lemma RetargetIsProportional(target: nat, actual: int)
    ensures var r := Retarget(target, actual);
            var span := if actual < 302400 then 302400 else if actual > 4838400 then 4838400 else actual;
            && (r < INITIAL_TARGET ==> r * 1209600 <= target * span < (r + 1) * 1209600)
            && (r == INITIAL_TARGET ==> target * span >= INITIAL_TARGET * 1209600)
  {
    var product := target * ClampedTimespan(actual);
    DivBetween(product, RETARGET_TIME);
    DivReaches(product, RETARGET_TIME, INITIAL_TARGET);
  }

  /** Every 2016 blocks a target is computed from the time since the block before the interval, or genesis at first. */
  lemma RetargetsEvery2016(branch: seq<Block>)
    requires branch != []
    ensures var n := |branch|;
            var last, first := branch[n - 1].header, branch[if n >= 2017 then n - 2017 else 0].header;
            TargetBitcoin(branch)
            == if n % 2016 == 0 then Retarget(last.target, last.time - first.time) else last.target
  {
  }

  /** The least target after n retargets from the initial one. */
  function LeastTarget(n: nat): nat {
    if n == 0 then INITIAL_TARGET else LeastTarget(n - 1) / 4
  }

  lemma {:induction false} LeastTargetBelowInitial(n: nat)
    ensures LeastTarget(n) <= INITIAL_TARGET
  {
    if n > 0 {
      LeastTargetBelowInitial(n - 1);
    }
  }

  /** 0xffff * 2^180 */
  const LEAST_EARLY_TARGET: nat := 0xffff000000000000000000000000000000000000000000000

  /** The least target after the fourteen retargets up to height 28861. */
  lemma LeastTargetAt14()
    ensures LeastTarget(14) == LEAST_EARLY_TARGET
  {
    assert LeastTarget(2) == 0xffff000000000000000000000000000000000000000000000000000;
    assert LeastTarget(4) == 0xffff00000000000000000000000000000000000000000000000000;
    assert LeastTarget(6) == 0xffff0000000000000000000000000000000000000000000000000;
    assert LeastTarget(8) == 0xffff000000000000000000000000000000000000000000000000;
    assert LeastTarget(10) == 0xffff00000000000000000000000000000000000000000000000;
    assert LeastTarget(12) == 0xffff0000000000000000000000000000000000000000000000;
  }

  lemma {:induction false} LeastTargetMonotone(m: nat, n: nat)
    requires m <= n
    ensures LeastTarget(n) <= LeastTarget(m)
  {
    if m < n {
      LeastTargetMonotone(m, n - 1);
    }
  }

  // ----- the revised retarget

  /** A lower target is more work: the work is the largest number of hashes that many targets fit into. */
  lemma LowerTargetMoreWork(a: nat, b: nat)
    requires 0 < a <= b
    ensures BlockWork(a) >= BlockWork(b)
    ensures BlockWork(a) * (a + 1) <= TWO_256 < (BlockWork(a) + 1) * (a + 1)
  {
    DivReaches(TWO_256, b + 1, BlockWork(b));
    MulOrder(BlockWork(b), BlockWork(b), a + 1, b + 1);
    DivReaches(TWO_256, a + 1, BlockWork(b));
    DivReaches(TWO_256, a + 1, BlockWork(a));
    DivReaches(TWO_256, a + 1, BlockWork(a) + 1);
  }

  lemma BlockWorkOfInitial(target: nat)
    requires 0 < target <= INITIAL_TARGET
    ensures BlockWork(target) >= 0x1_0000_0000
  {
    MulOrder(0x1_0000_0000, 0x1_0000_0000, target + 1, INITIAL_TARGET + 1);
    DivReaches(TWO_256, target + 1, 0x1_0000_0000);
  }

  /** The estimate is the window's work divided by between 72 and 288 blocks, rounded down. */
  lemma WorkEstimateBounds(prev: BlockHeader, first: BlockHeader)
    requires prev.chainWork >= first.chainWork
    ensures var w := prev.chainWork - first.chainWork;
            w / (2 * RETARGET_SMA_WINDOW) <= WorkEstimate(prev, first) <= w / (RETARGET_SMA_WINDOW / 2)
  {
    var w := prev.chainWork - first.chainWork;
    var span := ClampedWindowTimespan(prev.time - first.time);
    var lo, hi := w / 288, w / 72;
    // lo * span <= lo * 288 * 600 <= w * 600
    MulOrder(lo, lo, span, 172800);
    DivReaches(w * TARGET_SPACING, span, lo);
    // (hi + 1) * span >= (hi + 1) * 72 * 600 > w * 600
    MulOrder(hi + 1, hi + 1, 43200, span);
    DivReaches(w * TARGET_SPACING, span, hi + 1);
  }

  /** The longer a window takes, the less work it is taken for. */
  lemma EstimateFollowsTime(quick: BlockHeader, slow: BlockHeader, first: BlockHeader)
    requires quick.chainWork == slow.chainWork >= first.chainWork && quick.time <= slow.time
    ensures WorkEstimate(quick, first) >= WorkEstimate(slow, first)
  {
    DivLonger((slow.chainWork - first.chainWork) * TARGET_SPACING,
        ClampedWindowTimespan(quick.time - first.time), ClampedWindowTimespan(slow.time - first.time));
  }

  lemma DivLonger(n: nat, a: nat, b: nat)
    requires 0 < a <= b
    ensures n / a >= n / b
  {
    var q := n / b;
    DivReaches(n, b, q);
    MulOrder(q, q, a, b);
    DivReaches(n, a, q);
  }

  /** The estimate is the work of ten minutes, at the rate of a window that counts for half a day to two days. */
  lemma EstimateIsProportional(prev: BlockHeader, first: BlockHeader)
    requires prev.chainWork >= first.chainWork
    ensures var e, w, t := WorkEstimate(prev, first), prev.chainWork - first.chainWork, prev.time - first.time;
            var span := if t < 43200 then 43200 else if t > 172800 then 172800 else t;
            e * span <= w * 600 < (e + 1) * span
  {
    var w := (prev.chainWork - first.chainWork) * TARGET_SPACING;
    DivBetween(w, ClampedWindowTimespan(prev.time - first.time));
  }

  /** The target is the largest at which a block is worth the estimate, up to the cap. */
  lemma TargetIsWorthEstimate(prev: BlockHeader, first: BlockHeader)
    requires prev.chainWork < TWO_256 && WorkEstimate(prev, first) > 0
    ensures var e, t := WorkEstimate(prev, first), TargetBitcoinCash(prev, first);
            && t.Some? && 0 < t.value <= INITIAL_TARGET && BlockWork(t.value) >= e
            && (t.value < INITIAL_TARGET ==> BlockWork(t.value + 1) < e)
  {
    var e := WorkEstimate(prev, first);
    TargetOfAnyWindow(prev, first);
    var t, q := TargetBitcoinCash(prev, first).value, TWO_256 / e;
    DivReaches(TWO_256, e, t + 1);
    DivReaches(TWO_256, e, t + 2);
    DivReaches(TWO_256, t + 1, e);
    DivReaches(TWO_256, t + 2, e);
    assert e * (t + 1) == (t + 1) * e && e * (t + 2) == (t + 2) * e;
    assert t <= q - 1 && (t < INITIAL_TARGET ==> t == q - 1) by {
      EstimateBelow(prev, first);
      DivReaches(TWO_256, e, 72);
    }
  }

  /** No division by zero, and a target in [71, INITIAL_TARGET] worth at least the estimate. */
  lemma TargetBitcoinCashBounds(prev: BlockHeader, first: BlockHeader)
    requires prev.chainWork < TWO_256
    requires prev.chainWork - first.chainWork >= 2 * RETARGET_SMA_WINDOW
    ensures var t := TargetBitcoinCash(prev, first);
            && t.Some? && 71 <= t.value <= INITIAL_TARGET
            && BlockWork(t.value) >= WorkEstimate(prev, first)
  {
    var w, e := prev.chainWork - first.chainWork, WorkEstimate(prev, first);
    WorkEstimateBounds(prev, first);
    DivReaches(w, 288, 1);
    assert e * 72 <= w < TWO_256;
    DivReaches(TWO_256, e, 72);
    var t := TargetBitcoinCash(prev, first).value;
    // t + 1 <= 2^256 / e, so e * (t + 1) <= 2^256
    DivReaches(TWO_256, e, t + 1);
    assert e * (t + 1) == (t + 1) * e;
    DivReaches(TWO_256, t + 1, e);
  }

  lemma DivByNegative(a: int, b: int)
    requires a >= 0 && b < 0
    ensures a / b == -(a / -b)
  {
  }

  lemma NegativeQuotient(a: int, b: int)
    requires a < 0 && b > 0
    ensures a / b < 0
  {
  }

  /** An estimate above zero takes work in the window. */
  lemma EstimateSign(prev: BlockHeader, first: BlockHeader)
    ensures prev.chainWork < first.chainWork ==> WorkEstimate(prev, first) < 0
  {
    var w := prev.chainWork - first.chainWork;
    if w < 0 {
      NegativeQuotient(w * TARGET_SPACING, ClampedWindowTimespan(prev.time - first.time));
    }
  }

  lemma EstimateBelow(prev: BlockHeader, first: BlockHeader)
    requires prev.chainWork < TWO_256 && WorkEstimate(prev, first) > 0
    ensures WorkEstimate(prev, first) * 72 <= TWO_256
  {
    EstimateSign(prev, first);
    WorkEstimateBounds(prev, first);
  }

  /**
  The target for any window whatever, also one that starts off the branch, by the estimate: a panic
  exactly for 0 and -1, a target in range above, and below the quotient by its magnitude and one more.
  */
  lemma TargetOfAnyWindow(prev: BlockHeader, first: BlockHeader)
    requires prev.chainWork < TWO_256
    ensures var e, t := WorkEstimate(prev, first), TargetBitcoinCash(prev, first);
            && (t.None? <==> e == 0 || e == -1)
            && (e > 0 ==> 0 < t.value <= INITIAL_TARGET)
            && (e < -1 ==> t.value == TWO_256 / -e + 1)
  {
    var e := WorkEstimate(prev, first);
    if e > 0 {
      EstimateBelow(prev, first);
      DivReaches(TWO_256, e, 72);
    } else if e < 0 {
      DivByNegative(TWO_256, e);
      DivReaches(TWO_256, -e, TWO_256 / 2 + 1);
    }
  }

  /** So a window whose work goes down by 144 in no time asks for a target far above the initial one. */
  lemma TargetTooHigh(prev: BlockHeader, first: BlockHeader)
    requires prev.time == first.time && prev.chainWork == 1000 && first.chainWork == 1144
    ensures TargetBitcoinCash(prev, first) == Some(TWO_256 / 2 + 1) && TWO_256 / 2 + 1 > INITIAL_TARGET
  {
    TargetOfAnyWindow(prev, first);
  }

  // ----- every branch

  /** Cumulative work is the parent's plus the block's own, in 32 bytes. */
  ghost predicate WorkAdds(branch: seq<Block>) {
    forall i :: 1 <= i < |branch| ==>
      ChainWork(branch[i].header.target, branch[i - 1].header.chainWork) == Some(branch[i].header.chainWork)
  }

  /** The target a block on top of this branch must declare, its window taken from the branch itself. */
  function TargetOn(branch: seq<Block>): Option<nat>
    requires branch != []
  {
    var n := |branch| - 1;
    if n >= BITCOIN_CASH_RETARGET_ALGORITHM_HEIGHT then
      TargetBitcoinCash(branch[n].header, branch[n - RETARGET_SMA_WINDOW].header)
    else
      Some(TargetBitcoin(branch))
  }

  /** From height 28861 on a target is computed from the 144 blocks before, and up to there by the original rule. */
  lemma RetargetsOver144(branch: seq<Block>)
    requires branch != []
    ensures var n := |branch|;
            TargetOn(branch) == if n <= 28861 then Some(TargetBitcoin(branch))
                                else TargetBitcoinCash(branch[n - 1].header, branch[n - 145].header)
  {
  }

  ghost predicate TargetsFollow(branch: seq<Block>) {
    && (branch != [] ==> branch[0].header.target == INITIAL_TARGET)
    && forall i :: 1 <= i < |branch| ==> TargetOn(branch[..i]) == Some(branch[i].header.target)
  }

  ghost predicate InRange(target: nat, height: nat) {
    && 0 < target <= INITIAL_TARGET
    && (height <= BITCOIN_CASH_RETARGET_ALGORITHM_HEIGHT ==> target >= LeastTarget(height / RETARGET_INTERVAL))
  }

  lemma RangeFloor(target: nat, height: nat)
    requires InRange(target, height) && height <= BITCOIN_CASH_RETARGET_ALGORITHM_HEIGHT
    ensures target >= LEAST_EARLY_TARGET
  {
    LeastTargetMonotone(height / RETARGET_INTERVAL, 14);
    LeastTargetAt14();
  }

  lemma BitcoinStaysInRange(target: nat, height: nat, actual: int)
    requires InRange(target, height) && height < BITCOIN_CASH_RETARGET_ALGORITHM_HEIGHT
    ensures InRange(if (height + 1) % RETARGET_INTERVAL != 0 then target else Retarget(target, actual), height + 1)
  {
    var k := (height + 1) / RETARGET_INTERVAL;
    LeastTargetBelowInitial(k);
    LeastTargetMonotone(k, 14);
    LeastTargetAt14();
    if (height + 1) % RETARGET_INTERVAL == 0 {
      assert k == height / RETARGET_INTERVAL + 1;
      RetargetBounds(target, actual, LeastTarget(k));
    } else {
      assert k == height / RETARGET_INTERVAL;
    }
  }

  /** Work between two blocks of a branch grows with every block between them. */
  lemma {:induction false} WorkGrows(branch: seq<Block>, j: nat, i: nat)
    requires j <= i < |branch| && WorkAdds(branch)
    requires forall k :: j < k <= i ==> 0 < branch[k].header.target <= INITIAL_TARGET
    ensures branch[i].header.chainWork >= branch[j].header.chainWork + (i - j) * 0x1_0000_0000
  {
    if j < i {
      WorkGrows(branch, j, i - 1);
      BlockWorkOfInitial(branch[i].header.target);
    }
  }

  /** With targets of at most the initial one in its window, a retarget never divides by zero or overflows. */
  lemma RetargetIsDefined(branch: seq<Block>)
    requires branch != [] && WorkAdds(branch)
    requires forall k :: |branch| - RETARGET_SMA_WINDOW <= k < |branch| && 0 <= k ==>
               0 < branch[k].header.target <= INITIAL_TARGET
    ensures TargetOn(branch).Some?
    ensures |branch| > BITCOIN_CASH_RETARGET_ALGORITHM_HEIGHT ==> 71 <= TargetOn(branch).value <= INITIAL_TARGET
  {
    var n := |branch| - 1;
    if n >= BITCOIN_CASH_RETARGET_ALGORITHM_HEIGHT {
      var prev, j := branch[n].header, n - RETARGET_SMA_WINDOW;
      WorkGrows(branch, j, n);
      assert ChainWork(prev.target, branch[n - 1].header.chainWork) == Some(prev.chainWork);
      TargetBitcoinCashBounds(prev, branch[j].header);
    }
  }

  lemma NextInRange(branch: seq<Block>)
    requires branch != [] && WorkAdds(branch)
    requires forall k :: 0 <= k < |branch| ==> InRange(branch[k].header.target, k)
    ensures TargetOn(branch).Some? && InRange(TargetOn(branch).value, |branch|)
  {
    var n := |branch| - 1;
    var prev := branch[n].header;
    RetargetIsDefined(branch);
    if n < BITCOIN_CASH_RETARGET_ALGORITHM_HEIGHT {
      var first := if |branch| % RETARGET_INTERVAL == 0 then branch[n - BlocksToGoBack(n)].header else prev;
      BitcoinStaysInRange(prev.target, n, prev.time - first.time);
    }
  }

  lemma FollowerInRange(branch: seq<Block>, target: nat)
    requires branch != [] && WorkAdds(branch) && TargetOn(branch) == Some(target)
    requires forall k :: 0 <= k < |branch| ==> InRange(branch[k].header.target, k)
    ensures InRange(target, |branch|)
  {
    NextInRange(branch);
  }

  lemma LastInRange(branch: seq<Block>, part: seq<Block>, n: nat)
    requires 1 < n <= |branch| && part == branch[..n - 1] && WorkAdds(branch)
    requires TargetOn(part) == Some(branch[n - 1].header.target)
    requires forall k :: 0 <= k < n - 1 ==> InRange(branch[k].header.target, k)
    ensures InRange(branch[n - 1].header.target, n - 1)
  {
    FollowerInRange(part, branch[n - 1].header.target);
  }

  /** Every target of a branch is positive, at most the initial one, and bounded below at first. */
  lemma {:induction false} TargetsInRange(branch: seq<Block>, n: nat)
    requires n <= |branch| && WorkAdds(branch) && TargetsFollow(branch)
    ensures forall k :: 0 <= k < n ==> InRange(branch[k].header.target, k)
  {
    if n == 1 {
      FirstInRange();
    } else if n > 1 {
      TargetsInRange(branch, n - 1);
      LastInRange(branch, branch[..n - 1], n);
    }
  }

  lemma FirstInRange()
    ensures InRange(INITIAL_TARGET, 0)
  {
  }

  /** On top of every branch there is a target, and it is in range. */
  lemma NextTargetExists(branch: seq<Block>)
    requires branch != [] && WorkAdds(branch) && TargetsFollow(branch)
    ensures TargetOn(branch).Some? && InRange(TargetOn(branch).value, |branch|)
  {
    TargetsInRange(branch, |branch|);
    NextInRange(branch);
  }

  /** The work of blocks j + 1 to i. */
  ghost function WorkSum(branch: seq<Block>, j: nat, i: nat): nat
    requires j <= i < |branch|
    decreases i
  {
    if j == i then 0 else WorkSum(branch, j, i - 1) + BlockWork(branch[i].header.target)
  }

  lemma {:induction false} WorkSumsUp(branch: seq<Block>, j: nat, i: nat)
    requires j <= i < |branch| && WorkAdds(branch)
    ensures branch[i].header.chainWork == branch[j].header.chainWork + WorkSum(branch, j, i)
  {
    if j < i {
      WorkSumsUp(branch, j, i - 1);
    }
  }

  /** ChainWork is the sum of block works, and strictly increases along every branch. */
  lemma ChainWorkIncreases(branch: seq<Block>, j: nat, i: nat)
    requires j < i < |branch| && WorkAdds(branch) && TargetsFollow(branch)
    ensures branch[i].header.chainWork == branch[j].header.chainWork + WorkSum(branch, j, i)
    ensures branch[i].header.chainWork > branch[j].header.chainWork
  {
    WorkSumsUp(branch, j, i);
    TargetsInRange(branch, |branch|);
    WorkGrows(branch, j, i);
  }
}
