/**
The JSON form of a block header, which its ID is the hash of, as seventeen pieces: fixed text
and field values in turn.
*/
module HeaderJson {
  import opened Types

  const HDR_PREVIOUS := "{\"previous\":\""
  const HDR_HASH_LIST_ROOT := "\",\"hash_list_root\":\""
  const HDR_TIME := "\",\"time\":"
  const HDR_TARGET := ",\"target\":\""
  const HDR_CHAIN_WORK := "\",\"chain_work\":\""
  const HDR_NONCE := "\",\"nonce\":"
  const HDR_HEIGHT := ",\"height\":"
  const HDR_TRANSACTION_COUNT := ",\"transaction_count\":"
  const HDR_END := "}"

  /** Hexadecimal digits of a number in a fixed width: 64 for an ID. */
  function Hex(n: nat, width: nat): (s: string)
    ensures |s| == width
  {
    if width == 0 then "" else Hex(n / 16, width - 1) + ["0123456789abcdef"[n % 16]]
  }

  function Decimal(n: nat): (s: string)
    ensures |s| >= 1
  {
    if n < 10 then ["0123456789"[n]] else Decimal(n / 10) + ["0123456789"[n % 10]]
  }

  function Pow10(k: nat): (p: nat)
    ensures p >= 1
  {
    if k == 0 then 1 else 10 * Pow10(k - 1)
  }

  lemma {:induction false} DecimalFits(n: nat, k: nat)
    requires k >= 1 && n < Pow10(k)
    ensures |Decimal(n)| <= k
  {
    if n >= 10 {
      assert Pow10(1) == 10;
      DecimalFits(n / 10, k - 1);
    }
  }

  /** No number has a sign, and all are in the range of their Go types. */
  predicate Encodable(h: BlockHeader) {
    0 <= h.time < TWO_63 && 0 <= h.nonce < TWO_63 && 0 <= h.height < TWO_63 && 0 <= h.transactionCount < TWO_31
  }

  function Pieces(h: BlockHeader): (p: seq<string>)
    requires Encodable(h)
    ensures |p| == 17
  {
    [HDR_PREVIOUS, Hex(h.previous, 64),
     HDR_HASH_LIST_ROOT, Hex(h.hashListRoot, 64),
     HDR_TIME, Decimal(h.time),
     HDR_TARGET, Hex(h.target, 64),
     HDR_CHAIN_WORK, Hex(h.chainWork, 64),
     HDR_NONCE, Decimal(h.nonce),
     HDR_HEIGHT, Decimal(h.height),
     HDR_TRANSACTION_COUNT, Decimal(h.transactionCount),
     HDR_END]
  }

  /** Pieces j to k - 1, one after another. */
  function Join(p: seq<string>, j: nat, k: nat): string
    requires j <= k <= |p|
  {
    if j == k then "" else Join(p, j, k - 1) + p[k - 1]
  }

  /** What encoding/json makes of a header. */
  function Serialize(h: BlockHeader): string
    requires Encodable(h)
  {
    Join(Pieces(h), 0, 17)
  }

  lemma {:induction false} JoinSplit(p: seq<string>, i: nat, j: nat, k: nat)
    requires i <= j <= k <= |p|
    ensures Join(p, i, k) == Join(p, i, j) + Join(p, j, k)
  {
    if j < k {
      JoinSplit(p, i, j, k - 1);
    }
  }

  lemma {:induction false} JoinSame(p: seq<string>, q: seq<string>, j: nat, k: nat)
    requires j <= k <= |p| && k <= |q| && forall i :: j <= i < k ==> p[i] == q[i]
    ensures Join(p, j, k) == Join(q, j, k)
  {
    if j < k {
      JoinSame(p, q, j, k - 1);
    }
  }

  /** How long the first k pieces are. */
  function Offset(p: seq<string>, k: nat): nat
    requires k <= |p|
  {
    if k == 0 then 0 else Offset(p, k - 1) + |p[k - 1]|
  }

  lemma {:induction false} OffsetIsLength(p: seq<string>, k: nat)
    requires k <= |p|
    ensures |Join(p, 0, k)| == Offset(p, k)
  {
    if k > 0 {
      OffsetIsLength(p, k - 1);
    }
  }

  lemma {:induction false} OffsetGrows(p: seq<string>, j: nat, k: nat)
    requires j <= k <= |p|
    ensures Offset(p, j) <= Offset(p, k)
  {
    if j < k {
      OffsetGrows(p, j, k - 1);
    }
  }

  const BUFFER_LENGTH: nat :=
    |HDR_PREVIOUS| + |HDR_HASH_LIST_ROOT| + |HDR_TIME| + |HDR_TARGET| + |HDR_CHAIN_WORK| + |HDR_NONCE| +
    |HDR_HEIGHT| + |HDR_TRANSACTION_COUNT| + |HDR_END| + 4 * 64 + 3 * 19 + 10

  /** The buffer is long enough for every header. */
  lemma SerializeFits(h: BlockHeader)
    requires Encodable(h)
    ensures Offset(Pieces(h), 17) <= BUFFER_LENGTH
  {
    Pow10At19();
    DecimalFits(h.time, 19);
    DecimalFits(h.nonce, 19);
    DecimalFits(h.height, 19);
    DecimalFits(h.transactionCount, 10);
    OffsetAt(Pieces(h));
  }

  lemma Pow10At19()
    ensures Pow10(10) == 1_0000000000 && Pow10(19) == 1_000000000_0000000000
  {
    assert Pow10(4) == 10000;
    assert Pow10(7) == 10000000;
    assert Pow10(10) == 1_0000000000;
    assert Pow10(13) == 1_000_0000000000;
    assert Pow10(16) == 1_000000_0000000000;
  }

  lemma OffsetAt(p: seq<string>)
    requires |p| == 17
    ensures Offset(p, 17) == |p[0]| + |p[1]| + |p[2]| + |p[3]| + |p[4]| + |p[5]| + |p[6]| + |p[7]| + |p[8]| + |p[9]| +
                             |p[10]| + |p[11]| + |p[12]| + |p[13]| + |p[14]| + |p[15]| + |p[16]|
  {
    assert Offset(p, 1) == |p[0]|;
    assert Offset(p, 2) == |p[0]| + |p[1]|;
    assert Offset(p, 4) == Offset(p, 2) + |p[2]| + |p[3]|;
    assert Offset(p, 6) == Offset(p, 4) + |p[4]| + |p[5]|;
    assert Offset(p, 8) == Offset(p, 6) + |p[6]| + |p[7]|;
    assert Offset(p, 10) == Offset(p, 8) + |p[8]| + |p[9]|;
    assert Offset(p, 12) == Offset(p, 10) + |p[10]| + |p[11]|;
    assert Offset(p, 14) == Offset(p, 12) + |p[12]| + |p[13]|;
    assert Offset(p, 16) == Offset(p, 14) + |p[14]| + |p[15]|;
  }
}
