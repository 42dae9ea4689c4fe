/**
The header hasher of a miner: it keeps the serialized header in one fixed buffer and patches
the fields that change, shifting what follows only when a length changes.
*/
module HeaderHasher {
  import opened Types
  import opened HeaderJson

  // ----- writing left to right

  /** The first k pieces are in place, and nothing has been written beyond them. */
  ghost predicate Frontier(b: seq<char>, b0: seq<char>, p: seq<string>, k: nat)
    requires k <= |p|
  {
    Offset(p, k) <= |b0| && b == Join(p, 0, k) + b0[Offset(p, k)..]
  }

  /** The buffer starts with all the pieces. */
  ghost predicate Holding(b: seq<char>, p: seq<string>) {
    Offset(p, |p|) <= |b| && b[..Offset(p, |p|)] == Join(p, 0, |p|)
  }

  lemma Begin(b: seq<char>, p: seq<string>)
    ensures Frontier(b, b, p, 0)
  {
  }

  lemma End(b: seq<char>, b0: seq<char>, p: seq<string>)
    requires Frontier(b, b0, p, |p|)
    ensures Holding(b, p) && |b| == |b0|
  {
    OffsetIsLength(p, |p|);
  }

  /** Writing the next piece where the last one ended. */
  lemma Wrote(b: seq<char>, b0: seq<char>, p: seq<string>, k: nat, after: seq<char>)
    requires k < |p| && Frontier(b, b0, p, k) && Offset(p, k + 1) <= |b|
    requires after == b[..Offset(p, k)] + p[k] + b[Offset(p, k + 1)..]
    ensures Frontier(after, b0, p, k + 1)
  {
    OffsetIsLength(p, k);
    var w, v := Offset(p, k), Offset(p, k + 1);
    assert b[..w] == Join(p, 0, k);
    assert b[v..] == b0[w..][|p[k]|..] == b0[v..];
  }

  /** Pieces j to k - 1 are the same. */
  ghost predicate Same(p: seq<string>, q: seq<string>, j: nat, k: nat)
    requires k <= |p| && k <= |q|
  {
    forall i :: j <= i < k ==> p[i] == q[i]
  }

  lemma Assoc(a: string, b: string, c: string)
    ensures (a + b) + c == a + (b + c)
  {
  }

  /** Pieces that were there before, at the same place, need not be written. */
  lemma Skip(b: seq<char>, b0: seq<char>, p: seq<string>, q: seq<string>, k: nat, m: nat)
    requires k <= m <= |p| == |q| && Frontier(b, b0, q, k) && Holding(b0, p)
    requires Offset(p, k) == Offset(q, k) && Same(p, q, k, m)
    ensures Offset(p, m) == Offset(q, m) && Frontier(b, b0, q, m)
  {
    SameLengths(p, q, k, m);
    Middle(b0, p, k, m);
    JoinSame(p, q, k, m);
    JoinSplit(q, 0, k, m);
    var w, v := Offset(p, k), Offset(p, m);
    assert b0[w..] == b0[w..v] + b0[v..];
    Assoc(Join(q, 0, k), b0[w..v], b0[v..]);
  }

  lemma {:induction false} SameLengths(p: seq<string>, q: seq<string>, k: nat, m: nat)
    requires k <= m <= |p| == |q| && Same(p, q, k, m)
    ensures Offset(p, m) - Offset(p, k) == Offset(q, m) - Offset(q, k)
  {
    if k < m {
      SameLengths(p, q, k, m - 1);
    }
  }

  /** Where pieces k to m - 1 are. */
  lemma Middle(b: seq<char>, p: seq<string>, k: nat, m: nat)
    requires k <= m <= |p| && Holding(b, p)
    ensures Offset(p, k) <= Offset(p, m) <= |b| && b[Offset(p, k)..Offset(p, m)] == Join(p, k, m)
  {
    OffsetGrows(p, k, m);
    OffsetGrows(p, m, |p|);
    OffsetIsLength(p, k);
    OffsetIsLength(p, m);
    OffsetIsLength(p, |p|);
    JoinSplit(p, 0, m, |p|);
    JoinSplit(p, 0, k, m);
    var w, v, n := Offset(p, k), Offset(p, m), Offset(p, |p|);
    assert b[w..v] == b[..n][..v][w..];
    assert b[..n][..v] == Join(p, 0, m);
  }

  /** From the start to the hash list root. */
  function Fronts(h: BlockHeader): seq<string> {
    [HDR_PREVIOUS, Hex(h.previous, 64), HDR_HASH_LIST_ROOT]
  }

  /** From the target to the start of the nonce. */
  function Middles(h: BlockHeader): seq<string> {
    [HDR_TARGET, Hex(h.target, 64), HDR_CHAIN_WORK, Hex(h.chainWork, 64), HDR_NONCE]
  }

  /** From the height to the start of the transaction count. */
  function Heights(h: BlockHeader): seq<string>
    requires Encodable(h)
  {
    [HDR_HEIGHT, Decimal(h.height), HDR_TRANSACTION_COUNT]
  }

  /** Which pieces are the fields that change. */
  datatype Layout = Layout(root: nat, time: nat, nonce: nat, count: nat)

  const LAYOUT := Layout(3, 5, 11, 15)

  /** The pieces of a header, field by field. */
  ghost predicate Laid(p: seq<string>, h: BlockHeader, at: Layout)
    requires Encodable(h)
  {
    && at.root < at.time < at.nonce < at.count < |p| - 1
    && p[0..at.root] == Fronts(h)
    && p[at.root] == Hex(h.hashListRoot, 64) && p[at.root + 1..at.time] == [HDR_TIME]
    && p[at.time] == Decimal(h.time) && p[at.time + 1..at.nonce] == Middles(h)
    && p[at.nonce] == Decimal(h.nonce) && p[at.nonce + 1..at.count] == Heights(h)
    && p[at.count] == Decimal(h.transactionCount) && p[at.count + 1..] == [HDR_END]
  }

  lemma PiecesLaid(h: BlockHeader)
    requires Encodable(h)
    ensures Laid(Pieces(h), h, LAYOUT)
  {
    var p := Pieces(h);
    assert p[0..3] == Fronts(h);
    assert p[4..5] == [HDR_TIME];
    assert p[6..11] == Middles(h);
    assert p[12..15] == Heights(h);
    assert p[16..] == [HDR_END];
  }

  /** Headers with the same fixed fields differ only in the pieces of the fields that change. */
  lemma SamePieces(h: BlockHeader, g: BlockHeader)
    requires Encodable(h) && Encodable(g) && SameFixed(h, g)
    ensures SameBetween(Pieces(h), Pieces(g), LAYOUT)
  {
  }

  ghost predicate SameBetween(p: seq<string>, q: seq<string>, l: Layout)
    requires l.root < l.time < l.nonce < l.count < |p| == |q|
  {
    && Same(p, q, 0, l.root) && Same(p, q, l.root + 1, l.time) && Same(p, q, l.time + 1, l.nonce)
    && Same(p, q, l.nonce + 1, l.count) && Same(p, q, l.count + 1, |p|)
  }

  /** Only time, nonce, hash list root and transaction count change while a header is mined. */
  predicate SameFixed(h: BlockHeader, g: BlockHeader) {
    h.previous == g.previous && h.target == g.target && h.chainWork == g.chainWork && h.height == g.height
  }

  class BlockHeaderHasher {
    const deviceMining: bool
    var previousHashListRoot: nat
    var previousTime: int
    var previousNonce: int
    var previousTransactionCount: int
    var hashListRootOffset: int
    var timeOffset: int
    var nonceOffset: int
    var transactionCountOffset: int
    var timeLen: int
    var nonceLen: int
    var txCountLen: int
    var initialized: bool
    var bufLen: int
    const buffer: array<char>
    ghost var shown: BlockHeader  // the header that the buffer holds

    constructor (deviceMining: bool, ghost h: BlockHeader)
      ensures Valid() && !initialized && this.deviceMining == deviceMining && fresh(buffer)
    {
      this.deviceMining := deviceMining;
      previousHashListRoot, previousTime, previousNonce, previousTransactionCount := 0, 0, 0, 0;
      hashListRootOffset, timeOffset, nonceOffset, transactionCountOffset := 0, 0, 0, 0;
      timeLen, nonceLen, txCountLen, bufLen := 0, 0, 0, 0;
      initialized := false;
      buffer := new char[BUFFER_LENGTH];
      shown := h;
    }

    ghost predicate Valid()
      reads this, buffer
    {
      && buffer.Length == BUFFER_LENGTH
      && (initialized ==>
            && Encodable(shown) && Holding(buffer[..], Pieces(shown))
            && Tracks(Pieces(shown), LAYOUT) && Remembers(shown))
    }

    /** The offsets and lengths are those of these pieces. */
    ghost predicate Tracks(p: seq<string>, at: Layout)
      requires at.root < at.time < at.nonce < at.count < |p|
      reads this
    {
      && hashListRootOffset == Offset(p, at.root)
      && timeOffset == Offset(p, at.time) && timeLen == |p[at.time]|
      && nonceOffset == Offset(p, at.nonce) && nonceLen == |p[at.nonce]|
      && transactionCountOffset == Offset(p, at.count) && txCountLen == |p[at.count]|
      && bufLen == Offset(p, |p|)
    }

    ghost predicate Remembers(h: BlockHeader)
      reads this
    {
      && previousHashListRoot == h.hashListRoot && previousTime == h.time
      && previousNonce == h.nonce && previousTransactionCount == h.transactionCount
    }

    /** Write the next piece into the buffer: `copy`, `append` and the encoders, which never outgrow it. */
    method Write(at: int, piece: string, ghost b0: seq<char>, ghost p: seq<string>, ghost k: nat) returns (end: int)
      requires k < |p| && Frontier(buffer[..], b0, p, k) && at == Offset(p, k) && piece == p[k]
      requires Offset(p, |p|) <= buffer.Length
      modifies buffer
      ensures Frontier(buffer[..], b0, p, k + 1) && end == Offset(p, k + 1) == at + |piece|
    {
      OffsetGrows(p, k + 1, |p|);
      ghost var b := buffer[..];
      forall i | 0 <= i < |piece| {
        buffer[at + i] := piece[i];
      }
      assert buffer[..] == b[..at] + piece + b[at + |piece|..];
      Wrote(b, b0, p, k, buffer[..]);
      end := at + |piece|;
    }

    /** Write pieces k to m - 1. */
    method WriteAll(at: int, pieces: seq<string>, ghost b0: seq<char>, ghost p: seq<string>, ghost k: nat, ghost m: nat)
        returns (end: int)
      requires k <= m <= |p| && Frontier(buffer[..], b0, p, k) && at == Offset(p, k) && pieces == p[k..m]
      requires Offset(p, |p|) <= buffer.Length
      modifies buffer
      ensures Frontier(buffer[..], b0, p, m) && end == Offset(p, m)
    {
      end := at;
      var i := 0;
      while i < |pieces|
        invariant 0 <= i <= |pieces| && Frontier(buffer[..], b0, p, k + i) && end == Offset(p, k + i)
      {
        end := Write(end, pieces[i], b0, p, k + i);
        i := i + 1;
      }
    }

    /** Write the text before a field, then the field. */
    method WriteField(at: int, lead: seq<string>, value: string, ghost b0: seq<char>, ghost p: seq<string>,
            ghost k: nat, ghost m: nat)
        returns (offset: int, end: int)
      requires k <= m < |p| && Frontier(buffer[..], b0, p, k) && at == Offset(p, k) && lead == p[k..m] && value == p[m]
      requires Offset(p, |p|) <= buffer.Length
      modifies buffer
      ensures Frontier(buffer[..], b0, p, m + 1) && offset == Offset(p, m) && end == Offset(p, m + 1) == offset + |p[m]|
    {
      offset := WriteAll(at, lead, b0, p, k, m);
      end := Write(offset, value, b0, p, m);
    }

    /** Serialize the whole header. */
    method InitBuffer(header: BlockHeader)
      requires buffer.Length == BUFFER_LENGTH && Encodable(header)
      modifies this, buffer
      ensures Valid() && initialized && shown == header
    {
      ghost var p := Pieces(header);
      ghost var b0 := buffer[..];
      SerializeFits(header);
      Begin(b0, p);
      previousHashListRoot, previousTime := header.hashListRoot, header.time;
      previousNonce, previousTransactionCount := header.nonce, header.transactionCount;
      PiecesLaid(header);
      InitFields(header, b0, p, LAYOUT);
      End(buffer[..], b0, p);
      initialized := true;
      shown := header;
    }

    method InitFront(header: BlockHeader, ghost b0: seq<char>, ghost p: seq<string>, ghost l: Layout)
        returns (root: int, time: int, timeEnd: int)
      requires Encodable(header) && Laid(p, header, l) && Offset(p, |p|) <= buffer.Length
      requires Frontier(buffer[..], b0, p, 0)
      modifies buffer
      ensures Frontier(buffer[..], b0, p, l.time + 1)
      ensures root == Offset(p, l.root) && time == Offset(p, l.time)
      ensures timeEnd == Offset(p, l.time + 1) == time + |p[l.time]|
    {
      var rootEnd;
      root, rootEnd := WriteField(0, Fronts(header), Hex(header.hashListRoot, 64), b0, p, 0, l.root);
      time, timeEnd := WriteField(rootEnd, [HDR_TIME], Decimal(header.time), b0, p, l.root + 1, l.time);
    }

    method InitFields(header: BlockHeader, ghost b0: seq<char>, ghost p: seq<string>, ghost l: Layout)
      requires Encodable(header) && Laid(p, header, l) && Offset(p, |p|) <= buffer.Length
      requires Frontier(buffer[..], b0, p, 0)
      modifies this`hashListRootOffset, this`timeOffset, this`timeLen, this`nonceOffset, this`nonceLen,
               this`transactionCountOffset, this`txCountLen, this`bufLen, buffer
      ensures Frontier(buffer[..], b0, p, |p|) && Tracks(p, l)
    {
      var root, time, timeEnd := InitFront(header, b0, p, l);
      var nonce, nonceEnd := WriteField(timeEnd, Middles(header), Decimal(header.nonce), b0, p, l.time + 1, l.nonce);
      var count, countEnd := WriteField(nonceEnd, Heights(header), Decimal(header.transactionCount),
          b0, p, l.nonce + 1, l.count);
      var end := WriteAll(countEnd, [HDR_END], b0, p, l.count + 1, |p|);
      SetOffsets(root, time, timeEnd - time, nonce, nonceEnd - nonce, count, countEnd - count, end);
    }

    method SetOffsets(root: int, time: int, timeLen: int, nonce: int, nonceLen: int, count: int, countLen: int,
            end: int)
      modifies this`hashListRootOffset, this`timeOffset, this`timeLen, this`nonceOffset, this`nonceLen,
               this`transactionCountOffset, this`txCountLen, this`bufLen
      ensures hashListRootOffset == root && timeOffset == time && this.timeLen == timeLen && nonceOffset == nonce
      ensures this.nonceLen == nonceLen && transactionCountOffset == count && txCountLen == countLen && bufLen == end
    {
      hashListRootOffset, timeOffset, this.timeLen, nonceOffset := root, time, timeLen, nonce;
      this.nonceLen, transactionCountOffset, txCountLen, bufLen := nonceLen, count, countLen, end;
    }

    // ----- patching what changed

    /** The buffer held these pieces, and is to hold those. */
    ghost predicate Patching(b0: seq<char>, p: seq<string>, q: seq<string>, k: nat)
      reads buffer
    {
      && |p| == |q| && k <= |p| && Offset(q, |q|) <= buffer.Length == |b0|
      && Holding(b0, p) && Frontier(buffer[..], b0, q, k)
    }

    method PatchRoot(header: BlockHeader, ghost b0: seq<char>, ghost p: seq<string>, ghost q: seq<string>,
            ghost l: Layout)
        returns (changed: bool)
      requires Patching(b0, p, q, 0) && l.root < l.time < |p|
      requires Same(p, q, 0, l.root) && Same(p, q, l.root + 1, l.time) && hashListRootOffset == Offset(p, l.root)
      requires p[l.root] == Hex(previousHashListRoot, 64) && q[l.root] == Hex(header.hashListRoot, 64)
      modifies this`previousHashListRoot, buffer
      ensures Patching(b0, p, q, l.time) && Offset(p, l.time) == Offset(q, l.time)
      ensures previousHashListRoot == header.hashListRoot
      ensures !changed ==> buffer[..] == old(buffer[..])
    {
      changed := false;
      Skip(buffer[..], b0, p, q, 0, l.root);
      if previousHashListRoot != header.hashListRoot {
        changed := true;
        previousHashListRoot := header.hashListRoot;
        var _ := Write(hashListRootOffset, Hex(header.hashListRoot, 64), b0, q, l.root);
      } else {
        Skip(buffer[..], b0, p, q, l.root, l.root + 1);
      }
      Skip(buffer[..], b0, p, q, l.root + 1, l.time);
    }

    /** Write a field, and what follows it up to the next one if anything has shifted. */
    method Rewrite(at: int, oldLen: int, shift: int, value: string, tail: seq<string>,
                   ghost b0: seq<char>, ghost p: seq<string>, ghost q: seq<string>, ghost k: nat, ghost m: nat)
        returns (newLen: int, offset: int)
      requires Patching(b0, p, q, k) && k < m <= |p| && Same(p, q, k + 1, m) && value == q[k] && tail == q[k + 1..m]
      requires at == Offset(q, k) && oldLen == |p[k]| && shift == Offset(q, k) - Offset(p, k)
      modifies buffer
      ensures Patching(b0, p, q, m) && newLen == |q[k]|
      ensures offset == shift + newLen - oldLen == Offset(q, m) - Offset(p, m)
    {
      SameLengths(p, q, k + 1, m);
      var end := Write(at, value, b0, q, k);
      newLen := end - at;
      offset := shift + newLen - oldLen;
      if offset != 0 {
        var _ := WriteAll(end, tail, b0, q, k + 1, m);
      } else {
        Skip(buffer[..], b0, p, q, k + 1, m);
      }
    }

    method PatchTime(header: BlockHeader, tail: seq<string>, ghost b0: seq<char>, ghost p: seq<string>,
            ghost q: seq<string>, ghost l: Layout)
        returns (offset: int, changed: bool)
      requires Patching(b0, p, q, l.time) && l.time < l.nonce < |p| && Same(p, q, l.time + 1, l.nonce)
      requires timeOffset == Offset(p, l.time) == Offset(q, l.time) && timeLen == |p[l.time]|
      requires 0 <= previousTime && p[l.time] == Decimal(previousTime)
      requires 0 <= header.time && q[l.time] == Decimal(header.time) && q[l.time + 1..l.nonce] == tail
      modifies this`previousTime, this`timeLen, buffer
      ensures Patching(b0, p, q, l.nonce) && offset == Offset(q, l.nonce) - Offset(p, l.nonce)
      ensures offset == |q[l.time]| - |p[l.time]| && timeLen == |q[l.time]| && previousTime == header.time
      ensures !changed ==> buffer[..] == old(buffer[..]) && offset == 0
    {
      offset, changed := 0, false;
      if previousTime != header.time {
        changed, previousTime := true, header.time;
        timeLen, offset := Rewrite(timeOffset, timeLen, 0, Decimal(header.time), tail, b0, p, q, l.time, l.nonce);
      } else {
        Skip(buffer[..], b0, p, q, l.time, l.nonce);
      }
    }

    /** The nonce that the buffer is to hold: a device leaves the old one unless it has to move. */
    function NextNonce(header: BlockHeader, offset: int): int
      reads this`previousNonce
    {
      if offset != 0 || (!deviceMining && previousNonce != header.nonce) then header.nonce else previousNonce
    }

    method PatchNonce(header: BlockHeader, shift: int, tail: seq<string>, ghost b0: seq<char>, ghost p: seq<string>,
            ghost q: seq<string>, ghost l: Layout)
        returns (offset: int, changed: bool)
      requires Encodable(header) && Patching(b0, p, q, l.nonce)
      requires l.nonce < l.count < |p| && Same(p, q, l.nonce + 1, l.count)
      requires nonceOffset == Offset(p, l.nonce) && nonceLen == |p[l.nonce]|
      requires shift == Offset(q, l.nonce) - Offset(p, l.nonce)
      requires 0 <= previousNonce && p[l.nonce] == Decimal(previousNonce)
      requires q[l.nonce] == Decimal(NextNonce(header, shift)) && q[l.nonce + 1..l.count] == tail
      modifies this`previousNonce, this`nonceOffset, this`nonceLen, buffer
      ensures Patching(b0, p, q, l.count) && offset == Offset(q, l.count) - Offset(p, l.count)
      ensures nonceOffset == Offset(q, l.nonce) && nonceLen == |q[l.nonce]|
      ensures previousNonce == old(NextNonce(header, shift))
      ensures !changed ==> buffer[..] == old(buffer[..]) && offset == shift == 0
      ensures !changed ==> nonceOffset == old(nonceOffset) && nonceLen == old(nonceLen)
    {
      offset, changed := shift, false;
      if offset != 0 || (!deviceMining && previousNonce != header.nonce) {
        changed, previousNonce, nonceOffset := true, header.nonce, nonceOffset + offset;
        nonceLen, offset := Rewrite(nonceOffset, nonceLen, offset, Decimal(header.nonce), tail,
            b0, p, q, l.nonce, l.count);
      } else {
        Skip(buffer[..], b0, p, q, l.nonce, l.count);
      }
    }

    method PatchCount(header: BlockHeader, shift: int, tail: seq<string>, ghost b0: seq<char>, ghost p: seq<string>,
            ghost q: seq<string>, ghost l: Layout)
        returns (offset: int, changed: bool)
      requires Encodable(header) && Patching(b0, p, q, l.count) && l.count < |p| - 1 && Same(p, q, l.count + 1, |p|)
      requires transactionCountOffset == Offset(p, l.count) && txCountLen == |p[l.count]|
      requires shift == Offset(q, l.count) - Offset(p, l.count)
      requires 0 <= previousTransactionCount && p[l.count] == Decimal(previousTransactionCount)
      requires q[l.count] == Decimal(header.transactionCount) && q[l.count + 1..] == tail
      modifies this`previousTransactionCount, this`transactionCountOffset, this`txCountLen, buffer
      ensures Patching(b0, p, q, |q|) && offset == Offset(q, |q|) - Offset(p, |p|)
      ensures transactionCountOffset == Offset(q, l.count) && txCountLen == |q[l.count]|
      ensures previousTransactionCount == header.transactionCount
      ensures !changed ==> buffer[..] == old(buffer[..]) && offset == shift == 0
    {
      offset, changed := shift, false;
      if offset != 0 || previousTransactionCount != header.transactionCount {
        changed, previousTransactionCount, transactionCountOffset := true, header.transactionCount,
            transactionCountOffset + offset;
        txCountLen, offset := Rewrite(transactionCountOffset, txCountLen, offset, Decimal(header.transactionCount),
            tail, b0, p, q, l.count, |q|);
      } else {
        Skip(buffer[..], b0, p, q, l.count, |q|);
      }
    }

    /** Root and time. */
    method PatchLeft(header: BlockHeader, middles: seq<string>, ghost h: BlockHeader,
                     ghost b0: seq<char>, ghost p: seq<string>, ghost q: seq<string>,
                             ghost l: Layout) returns (offset: int, changed: bool)
      requires Patching(b0, p, q, 0) && l.root < l.time < l.nonce < l.count < |p| - 1 && SameBetween(p, q, l)
      requires Encodable(header) && Encodable(h) && Tracks(p, l) && Remembers(h)
      requires p[l.root] == Hex(h.hashListRoot, 64) && p[l.time] == Decimal(h.time)
      requires q[l.root] == Hex(header.hashListRoot, 64) && q[l.time] == Decimal(header.time)
      requires q[l.time + 1..l.nonce] == middles
      modifies this`previousHashListRoot, this`previousTime, this`timeLen, buffer
      ensures Patching(b0, p, q, l.nonce) && offset == Offset(q, l.nonce) - Offset(p, l.nonce)
      ensures offset == |q[l.time]| - |p[l.time]| && timeLen == |q[l.time]|
      ensures hashListRootOffset == Offset(q, l.root) && timeOffset == Offset(q, l.time)
      ensures previousHashListRoot == header.hashListRoot && previousTime == header.time
      ensures !changed ==> buffer[..] == old(buffer[..]) && offset == 0
    {
      SameLengths(p, q, 0, l.root);
      var rootChanged := PatchRoot(header, b0, p, q, l);
      offset, changed := PatchTime(header, middles, b0, p, q, l);
      changed := rootChanged || changed;
    }

    /** Nonce and transaction count. */
    method PatchRight(header: BlockHeader, shift: int, heights: seq<string>, end: seq<string>, ghost h: BlockHeader,
                      ghost b0: seq<char>, ghost p: seq<string>, ghost q: seq<string>, ghost l: Layout)
              returns (changed: bool)
      requires l.root < l.time < l.nonce < l.count < |p| - 1 && Patching(b0, p, q, l.nonce) && SameBetween(p, q, l)
      requires Encodable(header) && Encodable(h)
      requires previousNonce == h.nonce && previousTransactionCount == h.transactionCount
      requires nonceOffset == Offset(p, l.nonce) && nonceLen == |p[l.nonce]| && bufLen == Offset(p, |p|)
      requires transactionCountOffset == Offset(p, l.count) && txCountLen == |p[l.count]|
      requires shift == Offset(q, l.nonce) - Offset(p, l.nonce)
      requires p[l.nonce] == Decimal(h.nonce) && p[l.count] == Decimal(h.transactionCount)
      requires q[l.nonce] == Decimal(NextNonce(header, shift)) && q[l.count] == Decimal(header.transactionCount)
      requires q[l.nonce + 1..l.count] == heights && q[l.count + 1..] == end
      modifies this`previousNonce, this`nonceOffset, this`nonceLen,
               this`previousTransactionCount, this`transactionCountOffset, this`txCountLen, this`bufLen, buffer
      ensures Patching(b0, p, q, |q|) && nonceOffset == Offset(q, l.nonce)
      ensures nonceLen == |q[l.nonce]| && bufLen == Offset(q, |q|)
      ensures transactionCountOffset == Offset(q, l.count) && txCountLen == |q[l.count]|
      ensures previousNonce == old(NextNonce(header, shift)) && previousTransactionCount == header.transactionCount
      ensures !changed ==> buffer[..] == old(buffer[..]) && bufLen == old(bufLen)
      ensures !changed ==> nonceOffset == old(nonceOffset) && nonceLen == old(nonceLen)
    {
      var offset, nonceChanged := PatchNonce(header, shift, heights, b0, p, q, l);
      offset, changed := PatchCount(header, offset, end, b0, p, q, l);
      bufLen := bufLen + offset;
      changed := nonceChanged || changed;
    }

    /** Field by field, from left to right. */
    method PatchFields(header: BlockHeader, ghost h: BlockHeader, ghost next: BlockHeader,
                       ghost b0: seq<char>, ghost p: seq<string>, ghost q: seq<string>, ghost l: Layout)
               returns (changed: bool)
      requires Encodable(header) && Encodable(h) && Encodable(next) && next == Next(header)
      requires Laid(p, h, l) && Laid(q, next, l) && Tracks(p, l) && Remembers(h)
      requires Patching(b0, p, q, 0) && SameBetween(p, q, l) && SameFixed(header, next)
      modifies this`previousHashListRoot, this`previousTime, this`timeLen, this`previousNonce,
        this`nonceOffset, this`nonceLen,
               this`previousTransactionCount, this`transactionCountOffset, this`txCountLen, this`bufLen, buffer
      ensures Patching(b0, p, q, |q|) && Tracks(q, l) && Remembers(next)
      ensures !changed ==> buffer[..] == old(buffer[..]) && bufLen == old(bufLen)
      ensures !changed ==> nonceOffset == old(nonceOffset) && nonceLen == old(nonceLen)
    {
      var offset, leftChanged := PatchLeft(header, Middles(header), h, b0, p, q, l);
      changed := PatchRight(header, offset, Heights(header), [HDR_END], h, b0, p, q, l);
      changed := leftChanged || changed;
    }

    /** Bring the buffer up to date with the header; says whether anything was written. */
    method Patch(header: BlockHeader) returns (changed: bool)
      requires Valid() && initialized && Encodable(header) && SameFixed(shown, header)
      modifies this, buffer
      ensures Valid() && initialized
      ensures shown == header.(nonce := shown.nonce) && (!deviceMining ==> shown.nonce == header.nonce)
      ensures !changed ==> buffer[..] == old(buffer[..]) && bufLen == old(bufLen)
      ensures !changed ==> nonceOffset == old(nonceOffset) && nonceLen == old(nonceLen)
    {
      ghost var next := Next(header);
      ghost var b0, p, q := buffer[..], Pieces(shown), Pieces(next);
      PiecesLaid(shown);
      PiecesLaid(next);
      SamePieces(shown, next);
      SerializeFits(next);
      Begin(b0, q);
      changed := PatchFields(header, shown, next, b0, p, q, LAYOUT);
      End(buffer[..], b0, q);
      shown := next;
    }

    /** The header that the buffer will hold. */
    ghost function Next(header: BlockHeader): BlockHeader
      requires 0 <= header.time
      reads this
    {
      header.(nonce := NextNonce(header, |Decimal(header.time)| - timeLen))
    }
  }
}
