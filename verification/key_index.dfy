/**
The public key transaction index as a sorted database: keys whose byte order is the order of
height and index, and scans of it that can stop anywhere and be resumed.
*/
module KeyIndex {
  import opened Types
  import opened LedgerModel
  import opened History

  type Byte = x: int | 0 <= x < 256

  const PUBKEY_TRANSACTION_INDEX_PREFIX: Byte := 0x6b

  // ----- byte order

  /** Byte strings in lexicographic order, as the database sorts its keys. */
  predicate Less(a: seq<Byte>, b: seq<Byte>) {
    if b == [] then false
    else if a == [] then true
    else if a[0] != b[0] then a[0] < b[0]
    else Less(a[1..], b[1..])
  }

  lemma {:induction false} LessIrreflexive(a: seq<Byte>)
    ensures !Less(a, a)
  {
    if a != [] {
      LessIrreflexive(a[1..]);
    }
  }

  /** Strings with heads of the same length: the heads decide, or else the tails. */
  lemma {:induction false} LessConcat(a: seq<Byte>, b: seq<Byte>, x: seq<Byte>, y: seq<Byte>)
    requires |a| == |b|
    ensures Less(a + x, b + y) <==> Less(a, b) || (a == b && Less(x, y))
  {
    if a == [] {
      assert a + x == x && b + y == y;
    } else {
      LessConcat(a[1..], b[1..], x, y);
      assert (a + x)[1..] == a[1..] + x && (b + y)[1..] == b[1..] + y;
      assert a == [a[0]] + a[1..] && b == [b[0]] + b[1..];
      if a[0] == b[0] {
        LessIrreflexive(a);
      }
    }
  }

  function Pow256(w: nat): nat {
    if w == 0 then 1 else 256 * Pow256(w - 1)
  }

  /** Big-endian bytes. */
  function Encode(n: nat, w: nat): (s: seq<Byte>)
    ensures |s| == w
  {
    if w == 0 then [] else Encode(n / 256, w - 1) + [n % 256]
  }

  /** Byte order is number order. */
  lemma {:induction false} EncodeOrder(n: nat, m: nat, w: nat)
    requires n < Pow256(w) && m < Pow256(w)
    ensures Less(Encode(n, w), Encode(m, w)) <==> n < m
    ensures Encode(n, w) == Encode(m, w) <==> n == m
  {
    if w > 0 {
      var a, b, x, y := Encode(n / 256, w - 1), Encode(m / 256, w - 1), n % 256, m % 256;
      EncodeOrder(n / 256, m / 256, w - 1);
      LessConcat(a, b, [x], [y]);
      LessOne(x, y);
      assert a + [x] == b + [y] <==> a == b && x == y by {
        PushEqual(a, b, x, y);
      }
    }
  }

  lemma LessOne(x: Byte, y: Byte)
    ensures Less([x], [y]) <==> x < y
  {
    LessIrreflexive([x]);
  }

  lemma PushEqual(a: seq<Byte>, b: seq<Byte>, x: Byte, y: Byte)
    requires |a| == |b|
    ensures a + [x] == b + [y] <==> a == b && x == y
  {
    if a + [x] == b + [y] {
      assert (a + [x])[..|a|] == a && (b + [y])[..|a|] == b;
      assert (a + [x])[|a|] == x && (b + [y])[|a|] == y;
    }
  }

  // ----- keys

  lemma Pow256At()
    ensures Pow256(4) == TWO_32 && Pow256(8) == TWO_64
  {
    assert Pow256(2) == 0x1_0000;
    assert Pow256(6) == 0x1_0000_0000_0000;
  }

  /** A public key in 32 bytes. */
  function KeyBytes(key: PublicKey): seq<Byte> {
    [PUBKEY_TRANSACTION_INDEX_PREFIX] + Encode(key, 32)
  }

  /** The two's complement bytes of an int64 height and an int32 index, whatever they are. */
  function HeightBytes(height: int): seq<Byte> {
    Encode(height % TWO_64, 8)
  }

  function IndexBytes(index: int): seq<Byte> {
    Encode(index % TWO_32, 4)
  }

  /** The database key of an entry; and of a height without an index. */
  function EntryKey(key: PublicKey, height: int, index: int): seq<Byte> {
    KeyBytes(key) + (HeightBytes(height) + IndexBytes(index))
  }

  function HeightKey(key: PublicKey, height: int): seq<Byte> {
    KeyBytes(key) + (HeightBytes(height) + [])
  }

  predicate Storable(e: KeyEntry) {
    e.key < Pow256(32) && 0 <= e.height < TWO_63 && 0 <= e.index < TWO_31
  }

  lemma KeyBytesDiffer(a: PublicKey, b: PublicKey)
    requires a < Pow256(32) && b < Pow256(32)
    ensures KeyBytes(a) == KeyBytes(b) <==> a == b
    ensures Less(KeyBytes(a), KeyBytes(b)) <==> a < b
  {
    EncodeOrder(a, b, 32);
    var p := [PUBKEY_TRANSACTION_INDEX_PREFIX];
    LessConcat(p, p, Encode(a, 32), Encode(b, 32));
    LessIrreflexive(p);
    assert KeyBytes(a)[1..] == Encode(a, 32) && KeyBytes(b)[1..] == Encode(b, 32);
  }

  /** Three parts, each of a fixed length but the last. */
  lemma ThreeParts(a: seq<Byte>, b: seq<Byte>, h: seq<Byte>, g: seq<Byte>, i: seq<Byte>, j: seq<Byte>)
    requires |a| == |b| && |h| == |g|
    ensures Less(a + (h + i), b + (g + j)) <==> Less(a, b) || (a == b && (Less(h, g) || (h == g && Less(i, j))))
  {
    LessConcat(h, g, i, j);
    LessConcat(a, b, h + i, g + j);
  }

  lemma SmallMod(a: nat, m: nat)
    requires a < m
    ensures a % m == a
  {
  }

  /** How heights and indices read once they are written: as unsigned numbers of 64 and 32 bits. */
  function Unsigned64(height: int): nat {
    height % TWO_64
  }

  function Unsigned32(index: int): nat {
    index % TWO_32
  }

  predicate Int64(n: int) {
    0 <= n + TWO_63 < TWO_64
  }

  lemma UnsignedIs(height: int)
    requires 0 <= height + TWO_64 && height < TWO_64
    ensures Unsigned64(height) == if height < 0 then height + TWO_64 else height
  {
    SmallMod(if height < 0 then height + TWO_64 else height, TWO_64);
  }

  lemma HeightOrder(a: int, b: int)
    ensures Less(HeightBytes(a), HeightBytes(b)) <==> Unsigned64(a) < Unsigned64(b)
    ensures HeightBytes(a) == HeightBytes(b) <==> Unsigned64(a) == Unsigned64(b)
  {
    Pow256At();
    EncodeOrder(Unsigned64(a), Unsigned64(b), 8);
  }

  lemma IndexOrder(a: int, b: int)
    ensures Less(IndexBytes(a), IndexBytes(b)) <==> Unsigned32(a) < Unsigned32(b)
  {
    Pow256At();
    EncodeOrder(Unsigned32(a), Unsigned32(b), 4);
  }

  lemma StorableIs(e: KeyEntry)
    requires Storable(e)
    ensures Unsigned64(e.height) == e.height && Unsigned32(e.index) == e.index
  {
    SmallMod(e.height, TWO_64);
    SmallMod(e.index, TWO_32);
  }

  /** Entries against any position of a key, whatever its numbers are. */
  lemma EntryOrder(e: KeyEntry, key: PublicKey, height: int, index: int)
    requires Storable(e) && key < Pow256(32)
    ensures var h, i := Unsigned64(height), Unsigned32(index);
            Less(KeyOf(e), EntryKey(key, height, index)) <==>
              e.key < key || (e.key == key && (e.height < h || (e.height == h && e.index < i)))
  {
    StorableIs(e);
    KeyBytesDiffer(e.key, key);
    HeightOrder(e.height, height);
    IndexOrder(e.index, index);
    ThreeParts(KeyBytes(e.key), KeyBytes(key), HeightBytes(e.height), HeightBytes(height), IndexBytes(e.index),
        IndexBytes(index));
  }

  lemma EntryBelowHeight(e: KeyEntry, key: PublicKey, height: int)
    requires Storable(e) && key < Pow256(32)
    ensures Less(KeyOf(e), HeightKey(key, height)) <==>
              e.key < key || (e.key == key && e.height < Unsigned64(height))
  {
    StorableIs(e);
    KeyBytesDiffer(e.key, key);
    HeightOrder(e.height, height);
    ThreeParts(KeyBytes(e.key), KeyBytes(key), HeightBytes(e.height), HeightBytes(height), IndexBytes(e.index), []);
  }

  lemma EntryFromKey(e: KeyEntry, key: PublicKey)
    requires Storable(e) && key < Pow256(32)
    ensures Less(KeyOf(e), KeyBytes(key)) <==> e.key < key
  {
    KeyBytesDiffer(e.key, key);
    LessConcat(KeyBytes(e.key), KeyBytes(key), HeightBytes(e.height) + IndexBytes(e.index), []);
    assert KeyBytes(key) + [] == KeyBytes(key);
  }

  /** From a bare key to one past any int64 height: with a wrapped or negative limit, all of the key's entries. */
  lemma UpToHeight(e: KeyEntry, key: PublicKey, height: int)
    requires Storable(e) && key < Pow256(32) && Int64(height)
    ensures !Less(KeyOf(e), KeyBytes(key)) && Less(KeyOf(e), HeightKey(key, height + 1)) <==>
              e in Asked({e}, height) && e.key == key
  {
    EntryFromKey(e, key);
    EntryBelowHeight(e, key, height + 1);
    UnsignedIs(height + 1);
  }

  // ----- the database

  function KeyOf(e: KeyEntry): seq<Byte> {
    EntryKey(e.key, e.height, e.index)
  }

  function Decode(s: seq<Byte>): nat {
    if s == [] then 0 else Decode(s[..|s| - 1]) * 256 + s[|s| - 1]
  }

  lemma {:induction false} DecodeEncode(n: nat, w: nat)
    requires n < Pow256(w)
    ensures Decode(Encode(n, w)) == n
  {
    if w > 0 {
      DecodeEncode(n / 256, w - 1);
      assert Encode(n, w)[..w - 1] == Encode(n / 256, w - 1);
    }
  }

  /** Reading a database key: past the prefix, 32 bytes of key, 8 of height, 4 of index. */
  function DecodeKey(k: seq<Byte>): KeyEntry
    requires |k| == 45
  {
    KeyEntry(Decode(k[1..33]), Decode(k[33..41]), Decode(k[41..]))
  }

  lemma KeyRoundTrip(e: KeyEntry)
    requires Storable(e)
    ensures |KeyOf(e)| == 45 && DecodeKey(KeyOf(e)) == e
  {
    var k := KeyOf(e);
    assert k[1..33] == Encode(e.key, 32) && k[33..41] == HeightBytes(e.height) && k[41..] == IndexBytes(e.index);
    Pow256At();
    SmallMod(e.height, TWO_64);
    SmallMod(e.index, TWO_32);
    DecodeEncode(e.key, 32);
    DecodeEncode(e.height, 8);
    DecodeEncode(e.index, 4);
  }

  /** All entries of the index, in the order of their database keys. */
  ghost predicate Database(db: seq<KeyEntry>) {
    && (forall t :: 0 <= t < |db| ==> Storable(db[t]))
    && (forall s, t :: 0 <= s < t < |db| ==> Less(KeyOf(db[s]), KeyOf(db[t])))
  }

  /** What a caller asks for: a key's entries from a place up to a height, or from a place down to a height. */
  datatype Query = Forward(key: PublicKey, height: int, index: int, last: int)
                 | Reverse(key: PublicKey, height: int, index: int, last: int)

  /** Which of the two a pair of heights asks for. */
  function Ask(key: PublicKey, startHeight: int, endHeight: int, startIndex: int): Query {
    if endHeight >= startHeight then Forward(key, startHeight, startIndex, endHeight)
    else Reverse(key, startHeight, startIndex, endHeight)
  }

  predicate Wanted(q: Query, e: KeyEntry) {
    && e.key == q.key
    && match q
       case Forward(_, height, index, last) =>
         (height < e.height || (e.height == height && index <= e.index)) && e.height <= last
       case Reverse(_, height, index, last) =>
         (e.height < height || (e.height == height && e.index <= index)) && last <= e.height
  }

  /** The wanted entries, in database order. */
  function Select(db: seq<KeyEntry>, q: Query): seq<KeyEntry> {
    if db == [] then []
    else
      var n := |db| - 1;
      Select(db[..n], q) + (if Wanted(q, db[n]) then [db[n]] else [])
  }

  /** At most `limit` of them; zero is no limit. */
  function Limited(entries: seq<KeyEntry>, limit: int): seq<KeyEntry> {
    if limit <= 0 || |entries| < limit then entries else entries[..limit]
  }

  /** Any int64 heights; the index is cut to 32 bits, so any integer will do. */
  predicate Askable(q: Query) {
    q.key < Pow256(32) && Int64(q.height) && Int64(q.last)
  }

  /** The byte range that a query scans. */
  predicate InRange(q: Query, k: seq<Byte>) {
    match q
    case Forward(key, height, index, last) =>
      !Less(k, EntryKey(key, height, index)) && Less(k, HeightKey(key, last + 1))
    case Reverse(key, height, index, last) =>
      !Less(k, HeightKey(key, last)) && Less(k, EntryKey(key, height, index + 1))
  }

  /** The query that is answered in place of one that is asked: its numbers are read as unsigned. */
  function Answered(q: Query): Query {
    match q
    case Forward(key, height, index, last) =>
      Forward(key, Unsigned64(height), Unsigned32(index), Unsigned64(last + 1) - 1)
    case Reverse(key, height, index, last) =>
      Reverse(key, Unsigned64(height), Unsigned32(index + 1) - 1, Unsigned64(last))
  }

  /** The range holds exactly the entries of the answered query, whatever other keys there are. */
  lemma RangeIs(q: Query, e: KeyEntry)
    requires q.key < Pow256(32) && Storable(e)
    ensures InRange(q, KeyOf(e)) <==> Wanted(Answered(q), e)
  {
    match q
    case Forward(key, height, index, last) =>
      EntryOrder(e, key, height, index);
      EntryBelowHeight(e, key, last + 1);
    case Reverse(key, height, index, last) =>
      EntryOrder(e, key, height, index + 1);
      EntryBelowHeight(e, key, last);
  }

  // ----- when the answer is what was asked for

  /** Among stored entries an index only matters from 0 to 2^31. */
  function Clamped(index: int): nat {
    if index < 0 then 0 else if index > TWO_31 then TWO_31 else index
  }

  /** The index means the same in 32 bits. */
  predicate Keeps(index: int) {
    Clamped(index) == Clamped(Unsigned32(index))
  }

  /** The queries that are answered as they are asked. */
  predicate Exact(q: Query) {
    match q
    case Forward(_, height, index, last) => last < 0 || (0 <= height && Keeps(index))
    case Reverse(_, height, index, last) =>
      height < 0 || (if last < 0 then height == 0 && index < 0 else Keeps(index + 1))
  }

  /** An entry that shows that a query which is not exact is answered wrongly. */
  function Missed(q: Query): KeyEntry {
    match q
    case Forward(key, height, index, last) =>
      if height < 0 then KeyEntry(key, 0, 0) else KeyEntry(key, height, Between(index))
    case Reverse(key, height, index, last) =>
      if last < 0 then KeyEntry(key, 0, 0) else KeyEntry(key, height, Between(index + 1))
  }

  /** The least stored index on one side of a number but not of its 32 bits. */
  function Between(index: int): nat {
    var a, b := Clamped(index), Clamped(Unsigned32(index));
    if a < b then a else b
  }

  lemma BetweenTells(index: int, i: nat)
    requires i < TWO_31
    ensures Keeps(index) ==> (i < index <==> i < Unsigned32(index))
    ensures !Keeps(index) ==>
              Between(index) < TWO_31 && (Between(index) < index <==> !(Between(index) < Unsigned32(index)))
  {
  }

  lemma ExactWanted(q: Query, e: KeyEntry)
    requires Askable(q) && Storable(e) && (q.Forward? <==> q.last >= q.height) && Exact(q)
    ensures Wanted(Answered(q), e) <==> Wanted(q, e)
  {
    UnsignedIs(q.height);
    UnsignedIs(q.last);
    UnsignedIs(q.last + 1);
    BetweenTells(if q.Forward? then q.index else q.index + 1, e.index);
  }

  lemma ExactEntry(q: Query, e: KeyEntry)
    requires Askable(q) && Storable(e) && (q.Forward? <==> q.last >= q.height) && Exact(q)
    ensures InRange(q, KeyOf(e)) <==> Wanted(q, e)
  {
    RangeIs(q, e);
    ExactWanted(q, e);
  }

  lemma MissedTells(q: Query)
    requires Askable(q) && (q.Forward? <==> q.last >= q.height) && !Exact(q)
    ensures Storable(Missed(q)) && (InRange(q, KeyOf(Missed(q))) <==> !Wanted(q, Missed(q)))
  {
    BetweenTells(if q.Forward? then q.index else q.index + 1, 0);
    RangeIs(q, Missed(q));
    UnsignedIs(q.height);
    UnsignedIs(q.last);
    UnsignedIs(q.last + 1);
  }

  /** The range holds exactly the wanted entries, of whatever index, if and only if the query is exact. */
  lemma RangeIsExact(key: PublicKey, startHeight: int, endHeight: int, startIndex: int)
    requires key < Pow256(32) && Int64(startHeight) && Int64(endHeight)
    ensures var q := Ask(key, startHeight, endHeight, startIndex);
            Exact(q) <==> forall e | Storable(e) :: InRange(q, KeyOf(e)) <==> Wanted(q, e)
  {
    var q := Ask(key, startHeight, endHeight, startIndex);
    if Exact(q) {
      forall e | Storable(e) ensures InRange(q, KeyOf(e)) <==> Wanted(q, e) {
        ExactEntry(q, e);
      }
    } else {
      MissedTells(q);
    }
  }

  /** From a negative height up, nothing is found, although everything up to the end is wanted. */
  lemma NegativeStartFindsNothing(q: Query, e: KeyEntry)
    requires Askable(q) && q.Forward? && q.height < 0 && Storable(e)
    ensures !InRange(q, KeyOf(e))
    ensures Wanted(q, e) <==> e.key == q.key && e.height <= q.last
  {
    RangeIs(q, e);
    UnsignedIs(q.height);
  }

  // ----- scanning

  lemma SelectStep(db: seq<KeyEntry>, q: Query, t: nat)
    requires t < |db|
    ensures Select(db[..t + 1], q) == Select(db[..t], q) + (if Wanted(q, db[t]) then [db[t]] else [])
  {
    assert db[..t + 1][..t] == db[..t];
  }

  lemma {:induction false} SelectGrows(db: seq<KeyEntry>, q: Query, t: nat)
    requires t <= |db|
    ensures Select(db[..t], q) <= Select(db, q)
  {
    if t == |db| {
      assert db[..t] == db;
    } else {
      var n := |db| - 1;
      SelectGrows(db[..n], q, t);
      assert db[..n][..t] == db[..t];
    }
  }

  /** Whether the iterator's range has an entry. */
  method Hits(q: Query, e: KeyEntry) returns (hit: bool)
    requires Askable(q) && Storable(e)
    ensures hit == Wanted(Answered(q), e)
  {
    RangeIs(q, e);
    hit := InRange(q, KeyOf(e));
  }

  /** The last place of a page is where it stopped. */
  ghost predicate StopsAt(entries: seq<KeyEntry>, height: int, index: int) {
    entries != [] ==> entries[|entries| - 1].height == height && entries[|entries| - 1].index == index
  }

  /** Scan forward, up to a limit. */
  method ScanForward(db: seq<KeyEntry>, q: Query, limit: int) returns (entries: seq<KeyEntry>, height: int, index: int)
    requires Database(db) && q.Forward? && Askable(q)
    ensures entries == Limited(Select(db, Answered(q)), limit) && StopsAt(entries, height, index)
  {
    ghost var asked := Answered(q);
    entries, height, index := [], 0, 0;
    var t := 0;
    while t < |db|
      invariant 0 <= t <= |db| && entries == Select(db[..t], asked) && (limit <= 0 || |entries| < limit)
      invariant StopsAt(entries, height, index)
    {
      SelectStep(db, asked, t);
      var hit := Hits(q, db[t]);
      if hit {
        height, index, entries := db[t].height, db[t].index, entries + [db[t]];
        if limit != 0 && |entries| == limit {
          SelectGrows(db, asked, t + 1);
          return;
        }
      }
      t := t + 1;
    }
    assert db[..t] == db;
  }

  // ----- in reverse

  function Backwards(s: seq<KeyEntry>): seq<KeyEntry> {
    seq(|s|, i requires 0 <= i < |s| => s[|s| - 1 - i])
  }

  lemma BackwardsPush(s: seq<KeyEntry>, e: KeyEntry)
    ensures Backwards([e] + s) == Backwards(s) + [e]
  {
  }

  lemma SelectPush(s: seq<KeyEntry>, e: KeyEntry, q: Query)
    ensures Select(s + [e], q) == Select(s, q) + (if Wanted(q, e) then [e] else [])
  {
    assert (s + [e])[..|s|] == s;
  }

  lemma LastOfSlices(db: seq<KeyEntry>, t: nat, n: nat)
    requires t <= n && |db| == n + 1
    ensures db == db[..n] + [db[n]] && db[..n][..t] == db[..t] && db[t..] == db[..n][t..] + [db[n]]
  {
  }

  lemma {:induction false} SelectSplits(db: seq<KeyEntry>, q: Query, t: nat)
    requires t <= |db|
    ensures Select(db, q) == Select(db[..t], q) + Select(db[t..], q)
  {
    if t == |db| {
      assert db[..t] == db && db[t..] == [];
    } else {
      var n := |db| - 1;
      LastOfSlices(db, t, n);
      SelectSplits(db[..n], q, t);
      SelectPush(db[..n], db[n], q);
      SelectPush(db[..n][t..], db[n], q);
    }
  }

  lemma SelectFront(db: seq<KeyEntry>, q: Query, t: nat)
    requires t < |db|
    ensures Select(db[t..], q) == (if Wanted(q, db[t]) then [db[t]] else []) + Select(db[t + 1..], q)
  {
    SelectSplits(db[t..], q, 1);
    assert db[t..][..1] == [db[t]] && db[t..][1..] == db[t + 1..];
    assert [db[t]][..0] == [];
  }

  /** The last part of the selection, read backwards, comes first. */
  lemma BackwardsTail(a: seq<KeyEntry>, b: seq<KeyEntry>)
    ensures Backwards(b) <= Backwards(a + b)
  {
  }

  lemma ReverseStep(db: seq<KeyEntry>, q: Query, t: nat)
    requires t < |db|
    ensures Backwards(Select(db[t..], q))
            == Backwards(Select(db[t + 1..], q)) + (if Wanted(q, db[t]) then [db[t]] else [])
  {
    SelectFront(db, q, t);
    BackwardsPush(Select(db[t + 1..], q), db[t]);
  }

  lemma ReverseGrows(db: seq<KeyEntry>, q: Query, t: nat)
    requires t <= |db|
    ensures Backwards(Select(db[t..], q)) <= Backwards(Select(db, q))
  {
    SelectSplits(db, q, t);
    BackwardsTail(Select(db[..t], q), Select(db[t..], q));
  }

  /** Scan in reverse, up to a limit. */
  method ScanReverse(db: seq<KeyEntry>, q: Query, limit: int) returns (entries: seq<KeyEntry>, height: int, index: int)
    requires Database(db) && q.Reverse? && Askable(q)
    ensures entries == Limited(Backwards(Select(db, Answered(q))), limit) && StopsAt(entries, height, index)
  {
    ghost var asked := Answered(q);
    entries, height, index := [], 0, 0;
    var t := |db|;
    while t > 0
      invariant 0 <= t <= |db| && entries == Backwards(Select(db[t..], asked))
      invariant (limit <= 0 || |entries| < limit)
      invariant StopsAt(entries, height, index)
    {
      t := t - 1;
      ReverseStep(db, asked, t);
      var hit := Hits(q, db[t]);
      if hit {
        height, index, entries := db[t].height, db[t].index, entries + [db[t]];
        if limit != 0 && |entries| == limit {
          ReverseGrows(db, asked, t);
          return;
        }
      }
    }
    assert db[0..] == db;
  }

  /** A key's entries over a range of heights, in reverse if it starts above its end. */
  method GetPublicKeyTransactionIndicesRange(db: seq<KeyEntry>, key: PublicKey, startHeight: int, endHeight: int,
          startIndex: int, limit: int)
      returns (entries: seq<KeyEntry>, height: int, index: int)
    requires Database(db) && key < Pow256(32) && Int64(startHeight) && Int64(endHeight)
    ensures var q := Ask(key, startHeight, endHeight, startIndex);
            var all := Select(db, Answered(q));
            entries == Limited(if q.Forward? then all else Backwards(all), limit)
    ensures StopsAt(entries, height, index)
  {
    var q := Ask(key, startHeight, endHeight, startIndex);
    if endHeight >= startHeight {
      entries, height, index := ScanForward(db, q, limit);
    } else {
      entries, height, index := ScanReverse(db, q, limit);
    }
  }

  // ----- resuming

  lemma DatabaseOrder(db: seq<KeyEntry>, s: nat, t: nat)
    requires Database(db) && s < t < |db| && db[s].key == db[t].key
    ensures Before(db[s], db[t])
  {
    StorableIs(db[t]);
    EntryOrder(db[s], db[t].key, db[t].height, db[t].index);
  }

  /** Each selected entry is somewhere in the database, in the same order. */
  lemma {:induction false} SelectInOrder(db: seq<KeyEntry>, q: Query)
    requires Database(db)
    ensures InOrder(Select(db, q))
    ensures forall e :: e in Select(db, q) <==> e in db && Wanted(q, e)
  {
    if db != [] {
      var n := |db| - 1;
      SelectInOrder(db[..n], q);
      var lower := Select(db[..n], q);
      forall i | 0 <= i < |lower| && Wanted(q, db[n]) ensures Before(lower[i], db[n]) {
        assert lower[i] in lower;
        var s :| 0 <= s < n && db[s] == lower[i];
        DatabaseOrder(db, s, n);
      }
      assert forall e :: e in db <==> e in db[..n] || e == db[n];
    }
  }

  /** What is left of a sequence after its first n. */
  function Rest(s: seq<KeyEntry>, n: nat): seq<KeyEntry> {
    if |s| <= n then [] else s[n..]
  }

  lemma RestPush(s: seq<KeyEntry>, n: nat, e: KeyEntry)
    ensures Rest(s + [e], n) == Rest(s, n) + (if |s| >= n then [e] else [])
  {
  }

  /** Asking again right after the last place: what is left of the selection. */
  lemma {:induction false} SelectRest(db: seq<KeyEntry>, q: Query, limit: nat, all: seq<KeyEntry>, t: nat, after: Query)
    requires q.Forward? && all == Select(db, q) && InOrder(all) && 0 < limit <= |all| && t <= |db|
    requires Wanted(q, all[limit - 1])
    requires after == Forward(q.key, all[limit - 1].height, all[limit - 1].index + 1, q.last)
    ensures Select(db[..t], after) == Rest(Select(db[..t], q), limit)
  {
    if t > 0 {
      SelectRest(db, q, limit, all, t - 1, after);
      SelectGrows(db, q, t);
      SelectStep(db, q, t - 1);
      SelectStep(db, after, t - 1);
      RestStep(db, q, limit, all, t);
      RestPush(Select(db[..t - 1], q), limit, db[t - 1]);
    }
  }

  lemma RestStep(db: seq<KeyEntry>, q: Query, limit: nat, all: seq<KeyEntry>, t: nat)
    requires q.Forward? && InOrder(all) && 0 < limit <= |all| && 0 < t <= |db| && Wanted(q, all[limit - 1])
    requires Select(db[..t], q) <= all
    requires Select(db[..t], q) == Select(db[..t - 1], q) + (if Wanted(q, db[t - 1]) then [db[t - 1]] else [])
    ensures var stop, k := all[limit - 1], |Select(db[..t - 1], q)|;
            Wanted(Forward(q.key, stop.height, stop.index + 1, q.last), db[t - 1]) <==>
              Wanted(q, db[t - 1]) && k >= limit
  {
    var stop, k := all[limit - 1], |Select(db[..t - 1], q)|;
    if Wanted(q, db[t - 1]) {
      assert all[k] == db[t - 1];
      assert k < limit - 1 ==> Before(all[k], stop);
      assert k >= limit ==> Before(stop, all[k]);
    }
  }

  /** What a selection leaves after its first page. */
  lemma SelectAfter(db: seq<KeyEntry>, q: Query, limit: nat, page: seq<KeyEntry>, height: int, index: int)
    requires Database(db) && q.Forward? && limit > 0
    requires page == Limited(Select(db, q), limit) && |page| == limit && StopsAt(page, height, index)
    ensures var after := Forward(q.key, height, index + 1, q.last);
            page + Select(db, after) == Select(db, q) && |Select(db, after)| < |Select(db, q)|
    ensures 0 <= height < TWO_63 && 0 <= index < TWO_31
  {
    var all := Select(db, q);
    SelectInOrder(db, q);
    assert all[limit - 1] in all && page == all[..limit];
    SelectRest(db, q, limit, all, |db|, Forward(q.key, height, index + 1, q.last));
    assert db[..|db|] == db;
  }

  /** A stored place is read as it is written. */
  lemma AnsweredAfter(q: Query, height: int, index: int)
    requires q.Forward? && Askable(q) && 0 <= height < TWO_63 && 0 <= index < TWO_31
    ensures var next := Forward(q.key, height, index + 1, q.last);
            Askable(next) && Answered(next) == Forward(q.key, height, index + 1, Answered(q).last)
  {
    SmallMod(height, TWO_64);
    SmallMod(index + 1, TWO_32);
  }

  /** Going on right after the last place loses and repeats nothing. */
  lemma Resume(db: seq<KeyEntry>, q: Query, limit: nat, page: seq<KeyEntry>, height: int, index: int)
    requires Database(db) && q.Forward? && Askable(q) && limit > 0
    requires page == Limited(Select(db, Answered(q)), limit) && |page| == limit && StopsAt(page, height, index)
    ensures var next := Forward(q.key, height, index + 1, q.last);
            && Askable(next) && page + Select(db, Answered(next)) == Select(db, Answered(q))
            && |Select(db, Answered(next))| < |Select(db, Answered(q))|
  {
    SelectAfter(db, Answered(q), limit, page, height, index);
    AnsweredAfter(q, height, index);
  }

  /** Page after page, each starting right after the last, yields every entry of the answered range once. */
  method EnumerateAll(db: seq<KeyEntry>, q: Query, limit: nat) returns (all: seq<KeyEntry>)
    requires Database(db) && q.Forward? && Askable(q) && limit > 0
    ensures all == Select(db, Answered(q))
  {
    all := [];
    var next := q;
    while true
      invariant next.Forward? && Askable(next) && next.key == q.key && next.last == q.last
      invariant all + Select(db, Answered(next)) == Select(db, Answered(q))
      decreases |Select(db, Answered(next))|
    {
      var page, height, index := ScanForward(db, next, limit);
      if |page| < limit {
        all := all + page;
        break;
      }
      Resume(db, next, limit, page, height, index);
      var after := Forward(q.key, height, index + 1, q.last);
      JoinPage(all, page, Select(db, Answered(after)), Select(db, Answered(next)));
      all := all + page;
      next := after;
    }
  }

  /** Queries that agree on the database's entries select the same. */
  lemma {:induction false} SelectAgrees(db: seq<KeyEntry>, a: Query, b: Query)
    requires forall t :: 0 <= t < |db| ==> (Wanted(a, db[t]) <==> Wanted(b, db[t]))
    ensures Select(db, a) == Select(db, b)
  {
    if db != [] {
      SelectAgrees(db[..|db| - 1], a, b);
    }
  }

  lemma {:induction false} SelectNothing(db: seq<KeyEntry>, q: Query)
    requires forall t :: 0 <= t < |db| ==> !Wanted(q, db[t])
    ensures Select(db, q) == []
  {
    if db != [] {
      SelectNothing(db[..|db| - 1], q);
    }
  }

  lemma NegativeStartSelectsNothing(db: seq<KeyEntry>, q: Query)
    requires Database(db) && q.Forward? && Askable(q) && q.height < 0
    ensures Select(db, Answered(q)) == []
  {
    forall t | 0 <= t < |db| ensures !Wanted(Answered(q), db[t]) {
      RangeIs(q, db[t]);
      NegativeStartFindsNothing(q, db[t]);
    }
    SelectNothing(db, Answered(q));
  }

  /** Paging upwards from any place finds what is wanted exactly when the start is not negative or nothing is wanted. */
  lemma PagingIsExact(db: seq<KeyEntry>, q: Query)
    requires Database(db) && q.Forward? && Askable(q) && q.last >= q.height && 0 <= q.index < TWO_32
    ensures Select(db, Answered(q)) == Select(db, q) <==> 0 <= q.height || Select(db, q) == []
  {
    if 0 <= q.height {
      SmallMod(q.index, TWO_32);
      forall t | 0 <= t < |db| ensures Wanted(q, db[t]) <==> Wanted(Answered(q), db[t]) {
        RangeIs(q, db[t]);
        ExactEntry(q, db[t]);
      }
      SelectAgrees(db, q, Answered(q));
    } else {
      NegativeStartSelectsNothing(db, q);
    }
  }

  /** The query for a key's immature rewards, given the height of the tip. */
  function ForRewards(key: PublicKey, tip: int): Query {
    Forward(key, tip - COINBASE_MATURITY + 1, 0, tip + 1)
  }

  /** Below height 99 it finds nothing, and from there on everything. */
  lemma RewardsFound(db: seq<KeyEntry>, key: PublicKey, tip: nat)
    requires Database(db) && key < Pow256(32) && tip + 1 < TWO_63
    ensures var q := ForRewards(key, tip);
            Askable(q) && Select(db, Answered(q)) == if tip < COINBASE_MATURITY - 1 then [] else Select(db, q)
  {
    var q := ForRewards(key, tip);
    PagingIsExact(db, q);
    if tip < COINBASE_MATURITY - 1 {
      NegativeStartSelectsNothing(db, q);
    }
  }

  /** So the reward of genesis is not found while it is the tip. */
  lemma GenesisRewardNotFound(key: PublicKey)
    requires key < Pow256(32)
    ensures var db := [KeyEntry(key, 0, 0)];
            && Database(db) && Select(db, ForRewards(key, 0)) == db
            && Select(db, Answered(ForRewards(key, 0))) == []
  {
    var db := [KeyEntry(key, 0, 0)];
    assert db[..0] == [];
    RewardsFound(db, key, 0);
  }

  lemma JoinPage(all: seq<KeyEntry>, page: seq<KeyEntry>, rest: seq<KeyEntry>, before: seq<KeyEntry>)
    requires page + rest == before
    ensures all + before == (all + page) + rest
  {
  }

  /** The database holds exactly these entries. */
  ghost predicate DatabaseOf(db: seq<KeyEntry>, index: set<KeyEntry>) {
    Database(db) && forall e :: e in db <==> e in index
  }

  /** A key's entries up to a height, asked for as the balance at a height asks. */
  function ForBalance(key: PublicKey, height: int): Query {
    Forward(key, 0, 0, if height < -1 then TWO_63 - 1 else height)
  }

  /** The database iterated from a bare key to one past a height. */
  method ScanKey(db: seq<KeyEntry>, key: PublicKey, height: int) returns (listing: seq<KeyEntry>)
    requires Database(db) && key < Pow256(32) && Int64(height)
    ensures listing == Select(db, ForBalance(key, height))
  {
    listing := [];
    var t, startKey, endKey := 0, KeyBytes(key), HeightKey(key, height + 1);
    while t < |db|
      invariant 0 <= t <= |db| && listing == Select(db[..t], ForBalance(key, height))
    {
      SelectStep(db, ForBalance(key, height), t);
      UpToHeight(db[t], key, height);
      if !Less(KeyOf(db[t]), startKey) && Less(KeyOf(db[t]), endKey) {
        listing := listing + [db[t]];
      }
      t := t + 1;
    }
    assert db[..t] == db;
  }

  /** That is all of them, in order. */
  lemma ScanLists(db: seq<KeyEntry>, index: set<KeyEntry>, key: PublicKey, height: int)
    requires DatabaseOf(db, index)
    ensures Lists(Select(db, ForBalance(key, height)), Asked(index, height), key)
  {
    SelectInOrder(db, ForBalance(key, height));
    forall e | e in index ensures Storable(e) {
      assert e in db;
    }
  }
}
