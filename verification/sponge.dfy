/**
SHA3-256 (sections 4, 5.1 and 6.1 of FIPS 202) over an arbitrary permutation, and the
byte-at-a-time sponge that hosts and devices run, which may stop anywhere and go on later.
*/
module Sponge {
  const RATE := 136

  type State = s: seq<bv8> | |s| == 200 witness seq(200, _ => 0)

  const ZERO: State := seq(200, _ => 0)

  // ----- the standard, block by block

  function XorInto(s: State, data: seq<bv8>): State
    requires |data| <= 200
  {
    seq(200, i requires 0 <= i < 200 => if i < |data| then s[i] ^ data[i] else s[i])
  }

  function PadByte(first: bool, last: bool): bv8 {
    var a: bv8 := if first then 0x06 else 0x00;
    var b: bv8 := if last then 0x80 else 0x00;
    a ^ b
  }

  /** The suffix of SHA-3 and the padding, for a message with r bytes in its last block. */
  function Padding(r: nat): (p: seq<bv8>)
    requires r < RATE
    ensures |p| == RATE - r
  {
    seq(RATE - r, i requires 0 <= i < RATE - r => PadByte(i == 0, i == RATE - r - 1))
  }

  function Pad(m: seq<bv8>): (p: seq<bv8>)
    ensures |p| % RATE == 0
  {
    m + Padding(|m| % RATE)
  }

  /** A message is padded to whole blocks of 136 bytes: with 06, zeros and 80, or with 86 where only one byte fits. */
  lemma PadIs(m: seq<bv8>)
    ensures var p := Pad(m);
            && |p| % 136 == 0 && |m| < |p| <= |m| + 136 && m <= p
            && (|p| == |m| + 1 ==> p[|m|] == 0x86)
            && (|p| > |m| + 1 ==> p[|m|] == 0x06 && p[|p| - 1] == 0x80)
            && (forall i :: |m| < i < |p| - 1 ==> p[i] == 0)
  {
    var p, r := Pad(m), |m| % RATE;
    assert PadByte(true, true) == 0x86 && PadByte(true, false) == 0x06;
    assert PadByte(false, true) == 0x80 && PadByte(false, false) == 0;
    forall i | |m| <= i < |p| ensures p[i] == PadByte(i == |m|, i == |p| - 1) {
      assert p[i] == Padding(r)[i - |m|];
    }
  }

  /** Absorb whole blocks. */
  function Absorbed(f: State -> State, p: seq<bv8>): State
    requires |p| % RATE == 0
  {
    if p == [] then ZERO else f(XorInto(Absorbed(f, p[..|p| - RATE]), p[|p| - RATE..]))
  }

  function Sha3(f: State -> State, m: seq<bv8>): (digest: seq<bv8>)
    ensures |digest| == 32
  {
    Absorbed(f, Pad(m))[..32]
  }

  // ----- byte by byte

  datatype Running = Running(st: State, pt: nat)

  const START := Running(ZERO, 0)

  function AbsorbByte(f: State -> State, c: Running, b: bv8): (r: Running)
    requires c.pt < RATE
    ensures r.pt < RATE
  {
    var st: State := c.st[c.pt := c.st[c.pt] ^ b];
    if c.pt + 1 >= RATE then Running(f(st), 0) else Running(st, c.pt + 1)
  }

  function Absorb(f: State -> State, c: Running, data: seq<bv8>): (r: Running)
    requires c.pt < RATE
    ensures r.pt < RATE
  {
    if data == [] then c else AbsorbByte(f, Absorb(f, c, data[..|data| - 1]), data[|data| - 1])
  }

  /** The two exclusive-ors of finalization. */
  function Sealed(x: State, r: nat): State
    requires r < RATE
  {
    var y: State := x[r := x[r] ^ 0x06];
    y[RATE - 1 := y[RATE - 1] ^ 0x80]
  }

  function Finish(f: State -> State, c: Running): (digest: seq<bv8>)
    requires c.pt < RATE
    ensures |digest| == 32
  {
    f(Sealed(c.st, c.pt))[..32]
  }

  /** Stopping and going on later makes no difference. */
  lemma {:induction false} AbsorbSplit(f: State -> State, c: Running, a: seq<bv8>, b: seq<bv8>)
    requires c.pt < RATE
    ensures Absorb(f, Absorb(f, c, a), b) == Absorb(f, c, a + b)
  {
    if b == [] {
      assert a + b == a;
    } else {
      var n := |b| - 1;
      AbsorbSplit(f, c, a, b[..n]);
      assert (a + b)[..|a + b| - 1] == a + b[..n];
    }
  }

  // ----- the two agree

  lemma XorOneMore(s: State, data: seq<bv8>, b: bv8, more: seq<bv8>)
    requires |data| < 200 && more == data + [b]
    ensures var x := XorInto(s, data);
            x[|data| := x[|data|] ^ b] == XorInto(s, more)
  {
  }

  lemma XorNothing(s: State)
    ensures XorInto(s, []) == s
  {
  }

  /** The first k blocks absorbed, the rest mixed in. */
  function Mixed(f: State -> State, m: seq<bv8>, k: nat): Running
    requires RATE * k <= |m| < RATE * k + RATE
  {
    Running(XorInto(Absorbed(f, m[..RATE * k]), m[RATE * k..]), |m| - RATE * k)
  }

  /** That is what byte-wise absorption has done. */
  lemma {:induction false} AbsorbMeans(f: State -> State, m: seq<bv8>, k: nat, r: nat)
    requires |m| == RATE * k + r && r < RATE
    ensures Absorb(f, START, m) == Mixed(f, m, k)
  {
    if m == [] {
      XorNothing(ZERO);
    } else {
      var n := |m| - 1;
      var before := m[..n];
      assert m == before + [m[n]];
      if r > 0 {
        AbsorbMeans(f, before, k, r - 1);
        AbsorbMore(f, before, m[n], m, k, r - 1);
      } else {
        AbsorbMeans(f, before, k - 1, RATE - 1);
        AbsorbFull(f, before, m[n], m, k - 1);
      }
    }
  }

  lemma AbsorbOne(f: State -> State, before: seq<bv8>, b: bv8, m: seq<bv8>)
    requires m == before + [b]
    ensures Absorb(f, START, m) == AbsorbByte(f, Absorb(f, START, before), b)
  {
    assert m[..|m| - 1] == before;
  }

  lemma AbsorbedOne(f: State -> State, body: seq<bv8>, block: seq<bv8>, p: seq<bv8>)
    requires |body| % RATE == 0 && |block| == RATE && p == body + block
    ensures Absorbed(f, p) == f(XorInto(Absorbed(f, body), block))
  {
    assert p[..|p| - RATE] == body && p[|p| - RATE..] == block;
  }

  lemma MixedWhole(f: State -> State, m: seq<bv8>, k: nat)
    requires |m| == RATE * k
    ensures Mixed(f, m, k) == Running(Absorbed(f, m), 0)
  {
    assert m[..|m|] == m && m[|m|..] == [];
    XorNothing(Absorbed(f, m));
  }

  /** One more byte within a block. */
  lemma AbsorbMore(f: State -> State, before: seq<bv8>, b: bv8, m: seq<bv8>, k: nat, r: nat)
    requires m == before + [b] && |before| == RATE * k + r
    requires r + 1 < RATE && Absorb(f, START, before) == Mixed(f, before, k)
    ensures Absorb(f, START, m) == Mixed(f, m, k)
  {
    AbsorbOne(f, before, b, m);
    MixOne(f, before, b, m, k, r);
  }

  lemma MixOne(f: State -> State, before: seq<bv8>, b: bv8, m: seq<bv8>, k: nat, r: nat)
    requires m == before + [b] && |before| == RATE * k + r && r + 1 < RATE
    ensures AbsorbByte(f, Mixed(f, before, k), b) == Mixed(f, m, k)
  {
    var q := RATE * k;
    SplitAt(before, b, m, q);
    XorOneMore(Absorbed(f, before[..q]), before[q..], b, m[q..]);
  }

  lemma SplitAt(before: seq<bv8>, b: bv8, m: seq<bv8>, q: nat)
    requires m == before + [b] && q <= |before|
    ensures m[..q] == before[..q] && m[q..] == before[q..] + [b]
  {
  }

  /** The byte that completes a block. */
  lemma AbsorbFull(f: State -> State, before: seq<bv8>, b: bv8, m: seq<bv8>, k: nat)
    requires m == before + [b] && |before| == RATE * k + RATE - 1 && Absorb(f, START, before) == Mixed(f, before, k)
    ensures Absorb(f, START, m) == Mixed(f, m, k + 1)
  {
    var q := RATE * k;
    AbsorbOne(f, before, b, m);
    XorOneMore(Absorbed(f, before[..q]), before[q..], b, before[q..] + [b]);
    AbsorbedOne(f, before[..q], before[q..] + [b], m);
    MixedWhole(f, m, k + 1);
  }

  lemma PadXor(x: bv8, first: bool, last: bool)
    ensures var y := if first then x ^ 0x06 else x;
            x ^ PadByte(first, last) == if last then y ^ 0x80 else y
  {
  }

  lemma SealedAt(s: State, tail: seq<bv8>, r: nat, i: nat)
    requires r == |tail| < RATE && i < 200
    ensures Sealed(XorInto(s, tail), r)[i] == XorInto(s, tail + Padding(r))[i]
  {
    if i < r {
      assert (tail + Padding(r))[i] == tail[i];
    } else if i < RATE {
      assert (tail + Padding(r))[i] == Padding(r)[i - r];
      PadXor(s[i], i == r, i == RATE - 1);
    }
  }

  lemma XorPadding(s: State, tail: seq<bv8>, r: nat)
    requires r == |tail| < RATE
    ensures Sealed(XorInto(s, tail), r) == XorInto(s, tail + Padding(r))
  {
    forall i | 0 <= i < 200 ensures Sealed(XorInto(s, tail), r)[i] == XorInto(s, tail + Padding(r))[i] {
      SealedAt(s, tail, r, i);
    }
  }

  lemma MixedParts(f: State -> State, m: seq<bv8>, k: nat, body: seq<bv8>, tail: seq<bv8>)
    requires m == body + tail && |body| == RATE * k && |tail| < RATE
    ensures Absorb(f, START, m) == Running(XorInto(Absorbed(f, body), tail), |tail|)
  {
    AbsorbMeans(f, m, k, |tail|);
    assert m[..RATE * k] == body && m[RATE * k..] == tail;
  }

  lemma Sha3Parts(f: State -> State, m: seq<bv8>, body: seq<bv8>, tail: seq<bv8>)
    requires m == body + tail && |body| % RATE == 0 && |tail| == |m| % RATE
    ensures Sha3(f, m) == f(XorInto(Absorbed(f, body), tail + Padding(|tail|)))[..32]
  {
    assert Pad(m) == body + (tail + Padding(|tail|));
    AbsorbedOne(f, body, tail + Padding(|tail|), Pad(m));
  }

  lemma FinishWith(f: State -> State, m: seq<bv8>, k: nat, body: seq<bv8>, tail: seq<bv8>)
    requires m == body + tail && |body| == RATE * k && |body| % RATE == 0 && |tail| == |m| % RATE
    ensures Finish(f, Absorb(f, START, m)) == Sha3(f, m)
  {
    MixedParts(f, m, k, body, tail);
    Sha3Parts(f, m, body, tail);
    XorPadding(Absorbed(f, body), tail, |tail|);
  }

  /** The running sponge computes SHA3-256. */
  lemma FinishIsSha3(f: State -> State, m: seq<bv8>)
    ensures Finish(f, Absorb(f, START, m)) == Sha3(f, m)
  {
    var k := |m| / RATE;
    FinishWith(f, m, k, m[..RATE * k], m[RATE * k..]);
  }

  /** A message absorbed in three parts. */
  lemma Sha3InParts(f: State -> State, a: seq<bv8>, b: seq<bv8>, c: seq<bv8>)
    ensures Finish(f, Absorb(f, Absorb(f, Absorb(f, START, a), b), c)) == Sha3(f, a + b + c)
  {
    AbsorbSplit(f, START, a, b);
    AbsorbSplit(f, START, a + b, c);
    FinishIsSha3(f, a + b + c);
  }
}
