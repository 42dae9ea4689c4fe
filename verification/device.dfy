/**
What the OpenCL miner runs: a SHA3 context updated in place, the decimal nonce written
backwards and reversed, and one kernel thread's test of one nonce.
*/
module Device {
  import opened Types
  import opened HeaderJson
  import opened Sponge

  // ----- the sponge in place

  class Sha3Context {
    const f: State -> State  // the Keccak permutation
    const b: array<bv8>
    var pt: int

    constructor (f: State -> State)
      ensures Valid() && this.f == f && View() == START && fresh(b)
    {
      this.f := f;
      b := new bv8[200](_ => 0);
      pt := 0;
    }

    ghost predicate Valid()
      reads this
    {
      b.Length == 200 && 0 <= pt < RATE
    }

    ghost function View(): Running
      requires Valid()
      reads this, b
    {
      Running(b[..], pt)
    }

    method Keccak()
      requires b.Length == 200
      modifies b
      ensures b[..] == f(old(b[..]))
    {
      var st: State := b[..];
      var next := f(st);
      forall i | 0 <= i < 200 {
        b[i] := next[i];
      }
      assert b[..] == next;
    }

    method Init()
      requires Valid()
      modifies this`pt, b
      ensures Valid() && View() == START
    {
      forall i | 0 <= i < 200 {
        b[i] := 0;
      }
      pt := 0;
    }

    /** Start from a copy of another context. */
    method CopyFrom(c: Sha3Context)
      requires Valid() && c.Valid() && c.b != b
      modifies this`pt, b
      ensures Valid() && View() == old(c.View())
    {
      forall i | 0 <= i < 200 {
        b[i] := c.b[i];
      }
      pt := c.pt;
      assert b[..] == old(c.b[..]);
    }

    method Step(j: int, x: bv8) returns (next: int)
      requires b.Length == 200 && 0 <= j < RATE
      modifies b
      ensures 0 <= next < RATE && Running(b[..], next) == AbsorbByte(f, Running(old(b[..]), j), x)
    {
      b[j] := b[j] ^ x;
      next := j + 1;
      if next >= RATE {
        Keccak();
        next := 0;
      }
    }

    method Update(data: seq<bv8>)
      requires Valid()
      modifies this`pt, b
      ensures Valid() && View() == Absorb(f, old(View()), data)
    {
      ghost var start := View();
      var j, i := pt, 0;
      while i < |data|
        invariant 0 <= i <= |data| && 0 <= j < RATE
        invariant Running(b[..], j) == Absorb(f, start, data[..i])
      {
        assert data[..i + 1][..i] == data[..i];
        j := Step(j, data[i]);
        i := i + 1;
      }
      assert data[..|data|] == data;
      pt := j;
    }

    method Final() returns (md: seq<bv8>)
      requires Valid()
      modifies b
      ensures md == Finish(f, old(View()))
    {
      b[pt] := b[pt] ^ 0x06;
      b[RATE - 1] := b[RATE - 1] ^ 0x80;
      assert b[..] == Sealed(old(View()).st, pt);
      Keccak();
      md := b[..32];
    }
  }

  // ----- numbers as bytes, most significant first

  function BigEndian(s: seq<bv8>): nat {
    if s == [] then 0 else BigEndian(s[..|s| - 1]) * 256 + s[|s| - 1] as int
  }

  /** The first difference decides which number is less. */
  lemma {:induction false} FirstDifference(a: seq<bv8>, b: seq<bv8>, i: nat)
    requires |a| == |b| && i < |a| && a[..i] == b[..i] && a[i] < b[i]
    ensures BigEndian(a) < BigEndian(b)
  {
    var n := |a| - 1;
    if i < n {
      assert a[..n][..i] == b[..n][..i];
      FirstDifference(a[..n], b[..n], i);
    }
  }

  method Memcmp(p1: seq<bv8>, p2: seq<bv8>) returns (r: int)
    requires |p1| == |p2|
    ensures r < 0 <==> BigEndian(p1) < BigEndian(p2)
    ensures r > 0 <==> BigEndian(p1) > BigEndian(p2)
  {
    var i := 0;
    while i < |p1|
      invariant 0 <= i <= |p1| && p1[..i] == p2[..i]
    {
      if p1[i] < p2[i] {
        FirstDifference(p1, p2, i);
        return -1;
      }
      if p1[i] > p2[i] {
        FirstDifference(p2, p1, i);
        return 1;
      }
      i := i + 1;
    }
    assert p1 == p1[..i] && p2 == p2[..i];
    return 0;
  }

  // ----- decimal digits in place

  function Backwards(s: string): string {
    seq(|s|, i requires 0 <= i < |s| => s[|s| - 1 - i])
  }

  lemma BackwardsPush(s: string, c: char)
    ensures Backwards(s + [c]) == [c] + Backwards(s)
  {
  }

  lemma {:induction false} DecimalDigits(n: nat)
    ensures forall i :: 0 <= i < |Decimal(n)| ==> Decimal(n)[i] != '\0'
  {
    if n >= 10 {
      DecimalDigits(n / 10);
    }
  }

  method Strlen(s: array<char>, ghost len: nat) returns (i: int)
    requires len < s.Length && s[len] == '\0' && forall j :: 0 <= j < len ==> s[j] != '\0'
    ensures i == len
  {
    i := 0;
    while s[i] != '\0'
      invariant 0 <= i <= len
      decreases len - i
    {
      i := i + 1;
    }
  }

  method Reverse(s: array<char>, ghost len: nat)
    requires len < s.Length && s[len] == '\0' && forall j :: 0 <= j < len ==> s[j] != '\0'
    modifies s
    ensures s[..len] == Backwards(old(s[..len])) && s[len..] == old(s[len..])
  {
    var n := Strlen(s, len);
    if n > 1 {
      var src, dst := 0, n - 1;
      while src < dst
        invariant 0 <= src <= dst + 1 <= n && src + dst == n - 1
        invariant forall j :: 0 <= j < src || dst < j < n ==> s[j] == old(s[n - 1 - j])
        invariant forall j :: src <= j <= dst || n <= j < s.Length ==> s[j] == old(s[j])
      {
        s[src], s[dst] := s[dst], s[src];
        src, dst := src + 1, dst - 1;
      }
    }
  }

  /** Moving the last digit over. */
  lemma DigitMoves(n: nat, back: string, all: string)
    requires Decimal(n) + back == all
    ensures var rest := ["0123456789"[n % 10]] + back;
            if n < 10 then rest == all else Decimal(n / 10) + rest == all
  {
  }

  /** The digits, last one first. */
  method DigitsBackwards(n0: nat, s: array<char>) returns (len: int)
    requires |Decimal(n0)| <= s.Length
    modifies s
    ensures len == |Decimal(n0)| && Backwards(s[..len]) == Decimal(n0)
  {
    var n, i := n0, 0;
    ghost var back := "";
    while true
      invariant n >= 0 && 0 <= i == |back| && Decimal(n) + back == Decimal(n0) && back == Backwards(s[..i])
      decreases n
    {
      DigitMoves(n, back, Decimal(n0));
      BackwardsPush(s[..i], "0123456789"[n % 10]);
      back := ["0123456789"[n % 10]] + back;
      s[i] := "0123456789"[n % 10];
      assert s[..i + 1] == s[..i] + [s[i]];
      i, n := i + 1, n / 10;
      if n <= 0 {
        break;
      }
    }
    len := i;
  }

  /** A number as text, with a sign if it is negative. */
  function Signed(n: int): string {
    if n < 0 then "-" + Decimal(-n) else Decimal(n)
  }

  /** The nonces that there are fit into twenty characters, with a terminator. */
  lemma NonceFits(n: nat)
    requires n < TWO_63
    ensures |Signed(n)| < 20
  {
    Pow10At19();
    DecimalFits(n, 19);
  }

  /** The sign, if there is one, behind the digits. */
  method AddSign(n: int, digits: int, s: array<char>) returns (len: int)
    requires var m := if n < 0 then -n else n;
             digits == |Decimal(m)| && |Signed(n)| <= s.Length && Backwards(s[..digits]) == Decimal(m)
    modifies s
    ensures len == |Signed(n)| && Backwards(s[..len]) == Signed(n)
  {
    len := digits;
    if n < 0 {
      BackwardsPush(s[..digits], '-');
      s[digits] := '-';
      len := digits + 1;
      assert s[..len] == s[..digits] + ['-'];
    }
  }

  lemma SignedDigits(n: int)
    ensures forall i :: 0 <= i < |Signed(n)| ==> Signed(n)[i] != '\0'
  {
    DecimalDigits(if n < 0 then -n else n);
  }

  /** The text of a number, and a terminator, in a buffer that is long enough for both. */
  method Itoa(n: int, s: array<char>) returns (len: int)
    requires 0 < n + TWO_63 && n < TWO_63 && |Signed(n)| < s.Length
    modifies s
    ensures len == |Signed(n)| && s[..len] == Signed(n)
  {
    var digits := DigitsBackwards(if n < 0 then -n else n, s);
    len := AddSign(n, digits, s);
    SignedDigits(n);
    TurnRound(s, len, Signed(n));
  }

  /** Terminate a text that was written backwards, and turn it round. */
  method TurnRound(s: array<char>, len: int, ghost text: string)
    requires 0 <= len < s.Length && Backwards(s[..len]) == text
    requires forall i :: 0 <= i < |text| ==> text[i] != '\0'
    modifies s
    ensures s[..len] == text
  {
    ghost var back := s[..len];
    BackwardsDigits(back, text);
    s[len] := '\0';
    assert s[..len] == back;
    forall j | 0 <= j < len ensures s[j] != '\0' {
      assert s[j] == back[j];
    }
    Reverse(s, len);
  }

  lemma BackwardsDigits(s: string, t: string)
    requires Backwards(s) == t && forall i :: 0 <= i < |t| ==> t[i] != '\0'
    ensures forall i :: 0 <= i < |s| ==> s[i] != '\0'
  {
    forall i | 0 <= i < |s| ensures s[i] != '\0' {
      assert t[|s| - 1 - i] == s[i];
    }
  }

  // ----- one thread of the kernel

  function Ascii(s: string): (t: seq<bv8>)
    ensures |t| == |s|
  {
    seq(|s|, i requires 0 <= i < |s| => (s[i] as int % 256) as bv8)
  }

  lemma AsciiJoin(a: string, b: string)
    ensures Ascii(a + b) == Ascii(a) + Ascii(b)
  {
  }

  class MinerState {
    const prev: Sha3Context
    const last: array<bv8>
    var lastLen: int
    var target: seq<bv8>

    constructor (f: State -> State)
      ensures Valid() && prev.f == f && fresh(prev) && fresh(prev.b) && fresh(last)
    {
      prev := new Sha3Context(f);
      last := new bv8[512](_ => 0);
      lastLen := 0;
      target := seq(32, _ => 0);
    }

    ghost predicate Valid()
      reads this, prev
    {
      prev.Valid() && last.Length == 512 && 0 <= lastLen <= 512 && prev.b != last && |target| == 32
    }

    /** The midstate after the first part of a header, its last part, and the target. */
    ghost predicate Loaded(first: seq<bv8>, suffix: seq<bv8>, goal: seq<bv8>)
      reads this, prev, prev.b, last
    {
      Valid() && prev.View() == Absorb(prev.f, START, first) && last[..lastLen] == suffix && target == goal
    }

    method Update(first: seq<bv8>, suffix: seq<bv8>, goal: seq<bv8>)
      requires Valid() && |suffix| <= 512 && |goal| == 32
      modifies this, prev, prev.b, last
      ensures Loaded(first, suffix, goal)
    {
      prev.Init();
      prev.Update(first);
      lastLen := |suffix|;
      forall i | 0 <= i < |suffix| {
        last[i] := suffix[i];
      }
      target := goal;
    }

    /** Accepts a nonce exactly when the whole header with it hashes to at most the target. */
    method Kernel(nonce: int, ghost first: seq<bv8>, ghost suffix: seq<bv8>, ghost goal: seq<bv8>) returns (found: bool)
      requires Loaded(first, suffix, goal) && 0 <= nonce < TWO_63
      ensures found <==> BigEndian(Sha3(prev.f, first + Ascii(Decimal(nonce)) + suffix)) <= BigEndian(goal)
    {
      var s := new char[20](_ => '0');
      NonceFits(nonce);
      var n := Itoa(nonce, s);
      assert s[..n] == Decimal(nonce);
      var sha3 := new Sha3Context(prev.f);
      sha3.CopyFrom(prev);
      sha3.Update(Ascii(s[..n]));
      sha3.Update(last[..lastLen]);
      var hash := sha3.Final();
      Sha3InParts(prev.f, first, Ascii(Decimal(nonce)), suffix);
      var r := Memcmp(hash, target);
      found := r <= 0;
    }
  }
}
