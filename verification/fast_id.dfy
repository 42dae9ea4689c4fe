/**
The two ways a miner finds a block's ID without serializing the header again: hashing the
patched buffer, and letting a device finish the hash of a prefix it has absorbed before.
*/
module FastID {
  import opened Types
  import opened HeaderJson
  import opened HeaderHasher
  import opened Sponge
  import opened Device

  /** A block's ID as a number: the SHA3-256 hash of its serialized header. */
  function IDOf(f: State -> State, h: BlockHeader): nat
    requires Encodable(h)
  {
    BigEndian(Sha3(f, Ascii(Serialize(h))))
  }

  /** The part of the serialized header before the nonce, and the part after it. */
  function Prefix(h: BlockHeader): string
    requires Encodable(h)
  {
    Join(Pieces(h), 0, LAYOUT.nonce)
  }

  function Suffix(h: BlockHeader): string
    requires Encodable(h)
  {
    Join(Pieces(h), LAYOUT.nonce + 1, 17)
  }

  /** Neither depends on the nonce, and with any nonce in between they are the whole header. */
  lemma AroundNonce(h: BlockHeader, nonce: int)
    requires Encodable(h) && 0 <= nonce < TWO_63
    ensures Prefix(h) + Decimal(nonce) + Suffix(h) == Serialize(h.(nonce := nonce))
  {
    var g := h.(nonce := nonce);
    var p, q, n := Pieces(h), Pieces(g), LAYOUT.nonce;
    SameAround(h, g);
    JoinSame(p, q, 0, n);
    JoinSame(p, q, n + 1, 17);
    JoinSplit(q, 0, n + 1, 17);
  }

  lemma SameAround(h: BlockHeader, g: BlockHeader)
    requires Encodable(h) && Encodable(g) && g == h.(nonce := g.nonce)
    ensures Same(Pieces(h), Pieces(g), 0, LAYOUT.nonce) && Same(Pieces(h), Pieces(g), LAYOUT.nonce + 1, 17)
    ensures Pieces(g)[LAYOUT.nonce] == Decimal(g.nonce)
  {
  }

  lemma SamePrefix(h: BlockHeader, g: BlockHeader)
    requires Encodable(h) && Encodable(g) && g == h.(nonce := g.nonce)
    ensures Prefix(h) == Prefix(g) && Suffix(h) == Suffix(g)
  {
    SameAround(h, g);
    JoinSame(Pieces(h), Pieces(g), 0, LAYOUT.nonce);
    JoinSame(Pieces(h), Pieces(g), LAYOUT.nonce + 1, 17);
  }

  lemma AsciiAroundNonce(h: BlockHeader, nonce: int)
    requires Encodable(h) && 0 <= nonce < TWO_63
    ensures Ascii(Prefix(h)) + Ascii(Decimal(nonce)) + Ascii(Suffix(h)) == Ascii(Serialize(h.(nonce := nonce)))
  {
    AroundNonce(h, nonce);
    AsciiJoin(Prefix(h), Decimal(nonce));
    AsciiJoin(Prefix(h) + Decimal(nonce), Suffix(h));
  }

  /** What the buffer holds around the nonce. */
  lemma BufferParts(b: seq<char>, h: BlockHeader, nonceOffset: int, nonceLen: int, bufLen: int)
    requires Encodable(h) && Holding(b, Pieces(h))
    requires nonceOffset == Offset(Pieces(h), LAYOUT.nonce) && nonceLen == |Pieces(h)[LAYOUT.nonce]|
        && bufLen == Offset(Pieces(h), 17)
    ensures 0 <= nonceOffset <= nonceOffset + nonceLen <= bufLen <= |b|
    ensures b[..bufLen] == Serialize(h)
    ensures b[..nonceOffset] == Prefix(h) && b[nonceOffset + nonceLen..bufLen] == Suffix(h)
  {
    var p, n := Pieces(h), LAYOUT.nonce;
    assert Offset(p, n + 1) == nonceOffset + nonceLen;
    Middle(b, p, 0, n);
    Middle(b, p, n + 1, 17);
    Middle(b, p, 0, 17);
    OffsetGrows(p, n, n + 1);
  }

  /** Hash the buffer: the ID of the header it shows. */
  method HashBuffer(h: BlockHeaderHasher, f: State -> State) returns (id: nat)
    requires h.Valid() && h.initialized
    ensures id == IDOf(f, h.shown)
  {
    BufferParts(h.buffer[..], h.shown, h.nonceOffset, h.nonceLen, h.bufLen);
    var hasher := new Sha3Context(f);
    hasher.Update(Ascii(h.buffer[..h.bufLen]));
    FinishIsSha3(f, Ascii(Serialize(h.shown)));
    var digest := hasher.Final();
    id := BigEndian(digest);
  }

  /** On the processor: whatever changed since the last call, the ID is that of the whole header. */
  method Update(h: BlockHeaderHasher, header: BlockHeader, f: State -> State) returns (id: nat)
    requires h.Valid() && !h.deviceMining && Encodable(header) && (h.initialized ==> SameFixed(h.shown, header))
    modifies h, h.buffer
    ensures h.Valid() && h.initialized && h.shown == header
    ensures id == IDOf(f, header)
  {
    if !h.initialized {
      h.InitBuffer(header);
    } else {
      var _ := h.Patch(header);
    }
    id := HashBuffer(h, f);
  }

  /** The device holds the parts of this header. */
  ghost predicate InStep(h: BlockHeaderHasher, device: MinerState, header: BlockHeader, target: seq<bv8>)
    requires Encodable(header)
    reads h, h.buffer, device, device.prev, device.prev.b, device.last
  {
    && h.Valid() && h.initialized && h.deviceMining && h.shown == header.(nonce := h.shown.nonce)
    && device.Loaded(Ascii(Prefix(header)), Ascii(Suffix(header)), target)
  }

  /** Send the device the parts of the buffer around the nonce. */
  method Send(h: BlockHeaderHasher, device: MinerState, header: BlockHeader, target: seq<bv8>)
    requires h.Valid() && h.initialized && Encodable(header) && h.shown == header.(nonce := h.shown.nonce)
    requires device.Valid() && |target| == 32
    modifies device, device.prev, device.prev.b, device.last
    ensures device.Loaded(Ascii(Prefix(header)), Ascii(Suffix(header)), target)
  {
    BufferParts(h.buffer[..], h.shown, h.nonceOffset, h.nonceLen, h.bufLen);
    SamePrefix(header, h.shown);
    var lastOffset := h.nonceOffset + h.nonceLen;
    var first, last := Ascii(h.buffer[..h.nonceOffset]), Ascii(h.buffer[lastOffset..h.bufLen]);
    assert BUFFER_LENGTH <= 512;
    device.Update(first, last, target);
  }

  lemma NotChanged(b: seq<char>, g: BlockHeader, h: BlockHeader, header: BlockHeader, nonceOffset: int,
          nonceLen: int, bufLen: int)
    requires Encodable(g) && Encodable(h) && Encodable(header) && h == header.(nonce := h.nonce)
    requires Holding(b, Pieces(g)) && Holding(b, Pieces(h))
    requires nonceOffset == Offset(Pieces(g), LAYOUT.nonce) == Offset(Pieces(h), LAYOUT.nonce)
    requires nonceLen == |Pieces(g)[LAYOUT.nonce]| == |Pieces(h)[LAYOUT.nonce]|
    requires bufLen == Offset(Pieces(g), 17) == Offset(Pieces(h), 17)
    ensures Prefix(g) == Prefix(header) && Suffix(g) == Suffix(header)
  {
    BufferParts(b, g, nonceOffset, nonceLen, bufLen);
    BufferParts(b, h, nonceOffset, nonceLen, bufLen);
    SamePrefix(header, h);
  }

  /** On a device: after every update it holds the parts of the header at hand, sent again only if they changed. */
  method UpdateDevice(h: BlockHeaderHasher, device: MinerState, header: BlockHeader, target: seq<bv8>)
    requires h.Valid() && h.deviceMining && Encodable(header) && device.Valid() && |target| == 32
    requires h.initialized ==> SameFixed(h.shown, header) && InStep(h, device, h.shown, target)
    modifies h, h.buffer, device, device.prev, device.prev.b, device.last
    ensures InStep(h, device, header, target)
  {
    if !h.initialized {
      h.InitBuffer(header);
      Send(h, device, header, target);
      return;
    }
    ghost var before := h.shown;
    var bufferChanged := h.Patch(header);
    if bufferChanged {
      Send(h, device, header, target);
    } else {
      NotChanged(h.buffer[..], before, h.shown, header, h.nonceOffset, h.nonceLen, h.bufLen);
    }
  }

  /** What the device answers when it finds no nonce, and what the miner is told then. */
  const NOT_FOUND := 0x7FFF_FFFF_FFFF_FFFF
  const NO_SOLUTION := TWO_256 - 1

  /**
  Go on with the nonce that a device answers.  If it found one, the buffer is rebuilt with it and
  the ID is that of the header with this nonce; either way the device is still in step.
  */
  method CheckSolution(h: BlockHeaderHasher, device: MinerState, header: BlockHeader, target: seq<bv8>, nonce: int)
      returns (id: nat, solved: BlockHeader)
    requires Encodable(header) && InStep(h, device, header, target) && 0 <= nonce < TWO_63
    modifies h, h.buffer
    ensures solved == if nonce == NOT_FOUND then header else header.(nonce := nonce)
    ensures id == if nonce == NOT_FOUND then NO_SOLUTION else IDOf(device.prev.f, solved)
    ensures InStep(h, device, solved, target)
  {
    if nonce == NOT_FOUND {
      return NO_SOLUTION, header;
    }
    solved := header.(nonce := nonce);
    SamePrefix(header, solved);
    h.InitBuffer(solved);
    id := HashBuffer(h, device.prev.f);
  }

  /** The device accepts exactly the nonces that satisfy the proof of work. */
  method TryNonce(h: BlockHeaderHasher, device: MinerState, header: BlockHeader, target: seq<bv8>,
          nonce: int) returns (found: bool)
    requires Encodable(header) && InStep(h, device, header, target) && BigEndian(target) == header.target
    requires 0 <= nonce < TWO_63
    ensures found <==> IDOf(device.prev.f, header.(nonce := nonce)) <= header.target
  {
    AsciiAroundNonce(header, nonce);
    found := device.Kernel(nonce, Ascii(Prefix(header)), Ascii(Suffix(header)), target);
  }
}
