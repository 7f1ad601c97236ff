/** The miner's hash of a block header, and the midstate that lets a chip skip the part of
    the header that a new nonce does not touch. */
module MeerHash {
  import opened Seqs
  import opened Lanes
  import opened Keccak
  import opened KeccakInverse
  import opened Sponge
  import opened SpongeContext
  import opened SpongePadding

  const HEADER: nat := 117

  const NONCE_START: nat := 109

  // ----- streaming -----

  function Flatten(pieces: seq<seq<Byte>>): seq<Byte> {
    if |pieces| == 0 then [] else Flatten(pieces[..|pieces| - 1]) + pieces[|pieces| - 1]
  }

  method UpdateAll(ctx: Context, pieces: seq<seq<Byte>>, addr: seq<nat>)
    requires ctx.Valid() && !HasFlag(ctx.rest) && |addr| == |pieces|
    requires forall i :: 0 <= i < |pieces| ==> |pieces[i]| <= MAX_OBJECT
    modifies ctx`rest, ctx`data, ctx.hash, ctx.message
    ensures ctx.Valid() && !HasFlag(ctx.rest)
    ensures ctx.data == old(ctx.data) + Flatten(pieces)
  {
    hide HasFlag;
    ghost var start := ctx.data;
    assert start + [] == start;
    for i := 0 to |pieces|
      invariant ctx.Valid() && !HasFlag(ctx.rest)
      invariant ctx.data == start + Flatten(pieces[..i])
    {
      WholePrefix(pieces[..i]);
      assert pieces[..i + 1][..i] == pieces[..i];
      Regroup(start, Flatten(pieces[..i]), pieces[i]);
      ctx.Update(pieces[i], addr[i]);
    }
    WholePrefix(pieces);
  }

  /** Once a context is finalised, an update and the other final call leave its digest. */
  method AskAgain(ctx: Context, late: seq<Byte>) returns (again: seq<Byte>)
    requires ctx.Valid() && HasFlag(ctx.rest) && |late| <= MAX_OBJECT
    modifies ctx`rest, ctx`data, ctx`padding, ctx.hash, ctx.message
    ensures again == Digest(old(ctx.padding), ctx.blockSize, old(ctx.data))
  {
    hide *;
    ctx.Update(late, 0);
    again := ctx.Sha3Final();
  }

  /** However a message is cut into updates, and wherever its pieces lie, the digest is the
      one of the whole message absorbed at once; after it, updates and final calls change
      nothing. */
  method DigestOfPieces(bits: nat, pieces: seq<seq<Byte>>, addr: seq<nat>, late: seq<Byte>)
    returns (d: seq<Byte>, again: seq<Byte>)
    requires IsBits(bits)
    requires |addr| == |pieces| && |late| <= MAX_OBJECT
    requires forall i :: 0 <= i < |pieces| ==> |pieces[i]| <= MAX_OBJECT
    ensures d == again == Digest(KECCAK, RateOf(bits), Flatten(pieces))
  {
    hide *;
    var ctx := new Context(bits);
    UpdateAll(ctx, pieces, addr);
    EmptyFront(Flatten(pieces));
    d := ctx.KeccakFinal();
    again := AskAgain(ctx, late);
  }

  // ----- the header hash -----

  function FlipFirstBit(b: seq<Byte>): seq<Byte>
    requires |b| > 0
  {
    b[0 := Flipped(b[0])]
  }

  /** One bit of the string is flipped, its first. */
  lemma FlipIsOneBit(b: seq<Byte>)
    requires |b| > 0
    ensures Bits(FlipFirstBit(b)) == Bits(b)[0 := !Bits(b)[0]]
  {
    hide *;
    FlipInByte(b[0]);
    FlipParts(b);
    BitsFront(b);
    BitsFront(FlipFirstBit(b));
    FirstOfJoined(BitsOf(b[0]), Bits(b[1..]), !BitsOf(b[0])[0]);
  }

  lemma FirstOfJoined(x: seq<bool>, y: seq<bool>, v: bool)
    requires |x| > 0
    ensures (x + y)[0] == x[0] && (x + y)[0 := v] == x[0 := v] + y
  {}

  function Flipped(b: Byte): Byte {
    b ^ 1
  }

  lemma FlipParts(b: seq<Byte>)
    requires |b| > 0
    ensures |FlipFirstBit(b)| == |b| && FlipFirstBit(b)[0] == Flipped(b[0]) && FlipFirstBit(b)[1..] == b[1..]
  {}

  lemma FlipInByte(b: Byte)
    ensures BitsOf(Flipped(b)) == BitsOf(b)[0 := !BitsOf(b)[0]]
  {
    FlipLowest(b);
    FlipOthers(b);
  }

  lemma FlipLowest(b: Byte)
    ensures ((b ^ 1) & 1 != 0) == !(b & 1 != 0)
  {}

  lemma FlipOthers(b: Byte)
    ensures (b ^ 1) & 2 == b & 2 && (b ^ 1) & 4 == b & 4 && (b ^ 1) & 8 == b & 8 && (b ^ 1) & 16 == b & 16
    ensures (b ^ 1) & 32 == b & 32 && (b ^ 1) & 64 == b & 64 && (b ^ 1) & 128 == b & 128
  {}

  /** The third stage's message: a string that is the second digest but for its first bit. */
  ghost predicate IsFlipped(t: seq<Byte>, two: seq<Byte>)
    requires |two| > 0
  {
    Bits(t) == Bits(two)[0 := !Bits(two)[0]]
  }

  /** One of the three stages of meer_hash: a fresh context, one update, one final call. */
  method Stage(bits: nat, p: Padding, msg: seq<Byte>, addr: nat) returns (d: seq<Byte>)
    requires IsBits(bits)
    requires |msg| <= MAX_OBJECT
    ensures d == Digest(p, RateOf(bits), msg)
  {
    hide *;
    var ctx := new Context(bits);
    ctx.Update(msg, addr);
    EmptyFront(msg);
    if p.KECCAK? {
      d := ctx.KeccakFinal();
    } else {
      d := ctx.Sha3Final();
    }
  }

  /** meer_hash, on the header at address addr; the two intermediate results lie at addr1
      and addr2: Keccak-512 twice, one bit flipped, then the altered 256-bit hash. */
  method Hash(input: seq<Byte>, addr: nat, addr1: nat, addr2: nat) returns (out: seq<Byte>)
    requires |input| >= HEADER
    ensures |out| == 32
    ensures var two := Digest(KECCAK, 72, Digest(KECCAK, 72, input[..HEADER]));
            exists t :: |t| == 64 && IsFlipped(t, two) && out == Digest(MEER, 136, t)
  {
    assert RateOf(512) == 72 && RateOf(256) == 136;
    hide Digest, FlipFirstBit, Bits;
    var tempOut := Stage(512, KECCAK, input[..HEADER], addr);
    var tempOut2 := Stage(512, KECCAK, tempOut, addr1);
    FlipIsOneBit(tempOut2);
    FlipParts(tempOut2);
    tempOut2 := FlipFirstBit(tempOut2);
    out := Stage(256, MEER, tempOut2, addr2);
  }

  // ----- midstate -----

  function LaneOfWords(low: bv32, high: bv32): Lane {
    (low as Lane) | (high as Lane << 32)
  }

  function StateOf(words: seq<bv32>): State
    requires |words| == 50
  {
    seq(25, i requires 0 <= i < 25 => LaneOfWords(words[2 * i], words[2 * i + 1]))
  }

  lemma LaneOfHalves(v: Lane)
    ensures LaneOfWords((v & 0xFFFF_FFFF) as bv32, (v >> 32) as bv32) == v
  {}

  lemma HalvesAt(a: State, i: nat)
    requires i < 25
    ensures WordAt(a, 2 * i) == (a[i] & 0xFFFF_FFFF) as bv32
    ensures WordAt(a, 2 * i + 1) == (a[i] >> 32) as bv32
  {}

  lemma StateOfWords(a: State)
    ensures StateOf(WordsOf(a)) == a
  {
    hide LaneOfWords, WordAt;
    forall i: nat | i < 25
      ensures StateOf(WordsOf(a))[i] == a[i]
    {
      HalvesAt(a, i);
      LaneOfHalves(a[i]);
    }
  }

  /** What is left to do at a midstate of a header: absorb the rest of it. */
  function Midstate(header: seq<Byte>): seq<bv32>
    requires |header| >= 72
  {
    WordsOf(AbsorbBlock(ZeroState(), header[..72]))
  }

  /** The first-stage digest of a header, from the midstate and the bytes after it alone. */
  function Resume(words: seq<bv32>, tail: seq<Byte>): seq<Byte>
    requires |words| == 50
  {
    StateBytes(Absorb(StateOf(words), 72, Padded(KECCAK, 72, tail)))[..DigestLength(72)]
  }

  /** A chip that is sent the midstate and the 45 bytes from byte 72 computes the first
      stage of the header hash, whatever the 72 bytes were. */
  lemma ResumeFromMidstate(header: seq<Byte>)
    requires |header| >= 72
    ensures Resume(Midstate(header), header[72..]) == Digest(KECCAK, 72, header)
  {
    hide Absorb, AbsorbBlock, StateBytes, WordsOf, StateOf, ZeroState, Rest, Zeros;
    var front, tail := header[..72], header[72..];
    StateOfWords(AbsorbBlock(ZeroState(), front));
    Cut(header, 72);
    RestBlock(|tail|, 72);
    Regroup(front, tail, Pad(KECCAK, 72, |tail|));
    RestSmall(72, 72);
    AbsorbConcat(ZeroState(), 72, front, Padded(KECCAK, 72, tail));
    AbsorbFirst(front);
  }

  /** meer_calc_midstate: the export happens after the first block of the header. */
  method CalcMidstate(out: array<bv32>, input: seq<Byte>, addr: nat) returns (code: int)
    requires out.Length == 50 && |input| >= HEADER
    modifies out
    ensures out[..] == Midstate(input[..HEADER]) && code == 200
  {
    var header := input[..HEADER];
    assert |header| == 117 && RateOf(512) == 72 && IsBits(512);
    hide *;
    var ctx1 := new Context(512);
    NothingBuffered(ctx1);
    ctx1.UpdateMid(header, addr, out);
    code := 200;
    EmptyFront(header[..72]);
    AbsorbFirst(header[..72]);
    assert out[..] == Midstate(header);
  }

  lemma AbsorbFirst(block: seq<Byte>)
    requires |block| == 72
    ensures Absorb(ZeroState(), 72, block) == AbsorbBlock(ZeroState(), block)
  {
    hide Absorb, AbsorbBlock, ZeroState, Rest;
    RestSmall(0, 72);
    AbsorbNext(ZeroState(), 72, [], block);
    EmptyFront(block);
    AbsorbEmpty(ZeroState(), 72);
  }

  lemma AbsorbEmpty(a: State, r: nat)
    requires IsRate(r)
    ensures Absorb(a, r, []) == a
  {}

  // ----- midstates tell fronts apart -----

  lemma XorLanesInjective(a: State, b: seq<Byte>, c: seq<Byte>, i: nat)
    requires i < 9 && |b| == |c| == 72 && XorLanes(a, b, 9)[i] == XorLanes(a, c, 9)[i]
    ensures b[8 * i..8 * i + 8] == c[8 * i..8 * i + 8]
  {
    hide Xor, LaneOf, BytesOf;
    var u, v := LaneOf(b[8 * i..8 * i + 8]), LaneOf(c[8 * i..8 * i + 8]);
    XorComm(a[i], u);
    XorComm(a[i], v);
    XorCancel(u, a[i]);
    XorCancel(v, a[i]);
    BytesOfLaneOf(b[8 * i..8 * i + 8]);
    BytesOfLaneOf(c[8 * i..8 * i + 8]);
  }

  /** From one state, different blocks lead to different states: nothing is lost. */
  lemma AbsorbBlockInjective(a: State, b: seq<Byte>, c: seq<Byte>)
    requires |b| == |c| == 72 && AbsorbBlock(a, b) == AbsorbBlock(a, c)
    ensures b == c
  {
    hide Permute, XorLanes;
    PermuteInjective(XorLanes(a, b, 9), XorLanes(a, c, 9));
    forall k: nat | k < 72
      ensures b[k] == c[k]
    {
      XorLanesInjective(a, b, c, k / 8);
      assert b[k] == b[8 * (k / 8)..8 * (k / 8) + 8][k % 8];
      assert c[k] == c[8 * (k / 8)..8 * (k / 8) + 8][k % 8];
    }
  }

  /** Two headers share a midstate exactly when they agree on their first 72 bytes. */
  lemma MidstateDecides(g: seq<Byte>, h: seq<Byte>)
    requires |g| >= 72 && |h| >= 72
    ensures Midstate(g) == Midstate(h) <==> g[..72] == h[..72]
  {
    hide AbsorbBlock, WordsOf, StateOf, ZeroState;
    StateOfWords(AbsorbBlock(ZeroState(), g[..72]));
    StateOfWords(AbsorbBlock(ZeroState(), h[..72]));
    if Midstate(g) == Midstate(h) {
      AbsorbBlockInjective(ZeroState(), g[..72], h[..72]);
    }
  }

  /** Writing another nonce into a header leaves its midstate valid: resuming from the old
      one yields the first-stage digest of the new header. */
  lemma NonceKeepsMidstate(header: seq<Byte>, nonce: seq<Byte>)
    requires |header| == HEADER && |nonce| == HEADER - NONCE_START
    ensures var renonced := header[..NONCE_START] + nonce;
            Resume(Midstate(header), renonced[72..]) == Digest(KECCAK, 72, renonced)
  {
    hide Midstate, Resume, Digest;
    var renonced := header[..NONCE_START] + nonce;
    assert renonced[..72] == header[..72];
    MidstateDecides(header, renonced);
    ResumeFromMidstate(renonced);
  }
}
