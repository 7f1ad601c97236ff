/** The sponge construction over byte strings (FIPS 202, section 4): absorbing, the two
    paddings the miner uses, and the digest. */
module Sponge {
  import opened Lanes
  import opened Keccak

  // ----- lanes as little-endian bytes -----

  function LaneOf(b: seq<Byte>): Lane
    requires |b| == 8
  {
    (b[0] as Lane) | (b[1] as Lane << 8) | (b[2] as Lane << 16) | (b[3] as Lane << 24)
    | (b[4] as Lane << 32) | (b[5] as Lane << 40) | (b[6] as Lane << 48) | (b[7] as Lane << 56)
  }

  function BytesOf(v: Lane): (b: seq<Byte>)
    ensures |b| == 8
  {
    [(v & 0xFF) as Byte, ((v >> 8) & 0xFF) as Byte, ((v >> 16) & 0xFF) as Byte, ((v >> 24) & 0xFF) as Byte,
     ((v >> 32) & 0xFF) as Byte, ((v >> 40) & 0xFF) as Byte, ((v >> 48) & 0xFF) as Byte, (v >> 56) as Byte]
  }

  lemma BytesOfLaneOf(b: seq<Byte>)
    requires |b| == 8
    ensures BytesOf(LaneOf(b)) == b
  {}

  function StateBytes(a: State): (b: seq<Byte>)
    ensures |b| == 200
  {
    seq(200, k requires 0 <= k < 200 => BytesOf(a[k / 8])[k % 8])
  }

  /** The 32-bit word i of the state as it lies in memory, low half of a lane first. */
  function WordAt(a: State, i: nat): bv32
    requires i < 50
  {
    if i % 2 == 0 then (a[i / 2] & 0xFFFF_FFFF) as bv32 else (a[i / 2] >> 32) as bv32
  }

  function WordsOf(a: State): (words: seq<bv32>)
    ensures |words| == 50
  {
    seq(50, i requires 0 <= i < 50 => WordAt(a, i))
  }

  // ----- absorbing -----

  /** The block sizes of Keccak-224, 256, 384 and 512 in bytes. */
  predicate IsRate(r: nat) {
    r == 144 || r == 136 || r == 104 || r == 72
  }

  /** The digest sizes in bits that a context can be made for, and their block sizes. */
  predicate IsBits(bits: nat) {
    bits == 224 || bits == 256 || bits == 384 || bits == 512
  }

  function RateOf(bits: nat): (r: nat)
    requires IsBits(bits)
    ensures IsRate(r)
  {
    (1600 - bits * 2) / 8
  }

  /** How many bytes of len do not fill a block. */
  function Rest(len: nat, r: nat): (rest: nat)
    requires IsRate(r)
    ensures rest < r && rest <= len
  {
    len % r
  }

  lemma RestQuotient(len: nat, r: nat) returns (q: nat)
    requires IsRate(r)
    ensures len == q * r + Rest(len, r)
  {
    q := len / r;
  }

  lemma {:induction false} AtLeastOneMore(p: int, q: int, r: nat)
    requires p < q
    ensures p * r + r <= q * r
    decreases q - p
  {
    var before := q - 1;
    assert q * r == before * r + r;
    if p < before {
      AtLeastOneMore(p, before, r);
    }
  }

  lemma RestUnique(len: nat, r: nat, q: int, s: nat)
    requires IsRate(r) && s < r && len == q * r + s
    ensures Rest(len, r) == s
  {
    hide IsRate, Rest;
    var p := RestQuotient(len, r);
    if p < q {
      AtLeastOneMore(p, q, r);
    } else if q < p {
      AtLeastOneMore(q, p, r);
    }
  }

  /** Only the rest of one length matters to the rest of a sum. */
  lemma RestSum(len: nat, r: nat, more: nat)
    requires IsRate(r)
    ensures Rest(len + more, r) == Rest(Rest(len, r) + more, r)
  {
    hide IsRate, Rest;
    var q := RestQuotient(len, r);
    var p := RestQuotient(Rest(len, r) + more, r);
    assert (q + p) * r == q * r + p * r;
    RestUnique(len + more, r, q + p, Rest(Rest(len, r) + more, r));
  }

  lemma RestSmall(len: nat, r: nat)
    requires IsRate(r)
    ensures len < r ==> Rest(len, r) == len
    ensures Rest(r, r) == 0
  {}

  lemma RestWhole(len: nat, r: nat)
    requires IsRate(r)
    ensures Rest(len - Rest(len, r), r) == 0
  {
    hide IsRate, Rest;
    var q := RestQuotient(len, r);
    RestUnique(len - Rest(len, r), r, q, 0);
  }

  lemma RestFill(len: nat, r: nat)
    requires IsRate(r)
    ensures Rest(len + (r - Rest(len, r)), r) == 0
  {
    hide IsRate, Rest;
    RestSum(len, r, r - Rest(len, r));
    RestSmall(0, r);
  }

  /** A whole block more or less leaves the rest as it is. */
  lemma RestBlock(len: nat, r: nat)
    requires IsRate(r)
    ensures Rest(len + r, r) == Rest(len, r)
  {
    hide IsRate, Rest;
    var q := RestQuotient(len, r);
    assert (q + 1) * r == q * r + r;
    RestUnique(len + r, r, q + 1, Rest(len, r));
  }

  /** The lanes from lane 0 up to lane n take up the bytes of the block. */
  function XorLanes(a: State, block: seq<Byte>, n: nat): State
    requires 8 * n <= |block|
  {
    seq(25, i requires 0 <= i < 25 => if i < n then Xor(a[i], LaneOf(block[8 * i..8 * i + 8])) else a[i])
  }

  function AbsorbBlock(a: State, block: seq<Byte>): State
    requires IsRate(|block|)
  {
    Permute(XorLanes(a, block, |block| / 8))
  }

  /** The state after the whole blocks of m, in order; a partial last block is left out. */
  function Absorb(a: State, r: nat, m: seq<Byte>): State
    requires IsRate(r)
    decreases |m|
  {
    if |m| < r then a else Absorb(AbsorbBlock(a, m[..r]), r, m[r..])
  }

  lemma {:induction false} AbsorbConcat(a: State, r: nat, m: seq<Byte>, n: seq<Byte>)
    requires IsRate(r) && Rest(|m|, r) == 0
    ensures Absorb(a, r, m + n) == Absorb(Absorb(a, r, m), r, n)
    decreases |m|
  {
    hide AbsorbBlock, Rest;
    if |m| == 0 {
      assert m + n == n;
    } else {
      RestSmall(|m|, r);
      RestBlock(|m| - r, r);
      AbsorbConcat(AbsorbBlock(a, m[..r]), r, m[r..], n);
      assert (m + n)[..r] == m[..r];
      assert (m + n)[r..] == m[r..] + n;
    }
  }

  /** One more block on top of whole blocks. */
  lemma AbsorbNext(a: State, r: nat, m: seq<Byte>, block: seq<Byte>)
    requires IsRate(r) && Rest(|m|, r) == 0 && |block| == r
    ensures Absorb(a, r, m + block) == AbsorbBlock(Absorb(a, r, m), block)
  {
    hide AbsorbBlock, Rest;
    AbsorbConcat(a, r, m, block);
    assert block[..r] == block;
  }

  /** A partial last block does not reach the state. */
  lemma AbsorbWhole(a: State, r: nat, m: seq<Byte>, tail: seq<Byte>)
    requires IsRate(r) && Rest(|m|, r) == 0 && |tail| < r
    ensures Absorb(a, r, m + tail) == Absorb(a, r, m)
  {
    hide AbsorbBlock, Rest;
    AbsorbConcat(a, r, m, tail);
  }

  // ----- padding and digest -----

  /** Keccak's own padding, and the altered one that ends the miner's third hash. */
  datatype Padding = KECCAK | MEER {

    function First(): Byte {
      if KECCAK? then 0x01 else 0x81
    }

    function Last(): Byte {
      if KECCAK? then 0x80 else 0xF1
    }
  }

  function Zeros(n: nat): (z: seq<Byte>)
    ensures |z| == n
    ensures forall i :: 0 <= i < n ==> z[i] == 0
  {
    if n == 0 then [] else Zeros(n - 1) + [0]
  }

  /** What completes len bytes to whole blocks of r: at least one byte. */
  function Pad(p: Padding, r: nat, len: nat): (pad: seq<Byte>)
    requires IsRate(r)
    ensures |pad| == r - Rest(len, r)
  {
    var q := r - Rest(len, r);
    if q == 1 then [p.First() | p.Last()] else [p.First()] + Zeros(q - 2) + [p.Last()]
  }

  function Padded(p: Padding, r: nat, m: seq<Byte>): (padded: seq<Byte>)
    requires IsRate(r)
    ensures Rest(|padded|, r) == 0 && |padded| > 0
  {
    RestFill(|m|, r);
    m + Pad(p, r, |m|)
  }

  function DigestLength(r: nat): nat
    requires IsRate(r)
  {
    100 - r / 2
  }

  /** The whole message absorbed in one go, the digest squeezed from the final state. */
  function Digest(p: Padding, r: nat, m: seq<Byte>): (d: seq<Byte>)
    requires IsRate(r)
    ensures |d| == DigestLength(r)
  {
    StateBytes(Absorb(ZeroState(), r, Padded(p, r, m)))[..DigestLength(r)]
  }
}
