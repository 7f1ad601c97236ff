/** The sponge construction of FIPS 202 on strings of bits (sections 3.1 and 4), and that the
    digests of this program, on bytes and 64-bit lanes, are its digests. */
module SpongeStandard {
  import opened Seqs
  import opened Lanes
  import opened Keccak
  import opened Sponge
  import opened SpongePadding

  // ----- states as strings, section 3.1 -----

  function LowBit(v: Lane): bool {
    v & 1 != 0
  }

  function Half(v: Lane): Lane {
    v >> 1
  }

  /** The lowest n bits of a lane, lowest first. */
  function LaneBits(v: Lane, n: nat): (bits: seq<bool>)
    ensures |bits| == n
  {
    if n == 0 then [] else [LowBit(v)] + LaneBits(Half(v), n - 1)
  }

  /** The first n lanes of a state, one after the other, as section 3.1.3 has it. */
  function StateBits(a: seq<Lane>, n: nat): (s: seq<bool>)
    requires n <= |a|
    ensures |s| == 64 * n
  {
    if n == 0 then [] else StateBits(a, n - 1) + LaneBits(a[n - 1], 64)
  }

  function LaneOfBits(bits: seq<bool>): Lane {
    if |bits| == 0 then 0 else (if bits[0] then 1 else 0) | (LaneOfBits(bits[1..]) << 1)
  }

  /** The state of a string, as section 3.1.2 has it. */
  function StateOfBits(s: seq<bool>): State
    requires |s| == 1600
  {
    seq(25, i requires 0 <= i < 25 => LaneOfBits(s[64 * i..64 * i + 64]))
  }

  function Rest8(v: Lane): Lane {
    v >> 8
  }

  function LowByte(v: Lane): Byte {
    (v & 0xFF) as Byte
  }

  lemma EightBits(v: Lane)
    ensures var (v1, v2, v3) := (Half(v), Half(Half(v)), Half(Half(Half(v))));
            var (v4, v5, v6) := (Half(v3), Half(Half(v3)), Half(Half(Half(v3))));
            && BitsOf(LowByte(v)) == [LowBit(v), LowBit(v1), LowBit(v2), LowBit(v3), LowBit(v4), LowBit(v5), LowBit(v6),
                                      LowBit(Half(v6))]
            && Half(Half(v6)) == Rest8(v)
  {}

  lemma LaneBitsNext(v: Lane, n: nat)
    ensures LaneBits(v, n + 1) == [LowBit(v)] + LaneBits(Half(v), n)
  {}

  lemma EightJoined(x: seq<bool>, rest: seq<bool>)
    requires |x| == 8
    ensures [x[0]] + ([x[1]] + ([x[2]] + ([x[3]] + ([x[4]] + ([x[5]] + ([x[6]] + ([x[7]] + rest))))))) == x + rest
  {}

  lemma LaneBitsByte(v: Lane, n: nat)
    ensures LaneBits(v, n + 8) == BitsOf(LowByte(v)) + LaneBits(Rest8(v), n)
  {
    hide *;
    var v1 := Half(v);
    var v2 := Half(v1);
    var v3 := Half(v2);
    var v4 := Half(v3);
    var v5 := Half(v4);
    var v6 := Half(v5);
    var v7 := Half(v6);
    EightBits(v);
    EightJoined([LowBit(v), LowBit(v1), LowBit(v2), LowBit(v3), LowBit(v4), LowBit(v5), LowBit(v6), LowBit(v7)],
                LaneBits(Rest8(v), n));
    LaneBitsNext(v7, n);
    LaneBitsNext(v6, n + 1);
    LaneBitsNext(v5, n + 2);
    LaneBitsNext(v4, n + 3);
    LaneBitsNext(v3, n + 4);
    LaneBitsNext(v2, n + 5);
    LaneBitsNext(v1, n + 6);
    LaneBitsNext(v, n + 7);
  }

  lemma RestBytes(v: Lane)
    ensures var (v1, v2, v3) := (Rest8(v), Rest8(Rest8(v)), Rest8(Rest8(Rest8(v))));
            var (v4, v5, v6) := (Rest8(v3), Rest8(Rest8(v3)), Rest8(Rest8(Rest8(v3))));
            && BytesOf(v) == [LowByte(v), LowByte(v1), LowByte(v2), LowByte(v3), LowByte(v4), LowByte(v5), LowByte(v6),
                              LowByte(Rest8(v6))]
            && Rest8(Rest8(v6)) == 0
  {}

  /** The bytes of a lane, lowest first, are its bits, lowest first. */
  lemma BytesOfBits(v: Lane)
    ensures Bits(BytesOf(v)) == LaneBits(v, 64)
  {
    hide *;
    var v1 := Rest8(v);
    var v2 := Rest8(v1);
    var v3 := Rest8(v2);
    var v4 := Rest8(v3);
    var v5 := Rest8(v4);
    var v6 := Rest8(v5);
    var v7 := Rest8(v6);
    RestBytes(v);
    LaneBitsByte(v7, 0);
    LaneBitsByte(v6, 8);
    LaneBitsByte(v5, 16);
    LaneBitsByte(v4, 24);
    LaneBitsByte(v3, 32);
    LaneBitsByte(v2, 40);
    LaneBitsByte(v1, 48);
    LaneBitsByte(v, 56);
    NoLaneBits(Rest8(v7));
    BitsOfEight([LowByte(v), LowByte(v1), LowByte(v2), LowByte(v3),
                 LowByte(v4), LowByte(v5), LowByte(v6), LowByte(v7)]);
  }

  lemma BitsOfEight(b: seq<Byte>)
    requires |b| == 8
    ensures Bits(b) == BitsOf(b[0]) + (BitsOf(b[1]) + (BitsOf(b[2]) + (BitsOf(b[3])
                       + (BitsOf(b[4]) + (BitsOf(b[5]) + (BitsOf(b[6]) + (BitsOf(b[7]) + [])))))))
  {
    hide BitsOf;
    BitsFront(b);
    BitsFront(b[1..]);
    BitsFront(b[2..]);
    BitsFront(b[3..]);
    BitsFront(b[4..]);
    BitsFront(b[5..]);
    BitsFront(b[6..]);
    BitsFront(b[7..]);
    NoBits();
    assert b[8..] == [];
    hide Bits;
  }

  lemma NoBits()
    ensures Bits([]) == []
  {}

  lemma NoLaneBits(v: Lane)
    ensures LaneBits(v, 0) == []
  {}

  lemma StateBytesAt(a: State, n: nat)
    requires 0 < n <= 25
    ensures StateBytes(a)[..8 * n] == StateBytes(a)[..8 * (n - 1)] + BytesOf(a[n - 1])
  {
    hide BytesOf;
    var b := StateBytes(a);
    assert forall k :: 8 * (n - 1) <= k < 8 * n ==> k / 8 == n - 1 && b[k] == BytesOf(a[n - 1])[k % 8];
  }

  lemma {:induction false} StateBytesFront(a: State, n: nat)
    requires n <= 25
    ensures Bits(StateBytes(a)[..8 * n]) == StateBits(a, n)
  {
    hide BytesOf, StateBytes, LaneBits;
    if n > 0 {
      StateBytesFront(a, n - 1);
      StateBytesAt(a, n);
      BitsConcat(StateBytes(a)[..8 * (n - 1)], BytesOf(a[n - 1]));
      BytesOfBits(a[n - 1]);
      hide Bits;
    }
  }

  /** The bytes of a state in memory are its string. */
  lemma StateBytesBits(a: State)
    ensures Bits(StateBytes(a)) == StateBits(a, 25)
  {
    hide *;
    StateBytesFront(a, 25);
    WholePrefix(StateBytes(a));
    assert |StateBytes(a)| == 8 * 25;
  }

  // ----- a string as a state -----

  /** The lane is zero from bit n on. */
  predicate Fits(v: Lane, n: nat)
    decreases n
  {
    if n == 0 then v == 0 else Fits(Half(v), n - 1)
  }

  lemma HalfBack(v: Lane)
    ensures (if LowBit(v) then 1 else 0) | (Half(v) << 1) == v
  {}

  lemma {:induction false} LaneOfLaneBits(v: Lane, n: nat)
    requires Fits(v, n)
    ensures LaneOfBits(LaneBits(v, n)) == v
    decreases n
  {
    hide LowBit, Half;
    if n > 0 {
      LaneOfLaneBits(Half(v), n - 1);
      HalfBack(v);
      assert LaneBits(v, n)[1..] == LaneBits(Half(v), n - 1);
    }
  }

  lemma FitsNext(v: Lane, n: nat)
    ensures Fits(v, n + 1) <==> Fits(Half(v), n)
  {}

  lemma FitsByte(v: Lane, n: nat)
    ensures Fits(v, n + 8) <==> Fits(Rest8(v), n)
  {
    hide *;
    var v1 := Half(v);
    var v2 := Half(v1);
    var v3 := Half(v2);
    var v4 := Half(v3);
    var v5 := Half(v4);
    var v6 := Half(v5);
    EightBits(v);
    FitsNext(Half(v6), n);
    FitsNext(v6, n + 1);
    FitsNext(v5, n + 2);
    FitsNext(v4, n + 3);
    FitsNext(v3, n + 4);
    FitsNext(v2, n + 5);
    FitsNext(v1, n + 6);
    FitsNext(v, n + 7);
  }

  lemma FitsZero()
    ensures Fits(0, 0)
  {}

  lemma FitsLane(v: Lane)
    ensures Fits(v, 64)
  {
    hide *;
    var v1 := Rest8(v);
    var v2 := Rest8(v1);
    var v3 := Rest8(v2);
    var v4 := Rest8(v3);
    var v5 := Rest8(v4);
    var v6 := Rest8(v5);
    var v7 := Rest8(v6);
    RestBytes(v);
    FitsZero();
    FitsByte(v7, 0);
    FitsByte(v6, 8);
    FitsByte(v5, 16);
    FitsByte(v4, 24);
    FitsByte(v3, 32);
    FitsByte(v2, 40);
    FitsByte(v1, 48);
    FitsByte(v, 56);
  }

  lemma SliceOfFront(s: seq<bool>, t: seq<bool>, i: nat)
    requires i + 64 <= |s|
    ensures (s + t)[i..i + 64] == s[i..i + 64]
  {}

  lemma {:induction false} StateBitsAt(a: State, n: nat, i: nat)
    requires i < n <= 25
    ensures StateBits(a, n)[64 * i..64 * i + 64] == LaneBits(a[i], 64)
  {
    hide LaneBits;
    if i < n - 1 {
      StateBitsAt(a, n - 1, i);
      SliceOfFront(StateBits(a, n - 1), LaneBits(a[n - 1], 64), 64 * i);
    } else {
      JoinFront(StateBits(a, n - 1), LaneBits(a[n - 1], 64));
    }
  }

  /** Neither direction loses anything. */
  lemma StateOfStateBits(a: State)
    ensures StateOfBits(StateBits(a, 25)) == a
  {
    hide LaneBits, LaneOfBits, StateBits;
    forall i: nat | i < 25
      ensures StateOfBits(StateBits(a, 25))[i] == a[i]
    {
      StateBitsAt(a, 25, i);
      FitsLane(a[i]);
      LaneOfLaneBits(a[i], 64);
    }
  }

  // ----- the sponge, section 4 -----

  function XorBits(s: seq<bool>, t: seq<bool>): (x: seq<bool>)
    requires |s| == |t|
    ensures |x| == |s| && forall i :: 0 <= i < |s| ==> x[i] == (s[i] != t[i])
  {
    seq(|s|, i requires 0 <= i < |s| => s[i] != t[i])
  }

  /** Keccak-f[1600] on strings. */
  function F(s: seq<bool>): (t: seq<bool>)
    requires |s| == 1600
    ensures |t| == 1600
  {
    StateBits(Permute(StateOfBits(s)), 25)
  }

  /** One block of r bits, filled up with zeros, is added, and the state permuted. */
  function AbsorbBits(s: seq<bool>, r: nat, p: seq<bool>): (t: seq<bool>)
    requires |s| == 1600 && 0 < r <= 1600
    ensures |t| == 1600
    decreases |p|
  {
    if |p| < r then s else AbsorbBits(F(XorBits(s, p[..r] + Falses(1600 - r))), r, p[r..])
  }

  /** SPONGE[f, pad, r](N, d), for digests within one block. */
  function SpongeOf(n: seq<bool>, pad: seq<bool>, r: nat, d: nat): seq<bool>
    requires 0 < r <= 1600 && d <= r
  {
    AbsorbBits(Falses(1600), r, n + pad)[..d]
  }

  lemma XorHalves(v: Lane, w: Lane)
    ensures LowBit(Xor(v, w)) == (LowBit(v) != LowBit(w))
    ensures Half(Xor(v, w)) == Xor(Half(v), Half(w))
  {}

  lemma XorConcat(s: seq<bool>, t: seq<bool>, u: seq<bool>, v: seq<bool>)
    requires |s| == |u| && |t| == |v|
    ensures XorBits(s + t, u + v) == XorBits(s, u) + XorBits(t, v)
  {}

  lemma {:induction false} LaneBitsXor(v: Lane, w: Lane, n: nat)
    ensures LaneBits(Xor(v, w), n) == XorBits(LaneBits(v, n), LaneBits(w, n))
    decreases n
  {
    hide LowBit, Half, Xor;
    if n > 0 {
      XorHalves(v, w);
      LaneBitsXor(Half(v), Half(w), n - 1);
      XorConcat([LowBit(v)], LaneBits(Half(v), n - 1), [LowBit(w)], LaneBits(Half(w), n - 1));
      assert XorBits([LowBit(v)], [LowBit(w)]) == [LowBit(v) != LowBit(w)];
      hide XorBits;
    }
  }

  lemma LaneOfBytesBits(b: seq<Byte>)
    requires |b| == 8
    ensures LaneBits(LaneOf(b), 64) == Bits(b)
  {
    hide *;
    BytesOfLaneOf(b);
    BytesOfBits(LaneOf(b));
  }

  /** The string that is added to a state for the first n lanes. */
  function Added(block: seq<Byte>, n: nat, lanes: nat): (s: seq<bool>)
    requires 8 * n <= |block| && n <= lanes
    ensures |s| == 64 * lanes
  {
    Bits(block[..8 * n]) + Falses(64 * (lanes - n))
  }

  lemma {:induction false} NoLane(n: nat)
    ensures LaneBits(0, n) == Falses(n)
  {
    if n > 0 {
      assert Half(0) == 0 && !LowBit(0);
      NoLane(n - 1);
      assert [false] + Falses(n - 1) == Falses(n);
    }
  }

  lemma XorFalses(s: seq<bool>)
    ensures XorBits(s, Falses(|s|)) == s
  {}

  lemma AddedNext(block: seq<Byte>, n: nat, lanes: nat)
    requires 8 * n <= |block| && n <= lanes
    ensures Added(block, n, lanes + 1) == Added(block, n, lanes) + Falses(64)
    ensures n == lanes && 8 * n + 8 <= |block| ==>
              Added(block, n + 1, lanes + 1) == Added(block, n, lanes) + Bits(block[8 * n..8 * n + 8])
  {
    hide Bits;
    if n == lanes && 8 * n + 8 <= |block| {
      BitsConcat(block[..8 * n], block[8 * n..8 * n + 8]);
      assert block[..8 * n] + block[8 * n..8 * n + 8] == block[..8 * (n + 1)];
      assert Falses(0) == [];
    } else {
      FalsesJoin(64 * (lanes - n), 64);
      Regroup(Bits(block[..8 * n]), Falses(64 * (lanes - n)), Falses(64));
    }
  }

  lemma XorLanesAt(a: State, block: seq<Byte>, n: nat, i: nat)
    requires 8 * n <= |block| && i < 25
    ensures XorLanes(a, block, n)[i] == if i < n then Xor(a[i], LaneOf(block[8 * i..8 * i + 8])) else a[i]
  {
    hide Xor, LaneOf;
  }

  /** Adding a block to the lanes of a state is adding its bits. */
  lemma {:induction false} XorLanesBits(a: State, block: seq<Byte>, n: nat, lanes: nat)
    requires 8 * n <= |block| && lanes <= 25
    ensures var m := if n < lanes then n else lanes;
            StateBits(XorLanes(a, block, n), lanes) == XorBits(StateBits(a, lanes), Added(block, m, lanes))
    decreases lanes
  {
    hide Xor, LaneOf, XorLanes, LaneBits, Bits, Added, XorBits;
    if lanes == 0 {
      assert XorBits([], Added(block, 0, 0)) == [];
    } else {
      var i := lanes - 1;
      XorLanesBits(a, block, n, i);
      XorLanesAt(a, block, n, i);
      var m := if n < i then n else i;
      AddedNext(block, m, i);
      if i < n {
        LaneBitsXor(a[i], LaneOf(block[8 * i..8 * i + 8]), 64);
        LaneOfBytesBits(block[8 * i..8 * i + 8]);
        XorConcat(StateBits(a, i), LaneBits(a[i], 64), Added(block, m, i), Bits(block[8 * i..8 * i + 8]));
      } else {
        XorFalses(LaneBits(a[i], 64));
        XorConcat(StateBits(a, i), LaneBits(a[i], 64), Added(block, m, i), Falses(64));
      }
    }
  }

  lemma AddedBlock(block: seq<Byte>, n: nat)
    requires |block| == 8 * n && n <= 25
    ensures Added(block, n, 25) == Bits(block) + Falses(1600 - 8 * |block|)
  {
    WholePrefix(block);
  }

  lemma BlockIsBits(a: State, block: seq<Byte>)
    requires IsRate(|block|)
    ensures F(XorBits(StateBits(a, 25), Bits(block) + Falses(1600 - 8 * |block|)))
         == StateBits(AbsorbBlock(a, block), 25)
  {
    var n := |block| / 8;
    XorLanesBits(a, block, n, 25);
    AddedBlock(block, n);
    StateOfStateBits(XorLanes(a, block, n));
    hide XorLanes, StateBits, StateOfBits, Permute, Bits, XorBits;
  }

  lemma BitsCut(m: seq<Byte>, r: nat)
    requires r <= |m|
    ensures Bits(m)[..8 * r] == Bits(m[..r]) && Bits(m)[8 * r..] == Bits(m[r..])
  {
    hide Bits;
    Cut(m, r);
    BitsConcat(m[..r], m[r..]);
    JoinFront(Bits(m[..r]), Bits(m[r..]));
  }

  lemma {:induction false} AbsorbIsBits(a: State, r: nat, m: seq<Byte>)
    requires IsRate(r)
    ensures AbsorbBits(StateBits(a, 25), 8 * r, Bits(m)) == StateBits(Absorb(a, r, m), 25)
    decreases |m|
  {
    hide AbsorbBlock, StateBits, Bits, F, XorBits;
    if |m| >= r {
      BlockIsBits(a, m[..r]);
      BitsCut(m, r);
      AbsorbIsBits(AbsorbBlock(a, m[..r]), r, m[r..]);
    }
  }

  lemma {:induction false} ZeroBits(n: nat)
    requires n <= 25
    ensures StateBits(ZeroState(), n) == Falses(64 * n)
  {
    if n > 0 {
      ZeroBits(n - 1);
      NoLane(64);
      FalsesJoin(64 * (n - 1), 64);
      hide LaneBits, Falses;
    }
  }

  /** Every digest is a sponge over the padded bits of its message. */
  lemma DigestIsSponge(p: Padding, r: nat, m: seq<Byte>)
    requires IsRate(r)
    ensures Bits(Digest(p, r, m)) == SpongeOf(Bits(m), Bits(Pad(p, r, |m|)), 8 * r, 8 * DigestLength(r))
  {
    var padded := Padded(p, r, m);
    PaddedBits(p, r, m);
    ZeroBits(25);
    AbsorbIsBits(ZeroState(), r, padded);
    StateBytesBits(Absorb(ZeroState(), r, padded));
    BitsCut(StateBytes(Absorb(ZeroState(), r, padded)), DigestLength(r));
    hide Absorb, StateBytes, StateBits, Bits, AbsorbBits, Padded, Pad, ZeroState, Falses;
  }

  /** KECCAK[c](M, d) with c = 2d of section 5.2, at the four digest sizes. */
  lemma DigestIsKeccak(bits: nat, m: seq<Byte>)
    requires IsBits(bits)
    ensures Bits(Digest(KECCAK, RateOf(bits), m))
         == SpongeOf(Bits(m), Pad10Star1(1600 - 2 * bits, 8 * |m|), 1600 - 2 * bits, bits)
  {
    hide *;
    var r := RateOf(bits);
    RateInBits(bits);
    DigestIsSponge(KECCAK, r, m);
    KeccakPadIs(r, |m|);
  }

  lemma RateInBits(bits: nat)
    requires IsBits(bits)
    ensures 8 * RateOf(bits) == 1600 - 2 * bits && 8 * DigestLength(RateOf(bits)) == bits
  {}

  /** The altered padding in bits: 1000 0001, zeros, 1000 1111, or the latter alone. */
  function MeerPadBits(zeros: int): seq<bool> {
    var last := [true] + Falses(3) + [true, true, true, true];
    if zeros < 0 then last else [true] + Falses(6) + [true] + Falses(zeros) + last
  }

  lemma MeerPadIs(r: nat, len: nat)
    requires IsRate(r)
    ensures Bits(Pad(MEER, r, len)) == MeerPadBits(8 * (r - Rest(len, r)) - 16)
  {
    var q := r - Rest(len, r);
    MeerPad(r, len);
    assert Bits([0xF1]) == BitsOf(0xF1) == [true] + Falses(3) + [true, true, true, true];
    BitsMarks();
    hide Bits, BitsOf, Rest, Zeros, Pad, IsRate;
    if q > 1 {
      BitsZeros(q - 2);
      BitsConcat([0x81], Zeros(q - 2));
      BitsConcat([0x81] + Zeros(q - 2), [0xF1]);
    }
  }

  // ----- the exported words -----

  function WordBits(w: bv32): (bits: seq<bool>)
    ensures |bits| == 32
  {
    LaneBits(w as Lane, 32)
  }

  lemma FourBytes(v: Lane, n: nat)
    ensures var (v1, v2, v3) := (Rest8(v), Rest8(Rest8(v)), Rest8(Rest8(Rest8(v))));
            LaneBits(v, n + 32) == BitsOf(LowByte(v)) + (BitsOf(LowByte(v1)) + (BitsOf(LowByte(v2))
                                   + (BitsOf(LowByte(v3)) + LaneBits(Rest8(v3), n))))
  {
    hide *;
    LaneBitsByte(v, n + 24);
    LaneBitsByte(Rest8(v), n + 16);
    LaneBitsByte(Rest8(Rest8(v)), n + 8);
    LaneBitsByte(Rest8(Rest8(Rest8(v))), n);
  }

  function LowWord(v: Lane): Lane {
    v & 0xFFFF_FFFF
  }

  function HighWord(v: Lane): Lane {
    v >> 32
  }

  lemma LowWordFirst(v: Lane)
    ensures LowByte(LowWord(v)) == LowByte(v)
    ensures LowByte(Rest8(LowWord(v))) == LowByte(Rest8(v))
  {}

  lemma LowWordThird(v: Lane)
    ensures LowByte(Rest8(Rest8(LowWord(v)))) == LowByte(Rest8(Rest8(v)))
  {
    calc {
      LowByte(Rest8(Rest8(LowWord(v))));
      ((((v & 0xFFFF_FFFF) >> 8) >> 8) & 0xFF) as Byte;
      (((v >> 8) >> 8) & 0xFF) as Byte;
      LowByte(Rest8(Rest8(v)));
    }
  }

  lemma LowWordFourth(v: Lane)
    ensures LowByte(Rest8(Rest8(Rest8(LowWord(v))))) == LowByte(Rest8(Rest8(Rest8(v))))
  {
    calc {
      LowByte(Rest8(Rest8(Rest8(LowWord(v)))));
      (((((v & 0xFFFF_FFFF) >> 8) >> 8) >> 8) & 0xFF) as Byte;
      ((((v >> 8) >> 8) >> 8) & 0xFF) as Byte;
      LowByte(Rest8(Rest8(Rest8(v))));
    }
  }

  lemma HighWordIsRest(v: Lane)
    ensures Rest8(Rest8(Rest8(Rest8(v)))) == HighWord(v)
  {}

  function Low32(v: Lane): bv32 {
    (v & 0xFFFF_FFFF) as bv32
  }

  function High32(v: Lane): bv32 {
    (v >> 32) as bv32
  }

  lemma WordAtIs(a: State, i: nat)
    requires i < 25
    ensures WordAt(a, 2 * i) == Low32(a[i]) && WordAt(a, 2 * i + 1) == High32(a[i])
  {}

  lemma LowBack(v: Lane)
    ensures Low32(v) as Lane == LowWord(v)
  {}

  lemma HighBack(v: Lane)
    ensures High32(v) as Lane == HighWord(v)
  {}

  lemma WordsAt(a: State, k: nat)
    requires k < 50
    ensures WordsOf(a)[k] == WordAt(a, k)
  {
    hide WordAt;
  }

  lemma FiveJoined(a: seq<bool>, b: seq<bool>, c: seq<bool>, d: seq<bool>, e: seq<bool>)
    ensures a + (b + (c + (d + e))) == (a + (b + (c + (d + [])))) + e
  {}

  /** Words 2i and 2i + 1 are the bits of lane i, the lower ones first. */
  lemma WordsAreBits(a: State, i: nat)
    requires i < 25
    ensures WordBits(WordsOf(a)[2 * i]) + WordBits(WordsOf(a)[2 * i + 1]) == LaneBits(a[i], 64)
  {
    hide *;
    var v := a[i];
    WordsAt(a, 2 * i);
    WordsAt(a, 2 * i + 1);
    WordAtIs(a, i);
    WordBitsIs(Low32(v));
    WordBitsIs(High32(v));
    LowBack(v);
    HighBack(v);
    TwoWords(v);
  }

  lemma TwoWords(v: Lane)
    ensures LaneBits(LowWord(v), 32) + LaneBits(HighWord(v), 32) == LaneBits(v, 64)
  {
    hide *;
    LowWordFirst(v);
    LowWordThird(v);
    LowWordFourth(v);
    HighWordIsRest(v);
    FourBytes(v, 32);
    FourBytes(LowWord(v), 0);
    NoLaneBits(Rest8(Rest8(Rest8(Rest8(LowWord(v))))));
    FiveJoined(BitsOf(LowByte(v)), BitsOf(LowByte(Rest8(v))), BitsOf(LowByte(Rest8(Rest8(v)))),
               BitsOf(LowByte(Rest8(Rest8(Rest8(v))))), LaneBits(HighWord(v), 32));
  }

  lemma WordBitsIs(w: bv32)
    ensures WordBits(w) == LaneBits(w as Lane, 32)
  {}
}
