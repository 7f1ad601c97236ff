/** What the two paddings keep apart. Keccak's is pad10*1 of FIPS 202, section 5.1, and is
    injective; the miner's altered one merges some messages, and exactly which is shown. */
module SpongePadding {
  import opened Seqs
  import opened Lanes
  import opened Keccak
  import opened Sponge

  // ----- as bit strings, lowest bit of a byte first -----

  function BitsOf(b: Byte): (bits: seq<bool>)
    ensures |bits| == 8
  {
    [b & 1 != 0, b & 2 != 0, b & 4 != 0, b & 8 != 0, b & 16 != 0, b & 32 != 0, b & 64 != 0, b & 128 != 0]
  }

  function Bits(m: seq<Byte>): (bits: seq<bool>)
    ensures |bits| == 8 * |m|
  {
    if |m| == 0 then [] else BitsOf(m[0]) + Bits(m[1..])
  }

  function Falses(n: nat): (f: seq<bool>)
    ensures |f| == n && forall i :: 0 <= i < n ==> !f[i]
  {
    seq(n, i requires 0 <= i < n => false)
  }

  lemma ModUnique(a: int, x: nat, q: int, s: nat)
    requires s < x && a == q * x + s
    ensures a % x == s
  {
    var p := a / x;
    assert a == p * x + a % x;
    if p < q {
      AtLeastOneMore(p, q, x);
    } else if q < p {
      AtLeastOneMore(q, p, x);
    }
  }

  /** pad10*1(x, len): a one, as few zeros as make whole blocks of x, a one. */
  function Pad10Star1(x: nat, len: nat): seq<bool>
    requires x > 0
  {
    var n: int := len;
    [true] + Falses((-n - 2) % x) + [true]
  }

  lemma {:induction false} BitsConcat(m: seq<Byte>, n: seq<Byte>)
    ensures Bits(m + n) == Bits(m) + Bits(n)
  {
    hide BitsOf;
    if |m| == 0 {
      EmptyFront(n);
    } else {
      BitsConcat(m[1..], n);
      JoinTail(m, n);
      Regroup(BitsOf(m[0]), Bits(m[1..]), Bits(n));
    }
  }

  lemma BitsFront(m: seq<Byte>)
    requires |m| > 0
    ensures Bits(m) == BitsOf(m[0]) + Bits(m[1..])
  {}

  lemma BitsOfInjective(b: Byte, c: Byte)
    requires BitsOf(b) == BitsOf(c)
    ensures b == c
  {
    var s, t := BitsOf(b), BitsOf(c);
    assert s[0] == t[0] && s[1] == t[1] && s[2] == t[2] && s[3] == t[3];
    assert s[4] == t[4] && s[5] == t[5] && s[6] == t[6] && s[7] == t[7];
  }

  /** Bytes are known by their bits. */
  lemma {:induction false} BitsInjective(m: seq<Byte>, n: seq<Byte>)
    ensures Bits(m) == Bits(n) <==> m == n
  {
    if Bits(m) == Bits(n) && |m| > 0 {
      JoinFront(BitsOf(m[0]), Bits(m[1..]));
      JoinFront(BitsOf(n[0]), Bits(n[1..]));
      BitsOfInjective(m[0], n[0]);
      BitsInjective(m[1..], n[1..]);
      assert m == [m[0]] + m[1..] && n == [n[0]] + n[1..];
    }
  }

  lemma {:induction false} BitsZeros(n: nat)
    ensures Bits(Zeros(n)) == Falses(8 * n)
  {
    if n > 0 {
      BitsZeros(n - 1);
      BitsConcat(Zeros(n - 1), [0]);
      assert Bits([0]) == BitsOf(0);
    }
  }

  lemma BitsMarks()
    ensures Bits([0x01]) == [true] + Falses(7)
    ensures Bits([0x80]) == Falses(7) + [true]
    ensures Bits([0x81]) == [true] + Falses(6) + [true]
  {
    assert Bits([0x01]) == BitsOf(0x01);
    assert Bits([0x80]) == BitsOf(0x80);
    assert Bits([0x81]) == BitsOf(0x81);
  }

  lemma PadLength(r: nat, len: nat)
    requires IsRate(r)
    ensures (-(8 * len) - 2) % (8 * r) == 8 * (r - Rest(len, r)) - 2
  {
    hide Rest;
    var q := RestQuotient(len, r);
    var s := 8 * (r - Rest(len, r)) - 2;
    assert (-q - 1) * (8 * r) == -8 * (q * r) - 8 * r;
    ModUnique(-(8 * len) - 2, 8 * r, -q - 1, s);
  }

  lemma FalsesJoin(m: nat, n: nat)
    ensures Falses(m) + Falses(n) == Falses(m + n)
  {}

  lemma PadBits(n: nat)
    ensures Bits([0x01] + Zeros(n) + [0x80]) == [true] + Falses(8 * n + 14) + [true]
  {
    hide BitsOf, Bits, Falses, Zeros;
    BitsMarks();
    BitsConcat([0x01] + Zeros(n), [0x80]);
    BitsConcat([0x01], Zeros(n));
    BitsZeros(n);
    FalsesJoin(7, 8 * n);
    FalsesJoin(7 + 8 * n, 7);
    Regroup([true], Falses(7), Falses(8 * n));
    Regroup([true] + Falses(7 + 8 * n), Falses(7), [true]);
    Regroup([true], Falses(7 + 8 * n), Falses(7));
  }

  lemma KeccakPad(r: nat, len: nat)
    requires IsRate(r)
    ensures var q := r - Rest(len, r);
            Pad(KECCAK, r, len) == if q == 1 then [0x81] else [0x01] + Zeros(q - 2) + [0x80]
  {
    hide Rest, Zeros;
  }

  lemma Pad10Star1Bits(r: nat, len: nat)
    requires IsRate(r)
    ensures Pad10Star1(8 * r, 8 * len) == [true] + Falses(8 * (r - Rest(len, r)) - 2) + [true]
  {
    hide Rest, Falses;
    PadLength(r, len);
  }

  lemma KeccakPadBits(r: nat, len: nat)
    requires IsRate(r)
    ensures Bits(Pad(KECCAK, r, len)) == [true] + Falses(8 * (r - Rest(len, r)) - 2) + [true]
  {
    hide *;
    KeccakPad(r, len);
    if r - Rest(len, r) == 1 {
      BitsMarks();
    } else {
      PadBits(r - Rest(len, r) - 2);
    }
  }

  lemma PaddedIs(p: Padding, r: nat, m: seq<Byte>)
    requires IsRate(r)
    ensures Padded(p, r, m) == m + Pad(p, r, |m|)
  {}

  lemma PaddedBits(p: Padding, r: nat, m: seq<Byte>)
    requires IsRate(r)
    ensures Bits(Padded(p, r, m)) == Bits(m) + Bits(Pad(p, r, |m|))
  {
    hide *;
    PaddedIs(p, r, m);
    BitsConcat(m, Pad(p, r, |m|));
  }

  lemma KeccakPadIs(r: nat, len: nat)
    requires IsRate(r)
    ensures Bits(Pad(KECCAK, r, len)) == Pad10Star1(8 * r, 8 * len)
  {
    hide *;
    KeccakPadBits(r, len);
    Pad10Star1Bits(r, len);
  }

  /** On messages of whole bytes, the bytes that hs_keccak_final appends are pad10*1. */
  lemma KeccakPadIsPad10Star1(r: nat, m: seq<Byte>)
    requires IsRate(r)
    ensures Bits(Padded(KECCAK, r, m)) == Bits(m) + Pad10Star1(8 * r, 8 * |m|)
  {
    hide *;
    PaddedBits(KECCAK, r, m);
    KeccakPadIs(r, |m|);
  }

  // ----- which messages share a padded string -----

  /** Byte k of a padded message of total bytes, when k is past the message. */
  lemma PadAt(p: Padding, r: nat, m: seq<Byte>, k: nat)
    requires IsRate(r) && |m| <= k < |Padded(p, r, m)|
    ensures var last := |Padded(p, r, m)| - 1;
            Padded(p, r, m)[k] == if |m| == last then p.First() | p.Last()
                                  else if k == |m| then p.First() else if k == last then p.Last() else 0
  {
    hide Rest;
  }

  lemma PaddedPrefix(p: Padding, r: nat, m: seq<Byte>)
    requires IsRate(r)
    ensures |Padded(p, r, m)| > |m| && Padded(p, r, m)[..|m|] == m
  {
    hide Rest;
    JoinFront(m, Pad(p, r, |m|));
  }

  lemma SameLength(p: Padding, r: nat, m: seq<Byte>, n: seq<Byte>)
    requires IsRate(r) && Padded(p, r, m) == Padded(p, r, n) && |m| == |n|
    ensures m == n
  {
    hide Padded;
    PaddedPrefix(p, r, m);
    PaddedPrefix(p, r, n);
  }

  /** Keccak's padding keeps all messages apart. */
  lemma KeccakPadInjective(r: nat, m: seq<Byte>, n: seq<Byte>)
    requires IsRate(r)
    ensures Padded(KECCAK, r, m) == Padded(KECCAK, r, n) <==> m == n
  {
    if Padded(KECCAK, r, m) == Padded(KECCAK, r, n) {
      KeccakPadLonger(r, m, n);
      KeccakPadLonger(r, n, m);
      SameLength(KECCAK, r, m, n);
    }
  }

  lemma KeccakPadLonger(r: nat, m: seq<Byte>, n: seq<Byte>)
    requires IsRate(r) && Padded(KECCAK, r, m) == Padded(KECCAK, r, n)
    ensures |m| >= |n|
  {
    hide Padded;
    PaddedPrefix(KECCAK, r, m);
    PaddedPrefix(KECCAK, r, n);
    if |m| < |n| {
      PadAt(KECCAK, r, m, |n|);
      PadAt(KECCAK, r, n, |n|);
    }
  }

  /** How the altered padding can confuse: n fills all but one byte of its last block, and is
      m, the first mark, and zeros. */
  predicate Merges(r: nat, m: seq<Byte>, n: seq<Byte>)
    requires IsRate(r)
  {
    |m| < |n| && |n| - |m| < r && Rest(|n|, r) == r - 1 && n == m + [0x81] + Zeros(|n| - |m| - 1)
  }

  lemma MergedRests(r: nat, m: seq<Byte>, n: seq<Byte>)
    requires IsRate(r) && Merges(r, m, n)
    ensures Rest(|m|, r) == r - 1 - (|n| - |m|)
  {
    hide Rest, IsRate;
    var q := RestQuotient(|n|, r);
    RestUnique(|m|, r, q, r - 1 - (|n| - |m|));
  }

  lemma MeerPad(r: nat, len: nat)
    requires IsRate(r)
    ensures var q := r - Rest(len, r);
            Pad(MEER, r, len) == if q == 1 then [0xF1] else [0x81] + Zeros(q - 2) + [0xF1]
  {
    hide Rest, Zeros;
  }

  lemma MergedPadsAgree(r: nat, m: seq<Byte>, n: seq<Byte>)
    requires IsRate(r) && Merges(r, m, n)
    ensures Padded(MEER, r, m) == Padded(MEER, r, n)
  {
    var d := |n| - |m|;
    MergedRests(r, m, n);
    MeerPad(r, |m|);
    MeerPad(r, |n|);
    hide Rest, Zeros, Pad, IsRate;
    Regroup(m, [0x81], Zeros(d - 1));
    Regroup(m, [0x81] + Zeros(d - 1), [0xF1]);
  }

  lemma EqualPadsMerge(r: nat, m: seq<Byte>, n: seq<Byte>)
    requires IsRate(r) && |m| < |n| && Padded(MEER, r, m) == Padded(MEER, r, n)
    ensures Merges(r, m, n)
  {
    var padded := Padded(MEER, r, m);
    PaddedPrefix(MEER, r, m);
    PaddedPrefix(MEER, r, n);
    PadAt(MEER, r, m, |n|);
    PadAt(MEER, r, n, |n|);
    assert |n| == |padded| - 1;
    hide Padded, Rest, IsRate;
    forall k: nat | k < |n|
      ensures n[k] == (m + [0x81] + Zeros(|n| - |m| - 1))[k]
    {
      assert n[k] == padded[k];
      if k < |m| {
        assert m[k] == padded[k];
      } else {
        PadAt(MEER, r, m, k);
      }
    }
  }

  /** The altered padding confuses m with a longer n exactly when n is m, the first mark and
      zeros up to the last byte of the block; messages of one length it never confuses. */
  lemma MeerPadMerges(r: nat, m: seq<Byte>, n: seq<Byte>)
    requires IsRate(r) && |m| <= |n|
    ensures Padded(MEER, r, m) == Padded(MEER, r, n) <==> m == n || Merges(r, m, n)
  {
    hide Padded, Merges;
    if Merges(r, m, n) {
      MergedPadsAgree(r, m, n);
    }
    if Padded(MEER, r, m) == Padded(MEER, r, n) {
      if |m| == |n| {
        SameLength(MEER, r, m, n);
      } else {
        EqualPadsMerge(r, m, n);
      }
    }
  }

  /** So the altered hash has collisions that owe nothing to the permutation, such as the
      empty message and 135 bytes of the mark and zeros. */
  lemma MeerDigestCollides()
    ensures var n: seq<Byte> := [0x81] + Zeros(134);
            n != [] && Digest(MEER, 136, []) == Digest(MEER, 136, n)
  {
    hide Absorb, StateBytes, ZeroState, Padded, Zeros;
    var n: seq<Byte> := [0x81] + Zeros(134);
    EmptyFront(n);
    assert Merges(136, [], n);
    MergedPadsAgree(136, [], n);
  }
}
