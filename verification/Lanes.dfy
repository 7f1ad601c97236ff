/** 64-bit lanes: exclusive or, rotation, and the laws the Keccak proofs rest on.

    The bit-vector solver decides each law alone but not chains of them, so every law is
    proved here once, and the proofs elsewhere hide the two operators. */
module Lanes {

  type Lane = bv64

  const ZERO: Lane := 0

  type Byte = bv8

  function Xor(v: Lane, w: Lane): Lane {
    v ^ w
  }

  /** Rotation towards the high end: what ROTL64 computes (see RotlMacro). */
  function Rotl(v: Lane, n: nat): Lane
    requires n < 64
  {
    v.RotateLeft(n)
  }

  function Rotr(v: Lane, n: nat): Lane
    requires n < 64
  {
    v.RotateRight(n)
  }

  // ----- exclusive or -----

  lemma XorComm(a: Lane, b: Lane)
    ensures Xor(a, b) == Xor(b, a)
  {}

  lemma XorAssoc(a: Lane, b: Lane, c: Lane)
    ensures Xor(Xor(a, b), c) == Xor(a, Xor(b, c))
  {
    calc {
      Xor(Xor(a, b), c);
      Xor(a ^ b, c);
      (a ^ b) ^ c;
      a ^ (b ^ c);
      Xor(a, b ^ c);
      Xor(a, Xor(b, c));
    }
  }

  lemma XorCancel(a: Lane, b: Lane)
    ensures Xor(Xor(a, b), b) == a
  {
    calc {
      Xor(Xor(a, b), b);
      Xor(a ^ b, b);
      (a ^ b) ^ b;
      a;
    }
  }

  lemma XorSwap(a: Lane, b: Lane, c: Lane, d: Lane)
    ensures Xor(Xor(a, b), Xor(c, d)) == Xor(Xor(a, c), Xor(b, d))
  {
    hide Xor;
    XorAssoc(a, b, Xor(c, d));
    XorAssoc(b, c, d);
    XorComm(b, c);
    XorAssoc(c, b, d);
    XorAssoc(a, c, Xor(b, d));
  }

  lemma XorTelescope(a: Lane, b: Lane, c: Lane)
    ensures Xor(Xor(a, b), Xor(b, c)) == Xor(a, c)
  {
    hide Xor;
    XorAssoc(a, b, Xor(b, c));
    XorComm(b, c);
    XorComm(b, Xor(b, c));
    XorCancel(c, b);
  }

  // ----- rotation -----

  lemma RotlIs(v: Lane, n: nat)
    requires n < 64
    ensures Rotl(v, n) == v.RotateLeft(n)
  {}

  lemma RotrIs(v: Lane, n: nat)
    requires n < 64
    ensures Rotr(v, n) == v.RotateRight(n)
  {}

  lemma RightAfterLeft(v: Lane, n: nat)
    requires n < 64
    ensures Rotr(v.RotateLeft(n), n) == v
  {
    calc { Rotr(v.RotateLeft(n), n); v.RotateLeft(n).RotateRight(n); v; }
  }

  lemma LeftAfterRight(v: Lane, n: nat)
    requires n < 64
    ensures Rotl(v.RotateRight(n), n) == v
  {
    calc { Rotl(v.RotateRight(n), n); v.RotateRight(n).RotateLeft(n); v; }
  }

  lemma RotrRotl(v: Lane, n: nat)
    requires n < 64
    ensures Rotr(Rotl(v, n), n) == v
  {
    hide *;
    RightAfterLeft(v, n);
    RotlIs(v, n);
  }

  lemma RotlRotr(v: Lane, n: nat)
    requires n < 64
    ensures Rotl(Rotr(v, n), n) == v
  {
    hide *;
    LeftAfterRight(v, n);
    RotrIs(v, n);
  }

  /** The ROTL64 text, a left shift xor-ed with a right shift, at each amount the program
      uses is that rotation. */
  lemma RotlMacro(q: Lane)
    ensures (q << 1) ^ (q >> 63) == q.RotateLeft(1)
    ensures (q << 62) ^ (q >> 2) == q.RotateLeft(62)
    ensures (q << 28) ^ (q >> 36) == q.RotateLeft(28)
    ensures (q << 27) ^ (q >> 37) == q.RotateLeft(27)
    ensures (q << 36) ^ (q >> 28) == q.RotateLeft(36)
    ensures (q << 44) ^ (q >> 20) == q.RotateLeft(44)
    ensures (q << 6) ^ (q >> 58) == q.RotateLeft(6)
    ensures (q << 55) ^ (q >> 9) == q.RotateLeft(55)
    ensures (q << 20) ^ (q >> 44) == q.RotateLeft(20)
    ensures (q << 3) ^ (q >> 61) == q.RotateLeft(3)
    ensures (q << 10) ^ (q >> 54) == q.RotateLeft(10)
    ensures (q << 43) ^ (q >> 21) == q.RotateLeft(43)
    ensures (q << 25) ^ (q >> 39) == q.RotateLeft(25)
    ensures (q << 39) ^ (q >> 25) == q.RotateLeft(39)
    ensures (q << 41) ^ (q >> 23) == q.RotateLeft(41)
    ensures (q << 45) ^ (q >> 19) == q.RotateLeft(45)
    ensures (q << 15) ^ (q >> 49) == q.RotateLeft(15)
    ensures (q << 21) ^ (q >> 43) == q.RotateLeft(21)
    ensures (q << 8) ^ (q >> 56) == q.RotateLeft(8)
    ensures (q << 18) ^ (q >> 46) == q.RotateLeft(18)
    ensures (q << 2) ^ (q >> 62) == q.RotateLeft(2)
    ensures (q << 61) ^ (q >> 3) == q.RotateLeft(61)
    ensures (q << 56) ^ (q >> 8) == q.RotateLeft(56)
    ensures (q << 14) ^ (q >> 50) == q.RotateLeft(14)
  {}

  lemma RotlTwice1(v: Lane)
    ensures Rotl(Rotl(v, 1), 1) == Rotl(v, 2)
  {
    calc { Rotl(Rotl(v, 1), 1); Rotl(v.RotateLeft(1), 1); v.RotateLeft(1).RotateLeft(1); v.RotateLeft(2); Rotl(v, 2); }
  }

  lemma RotlTwice2(v: Lane)
    ensures Rotl(Rotl(v, 2), 2) == Rotl(v, 4)
  {
    calc { Rotl(Rotl(v, 2), 2); Rotl(v.RotateLeft(2), 2); v.RotateLeft(2).RotateLeft(2); v.RotateLeft(4); Rotl(v, 4); }
  }

  lemma RotlTwice4(v: Lane)
    ensures Rotl(Rotl(v, 4), 4) == Rotl(v, 8)
  {
    calc { Rotl(Rotl(v, 4), 4); Rotl(v.RotateLeft(4), 4); v.RotateLeft(4).RotateLeft(4); v.RotateLeft(8); Rotl(v, 8); }
  }

  lemma RotlTwice8(v: Lane)
    ensures Rotl(Rotl(v, 8), 8) == Rotl(v, 16)
  {
    calc {
      Rotl(Rotl(v, 8), 8);
      Rotl(v.RotateLeft(8), 8);
      v.RotateLeft(8).RotateLeft(8);
      v.RotateLeft(16);
      Rotl(v, 16);
    }
  }

  lemma RotlTwice16(v: Lane)
    ensures Rotl(Rotl(v, 16), 16) == Rotl(v, 32)
  {
    calc {
      Rotl(Rotl(v, 16), 16);
      Rotl(v.RotateLeft(16), 16);
      v.RotateLeft(16).RotateLeft(16);
      v.RotateLeft(32);
      Rotl(v, 32);
    }
  }

  lemma RotlTwice32(v: Lane)
    ensures Rotl(Rotl(v, 32), 32) == v == Rotl(v, 0)
  {
    calc {
      Rotl(Rotl(v, 32), 32);
      Rotl(v.RotateLeft(32), 32);
      v.RotateLeft(32).RotateLeft(32);
      v;
      v.RotateLeft(0);
      Rotl(v, 0);
    }
  }

  predicate PowerOfTwoShift(n: nat) {
    n == 1 || n == 2 || n == 4 || n == 8 || n == 16 || n == 32
  }

  /** Two rotations by a power of two are one by its double, 64 being no rotation. */
  lemma RotlTwice(v: Lane, n: nat)
    requires PowerOfTwoShift(n)
    ensures Rotl(Rotl(v, n), n) == Rotl(v, 2 * n % 64)
  {
    hide Rotl;
    if n == 1 {
      RotlTwice1(v);
    } else if n == 2 {
      RotlTwice2(v);
    } else if n == 4 {
      RotlTwice4(v);
    } else if n == 8 {
      RotlTwice8(v);
    } else if n == 16 {
      RotlTwice16(v);
    } else {
      RotlTwice32(v);
    }
  }

  lemma RotlXor1(v: Lane, w: Lane)
    ensures Rotl(Xor(v, w), 1) == Xor(Rotl(v, 1), Rotl(w, 1))
  {
    calc {
      Rotl(Xor(v, w), 1);
      Rotl(v ^ w, 1);
      (v ^ w).RotateLeft(1);
      v.RotateLeft(1) ^ w.RotateLeft(1);
      Xor(v.RotateLeft(1), w.RotateLeft(1));
      Xor(Rotl(v, 1), Rotl(w, 1));
    }
  }

  /** Rotation by a power of two distributes over exclusive or. */
  lemma {:induction false} RotlXor(v: Lane, w: Lane, n: nat)
    requires PowerOfTwoShift(n)
    ensures Rotl(Xor(v, w), n) == Xor(Rotl(v, n), Rotl(w, n))
    decreases n
  {
    hide Rotl, Xor;
    if n == 1 {
      RotlXor1(v, w);
    } else {
      var m := n / 2;
      RotlXor(v, w, m);
      RotlXor(Rotl(v, m), Rotl(w, m), m);
      RotlTwice(v, m);
      RotlTwice(w, m);
      RotlTwice(Xor(v, w), m);
    }
  }
}
