/** Keccak-p[1600, 24] is a bijection: every step mapping has an inverse, given here. */
module KeccakInverse {
  import opened Lanes
  import opened Keccak

  // ----- theta on column parities -----

  /** The map that sends c[x] to c[x] + c[x + s] + rotl(c[x + t], n). Theta acts on the
      column parities as Blend(4, 1, 1); since cross terms cancel, applying such a map
      twice doubles its three numbers, and eight squarings lead back to the identity. */
  function Blend(c: Row, s: nat, t: nat, n: nat): Row
    requires n < 64
  {
    seq(5, x requires 0 <= x < 5 => BlendLane(c[x], c[Column(x, s)], c[Column(x, t)], n))
  }

  function BlendLane(p: Lane, q: Lane, r: Lane, n: nat): Lane
    requires n < 64
  {
    Xor(Xor(p, q), Rotl(r, n))
  }

  /** (a + b + c) + (b + d + e) + (c + e + f) = a + d + f */
  lemma CrossTermsCancel(a: Lane, b: Lane, c: Lane, d: Lane, e: Lane, f: Lane)
    ensures Xor(Xor(Xor(Xor(a, b), c), Xor(Xor(b, d), e)), Xor(Xor(c, e), f)) == Xor(Xor(a, d), f)
  {
    hide Xor;
    XorSwap(Xor(a, b), c, Xor(b, d), e);
    XorTelescope(a, b, d);
    XorTelescope(Xor(a, d), Xor(c, e), f);
  }

  lemma BlendLaneTwice(p: Lane, q: Lane, r: Lane, s: Lane, t: Lane, u: Lane, n: nat)
    requires PowerOfTwoShift(n)
    ensures BlendLane(BlendLane(p, q, r, n), BlendLane(q, s, t, n), BlendLane(r, t, u, n), n)
         == BlendLane(p, s, u, 2 * n % 64)
  {
    hide Xor, Rotl;
    RotlXor(Xor(r, t), Rotl(u, n), n);
    RotlXor(r, t, n);
    RotlTwice(u, n);
    CrossTermsCancel(p, q, Rotl(r, n), s, Rotl(t, n), Rotl(u, 2 * n % 64));
  }

  lemma ColumnColumn(x: nat, s: nat, t: nat)
    ensures Column(Column(x, s), t) == Column(x, s + t)
  {
    var q := (x + s) / 5;
    assert x + s + t == 5 * q + ((x + s) % 5 + t);
  }

  lemma ColumnReduce(x: nat, s: nat)
    ensures Column(x, s) == Column(x, s % 5)
  {
    var q, r := s / 5, s % 5;
    assert x + s == 5 * q + (x + r);
    WholeFives(x + r, q);
  }

  lemma {:induction false} WholeFives(n: nat, q: nat)
    ensures (5 * q + n) % 5 == n % 5
  {
    if q > 0 {
      WholeFives(n, q - 1);
      assert 5 * q + n == 5 + (5 * (q - 1) + n);
    }
  }

  lemma BlendAt(c: Row, s: nat, t: nat, n: nat, x: nat)
    requires n < 64 && x < 5
    ensures Blend(c, s, t, n)[x] == BlendLane(c[x], c[Column(x, s)], c[Column(x, t)], n)
  {
    hide BlendLane, Column;
  }

  lemma BlendTwiceAt(c: Row, s: nat, t: nat, n: nat, x: nat)
    requires PowerOfTwoShift(n) && x < 5
    ensures Blend(Blend(c, s, t, n), s, t, n)[x] == Blend(c, s + s, t + t, 2 * n % 64)[x]
  {
    hide Blend, BlendLane, Column;
    var once := Blend(c, s, t, n);
    BlendAt(once, s, t, n, x);
    BlendAt(c, s, t, n, x);
    BlendAt(c, s, t, n, Column(x, s));
    BlendAt(c, s, t, n, Column(x, t));
    BlendAt(c, s + s, t + t, 2 * n % 64, x);
    ColumnColumn(x, s, s);
    ColumnColumn(x, s, t);
    ColumnColumn(x, t, s);
    ColumnColumn(x, t, t);
    BlendLaneTwice(c[x], c[Column(x, s)], c[Column(x, t)],
                   c[Column(x, s + s)], c[Column(x, s + t)], c[Column(x, t + t)], n);
  }

  lemma BlendReduce(c: Row, s: nat, t: nat, n: nat)
    requires n < 64
    ensures Blend(c, s, t, n) == Blend(c, s % 5, t % 5, n)
  {
    hide Blend, BlendLane, Column;
    forall x: nat | x < 5
      ensures Blend(c, s, t, n)[x] == Blend(c, s % 5, t % 5, n)[x]
    {
      BlendAt(c, s, t, n, x);
      BlendAt(c, s % 5, t % 5, n, x);
      ColumnReduce(x, s);
      ColumnReduce(x, t);
    }
  }

  lemma BlendTwice(c: Row, s: nat, t: nat, n: nat)
    requires PowerOfTwoShift(n)
    ensures Blend(Blend(c, s, t, n), s, t, n) == Blend(c, (s + s) % 5, (t + t) % 5, 2 * n % 64)
  {
    hide Blend, BlendLane, Column;
    forall x: nat | x < 5
      ensures Blend(Blend(c, s, t, n), s, t, n)[x] == Blend(c, s + s, t + t, 2 * n % 64)[x]
    {
      BlendTwiceAt(c, s, t, n, x);
    }
    BlendReduce(c, s + s, t + t, 2 * n % 64);
  }

  lemma BlendEndsLane(a: Lane, b: Lane, c: Lane, d: Lane, e: Lane)
    ensures BlendLane(BlendLane(a, b, c, 0), BlendLane(d, c, e, 0), BlendLane(e, d, b, 0), 0) == a
    ensures BlendLane(BlendLane(a, b, c, 0), BlendLane(d, e, b, 0), BlendLane(e, c, d, 0), 0) == a
  {
    hide Xor, Rotl;
    RotlTwice32(c); RotlTwice32(e); RotlTwice32(b); RotlTwice32(d);
    RotlTwice32(Xor(Xor(e, d), b));
    RotlTwice32(Xor(Xor(e, c), d));
    XorComm(d, c);
    XorAssoc(c, d, e);
    XorTelescope(Xor(a, b), c, Xor(d, e));
    XorComm(e, d);
    XorTelescope(Xor(a, b), Xor(d, e), b);
    XorCancel(a, b);
    XorAssoc(a, b, c); XorComm(b, c); XorAssoc(a, c, b);
    XorComm(Xor(d, e), b);
    XorTelescope(Xor(a, c), b, Xor(d, e));
    XorComm(Xor(e, c), d); XorAssoc(d, e, c);
    XorTelescope(Xor(a, c), Xor(d, e), c);
    XorCancel(a, c);
  }

  lemma Hops(x: nat, s: nat)
    requires x < 5
    ensures Column(x, 0) == x
    ensures Column(Column(x, s), 1) == Column(x, (s + 1) % 5)
    ensures Column(Column(x, s), 2) == Column(x, (s + 2) % 5)
    ensures Column(Column(x, s), 3) == Column(x, (s + 3) % 5)
    ensures Column(Column(x, s), 4) == Column(x, (s + 4) % 5)
  {
    assert Column(x, 0) == x;
    hide Column;
    ColumnColumn(x, s, 1); ColumnReduce(x, s + 1);
    ColumnColumn(x, s, 2); ColumnReduce(x, s + 2);
    ColumnColumn(x, s, 3); ColumnReduce(x, s + 3);
    ColumnColumn(x, s, 4); ColumnReduce(x, s + 4);
  }

  lemma BlendEndsAt(c: Row, x: nat)
    requires x < 5
    ensures Blend(Blend(c, 2, 3, 0), 1, 4, 0)[x] == c[x]
    ensures Blend(Blend(c, 1, 4, 0), 2, 3, 0)[x] == c[x]
  {
    hide Blend, BlendLane, Column;
    Hops(x, 1); Hops(x, 2); Hops(x, 3); Hops(x, 4);
    var c1, c2, c3, c4 := Column(x, 1), Column(x, 2), Column(x, 3), Column(x, 4);
    var u, v := Blend(c, 2, 3, 0), Blend(c, 1, 4, 0);
    BlendAt(u, 1, 4, 0, x);
    BlendAt(v, 2, 3, 0, x);
    BlendAt(c, 2, 3, 0, x); BlendAt(c, 2, 3, 0, c1); BlendAt(c, 2, 3, 0, c4);
    BlendAt(c, 1, 4, 0, x); BlendAt(c, 1, 4, 0, c2); BlendAt(c, 1, 4, 0, c3);
    BlendEndsLane(c[x], c[c2], c[c3], c[c1], c[c4]);
    BlendEndsLane(c[x], c[c1], c[c4], c[c2], c[c3]);
  }

  lemma BlendEnds(c: Row)
    ensures Blend(Blend(c, 2, 3, 0), 1, 4, 0) == c == Blend(Blend(c, 1, 4, 0), 2, 3, 0)
  {
    hide Blend, BlendLane;
    forall x: nat | x < 5
      ensures Blend(Blend(c, 2, 3, 0), 1, 4, 0)[x] == c[x] == Blend(Blend(c, 1, 4, 0), 2, 3, 0)[x]
    {
      BlendEndsAt(c, x);
    }
  }

  /** The 191st power of theta's action on parities: 191 = 1 + 2 + 4 + 8 + 16 + 32 + 128. */
  function InvParities(c: Row): Row {
    Blend(Blend(Blend(Blend(Blend(Blend(Blend(c, 4, 1, 1), 3, 2, 2), 1, 4, 4), 2, 3, 8), 4, 1, 16), 3, 2, 32), 2, 3, 0)
  }

  /** The same power, its factors applied in the opposite order. */
  function InvParitiesFromRight(c: Row): Row {
    Blend(Blend(Blend(Blend(Blend(Blend(Blend(c, 2, 3, 0), 3, 2, 32), 4, 1, 16), 2, 3, 8), 1, 4, 4), 3, 2, 2), 4, 1, 1)
  }

  lemma InvParitiesBlend(c: Row)
    ensures InvParities(Blend(c, 4, 1, 1)) == c
  {
    hide Blend;
    BlendTwice(c, 4, 1, 1);
    BlendTwice(c, 3, 2, 2);
    BlendTwice(c, 1, 4, 4);
    BlendTwice(c, 2, 3, 8);
    BlendTwice(c, 4, 1, 16);
    BlendTwice(c, 3, 2, 32);
    BlendEnds(c);
  }

  lemma BlendInvParitiesFromRight(c: Row)
    ensures Blend(InvParitiesFromRight(c), 4, 1, 1) == c
  {
    hide Blend;
    var c7 := Blend(c, 2, 3, 0);
    var c5 := Blend(c7, 3, 2, 32);
    var c4 := Blend(c5, 4, 1, 16);
    var c3 := Blend(c4, 2, 3, 8);
    var c2 := Blend(c3, 1, 4, 4);
    var c1 := Blend(c2, 3, 2, 2);
    BlendTwice(c1, 4, 1, 1);
    BlendTwice(c2, 3, 2, 2);
    BlendTwice(c3, 1, 4, 4);
    BlendTwice(c4, 2, 3, 8);
    BlendTwice(c5, 4, 1, 16);
    BlendTwice(c7, 3, 2, 32);
    BlendEnds(c);
  }

  /** A left inverse and a right inverse of one map coincide. */
  lemma BlendInvParities(c: Row)
    ensures Blend(InvParities(c), 4, 1, 1) == c
  {
    hide Blend, InvParities, InvParitiesFromRight;
    BlendInvParitiesFromRight(c);
    InvParitiesBlend(InvParitiesFromRight(c));
  }

  // ----- theta -----

  function InvTheta(a: State): State {
    AddEffect(a, InvParities(Parities(a)))
  }

  lemma XorFive(p: Lane, q: Lane, r: Lane, s: Lane, t: Lane, e: Lane)
    ensures Xor(Xor(Xor(Xor(Xor(p, e), Xor(q, e)), Xor(r, e)), Xor(s, e)), Xor(t, e))
         == Xor(Xor(Xor(Xor(Xor(p, q), r), s), t), e)
  {
    hide Xor;
    XorComm(q, e);
    XorTelescope(p, e, q);
    XorAssoc(Xor(p, q), r, e);
    XorComm(s, e);
    XorTelescope(Xor(Xor(p, q), r), e, s);
    XorAssoc(Xor(Xor(Xor(p, q), r), s), t, e);
  }

  lemma ParityAddEffect(a: State, c: Row, x: nat)
    requires x < 5
    ensures Parity(AddEffect(a, c), x) == Xor(Parity(a, x), Effect(c, x))
  {
    hide Xor, Effect, X;
    var b := AddEffect(a, c);
    Coordinates(x, 0); Coordinates(x, 1); Coordinates(x, 2); Coordinates(x, 3); Coordinates(x, 4);
    assert b[x] == Xor(a[x], Effect(c, x));
    assert b[x + 5] == Xor(a[x + 5], Effect(c, x));
    assert b[x + 10] == Xor(a[x + 10], Effect(c, x));
    assert b[x + 15] == Xor(a[x + 15], Effect(c, x));
    assert b[x + 20] == Xor(a[x + 20], Effect(c, x));
    XorFive(a[x], a[x + 5], a[x + 10], a[x + 15], a[x + 20], Effect(c, x));
  }

  lemma BlendIsAddEffect(c: Row, x: nat)
    requires x < 5
    ensures Blend(c, 4, 1, 1)[x] == Xor(c[x], Effect(c, x))
  {
    hide Xor, Rotl, Column;
    XorAssoc(c[x], c[Column(x, 4)], Rotl(c[Column(x, 1)], 1));
  }

  lemma ParitiesAt(a: State, x: nat)
    requires x < 5
    ensures Parities(a)[x] == Parity(a, x)
  {
    hide Parity;
  }

  lemma ParitiesTheta(a: State)
    ensures Parities(Theta(a)) == Blend(Parities(a), 4, 1, 1)
  {
    hide Parity, Parities, Blend, Xor, Effect, AddEffect;
    var c := Parities(a);
    forall x: nat | x < 5
      ensures Parities(Theta(a))[x] == Blend(c, 4, 1, 1)[x]
    {
      ParitiesAt(Theta(a), x);
      ParitiesAt(a, x);
      ParityAddEffect(a, c, x);
      BlendIsAddEffect(c, x);
    }
  }

  lemma AddEffectTwice(a: State, c: Row)
    ensures AddEffect(AddEffect(a, c), c) == a
  {
    hide Xor, Effect, X;
    forall i | 0 <= i < 25
      ensures AddEffect(AddEffect(a, c), c)[i] == a[i]
    {
      XorCancel(a[i], Effect(c, X(i)));
    }
  }

  lemma InvThetaTheta(a: State)
    ensures InvTheta(Theta(a)) == a
  {
    hide AddEffect, Parities, Blend, InvParities;
    ParitiesTheta(a);
    InvParitiesBlend(Parities(a));
    AddEffectTwice(a, Parities(a));
  }

  lemma ThetaInvTheta(b: State)
    ensures Theta(InvTheta(b)) == b
  {
    hide Parity, Parities, Blend, Xor, Effect, AddEffect, InvParities;
    var c := InvParities(Parities(b));
    var a := AddEffect(b, c);
    forall x: nat | x < 5
      ensures Parities(a)[x] == c[x]
    {
      ParitiesAt(a, x);
      ParitiesAt(b, x);
      ParityAddEffect(b, c, x);
      BlendInvParities(Parities(b));
      BlendIsAddEffect(c, x);
      XorCancel(c[x], Effect(c, x));
    }
    assert Parities(a) == c;
    AddEffectTwice(b, c);
  }

  // ----- rho -----

  function InvRho(a: State): State {
    seq(25, i requires 0 <= i < 25 => Rotr(a[i], RhoOffset(i)))
  }

  lemma RhoInverse(a: State)
    ensures InvRho(Rho(a)) == a == Rho(InvRho(a))
  {
    hide Rotl, Rotr;
    forall i | 0 <= i < 25
      ensures InvRho(Rho(a))[i] == a[i] == Rho(InvRho(a))[i]
    {
      RotrRotl(a[i], RhoOffset(i));
      RotlRotr(a[i], RhoOffset(i));
    }
  }

  // ----- pi -----

  function InvPi(a: State): State {
    seq(25, i requires 0 <= i < 25 => At(a, Y(i), Column(2 * X(i), 3 * Y(i))))
  }

  lemma Residue(x: nat, j: int)
    requires x < 5
    ensures (x + 5 * j) % 5 == x
  {}

  lemma PiResidues(x: nat, y: nat)
    requires x < 5 && y < 5
    ensures (y + 3 * ((2 * x + 3 * y) % 5)) % 5 == x
    ensures (2 * ((x + 3 * y) % 5) + 3 * x) % 5 == y
  {
    var q, r := (2 * x + 3 * y) / 5, (x + 3 * y) / 5;
    Residue(x, x + 2 * y - 3 * q);
    Residue(y, x + y - 2 * r);
  }

  /** The coordinate maps of pi and of its inverse undo each other. */
  lemma PiCoordinates(x: nat, y: nat)
    requires x < 5 && y < 5
    ensures Column(y, 3 * Column(2 * x, 3 * y)) == x
    ensures Column(2 * Column(x, 3 * y), 3 * x) == y
  {
    PiResidues(x, y);
  }

  lemma PiInverseAt(a: State, x: nat, y: nat)
    requires x < 5 && y < 5
    ensures At(InvPi(Pi(a)), x, y) == At(a, x, y) == At(Pi(InvPi(a)), x, y)
  {
    hide X, Y, Column;
    Coordinates(x, y);
    Coordinates(Column(x, 3 * y), x);
    Coordinates(y, Column(2 * x, 3 * y));
    PiCoordinates(x, y);
  }

  lemma PiInverse(a: State)
    ensures InvPi(Pi(a)) == a == Pi(InvPi(a))
  {
    hide Pi, InvPi, X, Y;
    forall i | 0 <= i < 25
      ensures InvPi(Pi(a))[i] == a[i] == Pi(InvPi(a))[i]
    {
      IndexOfCoordinates(i);
      PiInverseAt(a, X(i), Y(i));
    }
  }

  // ----- chi -----

  function InvChiLane(a: Lane, b: Lane, c: Lane, d: Lane, e: Lane): Lane {
    a ^ (!b & (c ^ (!d & e)))
  }

  function InvChi(a: State): State {
    seq(25, i requires 0 <= i < 25 =>
      InvChiLane(At(a, X(i), Y(i)), At(a, Column(X(i), 1), Y(i)), At(a, Column(X(i), 2), Y(i)),
                 At(a, Column(X(i), 3), Y(i)), At(a, Column(X(i), 4), Y(i))))
  }

  lemma InvChiChiLane(a: Lane, b: Lane, c: Lane, d: Lane, e: Lane)
    ensures InvChiLane(ChiLane(a, b, c), ChiLane(b, c, d), ChiLane(c, d, e),
                       ChiLane(d, e, a), ChiLane(e, a, b)) == a
  {}

  lemma ChiInvChiLane(a: Lane, b: Lane, c: Lane, d: Lane, e: Lane)
    ensures ChiLane(InvChiLane(a, b, c, d, e), InvChiLane(b, c, d, e, a), InvChiLane(c, d, e, a, b)) == a
  {}

  lemma ChiAt(a: State, x: nat, y: nat)
    requires x < 5 && y < 5
    ensures At(Chi(a), x, y) == ChiLane(At(a, x, y), At(a, Column(x, 1), y), At(a, Column(x, 2), y))
  {
    hide ChiLane, X, Y, Column;
    Coordinates(x, y);
  }

  lemma InvChiAt(a: State, x: nat, y: nat)
    requires x < 5 && y < 5
    ensures At(InvChi(a), x, y) == InvChiLane(At(a, x, y), At(a, Column(x, 1), y), At(a, Column(x, 2), y),
                                              At(a, Column(x, 3), y), At(a, Column(x, 4), y))
  {
    hide InvChiLane, X, Y, Column;
    Coordinates(x, y);
  }

  /** ChiAt, for the lane s places along the row from column x. */
  lemma ChiAlong(a: State, x: nat, s: nat, y: nat)
    requires x < 5 && y < 5 && s < 5
    ensures At(Chi(a), Column(x, s), y)
         == ChiLane(At(a, Column(x, s), y), At(a, Column(x, (s + 1) % 5), y), At(a, Column(x, (s + 2) % 5), y))
  {
    hide Chi, ChiLane, At, Column;
    ChiAt(a, Column(x, s), y);
    Hops(x, s);
  }

  lemma InvChiAlong(a: State, x: nat, s: nat, y: nat)
    requires x < 5 && y < 5 && s < 5
    ensures At(InvChi(a), Column(x, s), y)
         == InvChiLane(At(a, Column(x, s), y), At(a, Column(x, (s + 1) % 5), y), At(a, Column(x, (s + 2) % 5), y),
                       At(a, Column(x, (s + 3) % 5), y), At(a, Column(x, (s + 4) % 5), y))
  {
    hide InvChi, InvChiLane, At, Column;
    InvChiAt(a, Column(x, s), y);
    Hops(x, s);
  }

  lemma InvChiChiAt(a: State, x: nat, y: nat)
    requires x < 5 && y < 5
    ensures At(InvChi(Chi(a)), x, y) == At(a, x, y)
  {
    hide Chi, InvChi, ChiLane, InvChiLane, At, Column;
    Hops(x, 0);
    ChiAlong(a, x, 0, y); ChiAlong(a, x, 1, y); ChiAlong(a, x, 2, y); ChiAlong(a, x, 3, y); ChiAlong(a, x, 4, y);
    InvChiAlong(Chi(a), x, 0, y);
    InvChiChiLane(At(a, Column(x, 0), y), At(a, Column(x, 1), y), At(a, Column(x, 2), y),
                  At(a, Column(x, 3), y), At(a, Column(x, 4), y));
  }

  lemma ChiInvChiAt(a: State, x: nat, y: nat)
    requires x < 5 && y < 5
    ensures At(Chi(InvChi(a)), x, y) == At(a, x, y)
  {
    hide Chi, InvChi, ChiLane, InvChiLane, At, Column;
    Hops(x, 0);
    InvChiAlong(a, x, 0, y); InvChiAlong(a, x, 1, y); InvChiAlong(a, x, 2, y);
    ChiAlong(InvChi(a), x, 0, y);
    ChiInvChiLane(At(a, Column(x, 0), y), At(a, Column(x, 1), y), At(a, Column(x, 2), y),
                  At(a, Column(x, 3), y), At(a, Column(x, 4), y));
  }

  lemma ChiInverse(a: State)
    ensures InvChi(Chi(a)) == a == Chi(InvChi(a))
  {
    hide Chi, InvChi, X, Y;
    forall i | 0 <= i < 25
      ensures InvChi(Chi(a))[i] == a[i] == Chi(InvChi(a))[i]
    {
      IndexOfCoordinates(i);
      InvChiChiAt(a, X(i), Y(i));
      ChiInvChiAt(a, X(i), Y(i));
    }
  }

  // ----- iota, rounds, permutation -----

  lemma IotaInverse(a: State, round: nat)
    requires round < ROUNDS
    ensures Iota(Iota(a, round), round) == a
  {
    hide Xor;
    XorCancel(a[0], ROUND_CONSTANTS[round]);
  }

  function InvRound(a: State, round: nat): State
    requires round < ROUNDS
  {
    InvTheta(InvRho(InvPi(InvChi(Iota(a, round)))))
  }

  lemma RoundInverse(a: State, round: nat)
    requires round < ROUNDS
    ensures InvRound(Round(a, round), round) == a == Round(InvRound(a, round), round)
  {
    hide Theta, InvTheta, Rho, InvRho, Pi, InvPi, Chi, InvChi, Iota;
    InvThetaTheta(a);
    RhoInverse(Theta(a));
    PiInverse(Rho(Theta(a)));
    ChiInverse(Pi(Rho(Theta(a))));
    IotaInverse(Chi(Pi(Rho(Theta(a)))), round);
    IotaInverse(a, round);
    var d := Iota(a, round);
    ChiInverse(d);
    PiInverse(InvChi(d));
    RhoInverse(InvPi(InvChi(d)));
    ThetaInvTheta(InvRho(InvPi(InvChi(d))));
  }

  /** The last rounds undone, down to round n. */
  function Undone(a: State, n: nat): State
    requires n <= ROUNDS
    decreases ROUNDS - n
  {
    if n == ROUNDS then a else InvRound(Undone(a, n + 1), n)
  }

  lemma {:induction false} UndoneRounds(a: State, n: nat)
    requires n <= ROUNDS
    ensures Undone(Permute(a), n) == Rounds(a, n)
    decreases ROUNDS - n
  {
    hide Round, InvRound;
    if n < ROUNDS {
      UndoneRounds(a, n + 1);
      RoundInverse(Rounds(a, n), n);
    }
  }

  lemma {:induction false} RoundsUndone(a: State, n: nat)
    requires n <= ROUNDS
    ensures Rounds(Undone(a, 0), n) == Undone(a, n)
    decreases n
  {
    hide Round, InvRound;
    if n > 0 {
      RoundsUndone(a, n - 1);
      RoundInverse(Undone(a, n), n - 1);
    }
  }

  function InvPermute(a: State): State {
    Undone(a, 0)
  }

  /** Keccak-p[1600, 24] is a bijection on states: InvPermute undoes it on either side. */
  lemma PermuteInverse(a: State)
    ensures InvPermute(Permute(a)) == a == Permute(InvPermute(a))
  {
    hide Round, InvRound;
    UndoneRounds(a, 0);
    RoundsUndone(a, ROUNDS);
  }

  lemma PermuteInjective(a: State, b: State)
    ensures Permute(a) == Permute(b) <==> a == b
  {
    hide Permute, InvPermute;
    PermuteInverse(a);
    PermuteInverse(b);
  }
}
