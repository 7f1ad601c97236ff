/** The two tables of the permutation are the ones FIPS 202 generates. */
module KeccakTables {
  import opened Lanes
  import opened Keccak

  // ----- the rotation amounts, section 3.2.2 -----

  /** The lane after p: (y, 2x + 3y) after (x, y). */
  function Next(p: (nat, nat)): (q: (nat, nat))
    ensures q.1 < 5
  {
    (p.1, (2 * p.0 + 3 * p.1) % 5)
  }

  /** The lanes in the order rho visits them, from (1, 0). */
  function Walk(t: nat): (p: (nat, nat))
    ensures p.0 < 5 && p.1 < 5
  {
    if t == 0 then (1, 0) else Next(Walk(t - 1))
  }

  /** How far rho turns the lane it visits at step t. */
  function Turn(t: nat): nat {
    ((t + 1) * (t + 2) / 2) % 64
  }

  /** The element visited at step t, and back. */
  function Visited(t: nat): (i: nat)
    requires t < 24
    ensures 0 < i < 25
  {
    match t
    case 0 => 1 case 1 => 10 case 2 => 7 case 3 => 11 case 4 => 17 case 5 => 18
    case 6 => 3 case 7 => 5 case 8 => 16 case 9 => 8 case 10 => 21 case 11 => 24
    case 12 => 4 case 13 => 15 case 14 => 23 case 15 => 19 case 16 => 13 case 17 => 12
    case 18 => 2 case 19 => 20 case 20 => 14 case 21 => 22 case 22 => 9 case _ => 6
  }

  function Visit(i: nat): (t: nat)
    requires 0 < i < 25
    ensures t < 24
  {
    match i
    case 1 => 0 case 2 => 18 case 3 => 6 case 4 => 12 case 5 => 7 case 6 => 23
    case 7 => 2 case 8 => 9 case 9 => 22 case 10 => 1 case 11 => 3 case 12 => 17
    case 13 => 16 case 14 => 20 case 15 => 13 case 16 => 8 case 17 => 4 case 18 => 5
    case 19 => 15 case 20 => 19 case 21 => 10 case 22 => 21 case 23 => 14 case _ => 11
  }

  lemma VisitVisited(t: nat)
    requires t < 24
    ensures Visit(Visited(t)) == t
  {}

  lemma VisitedVisit(i: nat)
    requires 0 < i < 25
    ensures Visited(Visit(i)) == i
  {}

  lemma VisitedNext(t: nat, p: (nat, nat))
    requires t < 23 && p.0 < 5 && p.1 < 5 && p.0 + 5 * p.1 == Visited(t)
    ensures Next(p).0 + 5 * Next(p).1 == Visited(t + 1)
  {}

  lemma {:induction false} WalkVisits(t: nat)
    requires t < 24
    ensures Walk(t).0 + 5 * Walk(t).1 == Visited(t)
  {
    if t > 0 {
      hide Visited, Next;
      assert Walk(t) == Next(Walk(t - 1));
      hide Walk;
      WalkVisits(t - 1);
      VisitedNext(t - 1, Walk(t - 1));
    }
  }

  lemma VisitedOffset(t: nat)
    requires t < 24
    ensures RhoOffset(Visited(t)) == ((t + 1) * (t + 2) / 2) % 64
  {}

  /** The lane visited at step t turns by (t + 1)(t + 2) / 2 modulo 64. */
  lemma RhoTurns(t: nat)
    requires t < 24
    ensures RhoOffset(Walk(t).0 + 5 * Walk(t).1) == Turn(t)
  {
    hide RhoOffset, Visited, Walk;
    WalkVisits(t);
    VisitedOffset(t);
    hide Turn;
  }

  /** The walk reaches every lane but (0, 0), which does not turn, and reaches none twice. */
  lemma WalkReaches(x: nat, y: nat)
    requires x < 5 && y < 5
    ensures x + 5 * y == 0 ==> RhoOffset(x + 5 * y) == 0
    ensures x + 5 * y != 0 ==> Walk(Visit(x + 5 * y)) == (x, y)
  {
    hide Visited, Visit, Walk;
    if x + 5 * y != 0 {
      VisitedVisit(x + 5 * y);
      WalkVisits(Visit(x + 5 * y));
    }
  }

  lemma WalkOnce(s: nat, t: nat)
    requires s < 24 && t < 24
    ensures Walk(s) == Walk(t) <==> s == t
  {
    hide Visited, Visit, Walk;
    WalkVisits(s);
    WalkVisits(t);
    VisitVisited(s);
    VisitVisited(t);
  }

  // ----- the round constants, section 3.2.5 -----

  /** One step of the feedback register of algorithm 5; bit j is R[j]. */
  function Shift(r: bv8): bv8 {
    if r & 0x80 != 0 then (r << 1) ^ 0x71 else r << 1
  }

  function Register(t: nat): bv8 {
    if t == 0 then 1 else Shift(Register(t - 1))
  }

  function Bit(r: bv8, mask: Lane): Lane {
    if r & 1 != 0 then mask else 0
  }

  /** Bit 2^j - 1 of the constant is rc(j + t), the low bit of the register, for j from 0
      to 6; a round's t is seven times its number. */
  function ConstantAt(t: nat): Lane {
    Bit(Register(t), 0x1) | Bit(Register(t + 1), 0x2) | Bit(Register(t + 2), 0x8)
    | Bit(Register(t + 3), 0x80) | Bit(Register(t + 4), 0x8000)
    | Bit(Register(t + 5), 0x8000_0000) | Bit(Register(t + 6), 0x8000_0000_0000_0000)
  }

  /** The register when a round begins. */
  function Seed(round: nat): bv8
    requires round < 24
  {
    match round
    case 0 => 0x01 case 1 => 0x80 case 2 => 0xD8 case 3 => 0x1A case 4 => 0xDF case 5 => 0x09
    case 6 => 0x35 case 7 => 0x4F case 8 => 0xCA case 9 => 0x70 case 10 => 0x41 case 11 => 0xEC
    case 12 => 0xD5 case 13 => 0xCD case 14 => 0x63 case 15 => 0xAB case 16 => 0xAA case 17 => 0x2A
    case 18 => 0xF2 case 19 => 0xE8 case 20 => 0x37 case 21 => 0x3E case 22 => 0x0B case _ => 0x44
  }

  function Seven(r: bv8): bv8 {
    Shift(Shift(Shift(Shift(Shift(Shift(Shift(r)))))))
  }

  function ConstantFrom(r: bv8): Lane {
    Bit(r, 0x1) | Bit(Shift(r), 0x2) | Bit(Shift(Shift(r)), 0x8)
    | Bit(Shift(Shift(Shift(r))), 0x80) | Bit(Shift(Shift(Shift(Shift(r)))), 0x8000)
    | Bit(Shift(Shift(Shift(Shift(Shift(r))))), 0x8000_0000)
    | Bit(Shift(Shift(Shift(Shift(Shift(Shift(r)))))), 0x8000_0000_0000_0000)
  }

  lemma RegisterNext(t: nat)
    ensures Register(t + 1) == Shift(Register(t))
  {}

  lemma RegisterSeven(t: nat)
    ensures Register(t + 7) == Seven(Register(t))
    ensures ConstantAt(t) == ConstantFrom(Register(t))
  {
    hide Register, Shift, Bit;
    RegisterNext(t); RegisterNext(t + 1); RegisterNext(t + 2); RegisterNext(t + 3);
    RegisterNext(t + 4); RegisterNext(t + 5); RegisterNext(t + 6);
  }

  lemma SeedNext(round: nat)
    requires round < 23
    ensures Seven(Seed(round)) == Seed(round + 1)
  {}

  lemma SeedConstantEarly(round: nat)
    requires round < 12
    ensures ConstantFrom(Seed(round)) == ROUND_CONSTANTS[round]
  {}

  lemma SeedConstantLate(round: nat)
    requires 12 <= round < 24
    ensures ConstantFrom(Seed(round)) == ROUND_CONSTANTS[round]
  {}

  lemma FirstSeed()
    ensures Register(0) == Seed(0)
  {}

  lemma {:induction false} SeedIsRegister(round: nat)
    requires round < 24
    ensures Register(7 * round) == Seed(round)
  {
    FirstSeed();
    hide Register, Seed, Seven;
    if round > 0 {
      SeedIsRegister(round - 1);
      SeedNext(round - 1);
      RegisterSeven(7 * (round - 1));
      assert 7 * (round - 1) + 7 == 7 * round;
    }
  }

  /** Every constant of the table is what the feedback register yields for its round. */
  lemma ConstantTable(round: nat)
    requires round < 24
    ensures ROUND_CONSTANTS[round] == ConstantAt(7 * round)
  {
    hide Register, Seed, ConstantAt, ConstantFrom;
    SeedIsRegister(round);
    if round < 12 {
      SeedConstantEarly(round);
    } else {
      SeedConstantLate(round);
    }
    RegisterSeven(7 * round);
  }
}
