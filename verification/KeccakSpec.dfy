/** The permutation Keccak-p[1600, 24] as FIPS 202 defines it, lane by lane: the step
    mappings of sections 3.2.1 to 3.2.5 and the round of section 3.3. Lane (x, y) is
    element x + 5y of the state. */
module Keccak {
  import opened Lanes

  type State = s: seq<Lane> | |s| == 25 witness seq(25, i requires 0 <= i < 25 => ZeroLane(i))

  /** One lane for each of the five columns, or one plane. */
  type Row = r: seq<Lane> | |r| == 5 witness seq(5, i requires 0 <= i < 5 => ZeroLane(i))

  function ZeroLane(i: nat): Lane {
    0
  }

  function ZeroState(): State {
    seq(25, i requires 0 <= i < 25 => ZeroLane(i))
  }

  function At(a: State, x: nat, y: nat): Lane
    requires x < 5 && y < 5
  {
    a[x + 5 * y]
  }

  /** The column and the row of element i. */
  function X(i: nat): (x: nat)
    ensures x < 5
  {
    i % 5
  }

  function Y(i: nat): (y: nat)
    requires i < 25
    ensures y < 5
  {
    i / 5
  }

  /** The column s places after x. */
  function Column(x: nat, s: nat): (column: nat)
    ensures column < 5
  {
    (x + s) % 5
  }

  lemma Coordinates(x: nat, y: nat)
    requires x < 5 && y < 5
    ensures X(x + 5 * y) == x && Y(x + 5 * y) == y
  {}

  lemma IndexOfCoordinates(i: nat)
    requires i < 25
    ensures X(i) + 5 * Y(i) == i
  {}

  // ----- theta, section 3.2.1 -----

  function Parity(a: State, x: nat): Lane
    requires x < 5
  {
    Xor(Xor(Xor(Xor(At(a, x, 0), At(a, x, 1)), At(a, x, 2)), At(a, x, 3)), At(a, x, 4))
  }

  function Parities(a: State): Row {
    [Parity(a, 0), Parity(a, 1), Parity(a, 2), Parity(a, 3), Parity(a, 4)]
  }

  function Effect(c: Row, x: nat): Lane
    requires x < 5
  {
    Xor(c[Column(x, 4)], Rotl(c[Column(x, 1)], 1))
  }

  /** Every lane of column x takes up the same effect. */
  function AddEffect(a: State, c: Row): State {
    seq(25, i requires 0 <= i < 25 => Xor(a[i], Effect(c, X(i))))
  }

  function Theta(a: State): State {
    AddEffect(a, Parities(a))
  }

  // ----- rho, section 3.2.2 -----

  /** By how much element i turns. */
  function RhoOffset(i: nat): (offset: nat)
    requires i < 25
    ensures offset < 64
  {
    match i
    case 0 => 0 case 1 => 1 case 2 => 62 case 3 => 28 case 4 => 27
    case 5 => 36 case 6 => 44 case 7 => 6 case 8 => 55 case 9 => 20
    case 10 => 3 case 11 => 10 case 12 => 43 case 13 => 25 case 14 => 39
    case 15 => 41 case 16 => 45 case 17 => 15 case 18 => 21 case 19 => 8
    case 20 => 18 case 21 => 2 case 22 => 61 case 23 => 56 case 24 => 14
  }

  function Rho(a: State): State {
    seq(25, i requires 0 <= i < 25 => Rotl(a[i], RhoOffset(i)))
  }

  // ----- pi, section 3.2.3 -----

  function Pi(a: State): State {
    seq(25, i requires 0 <= i < 25 => At(a, Column(X(i), 3 * Y(i)), X(i)))
  }

  // ----- chi, section 3.2.4 -----

  function ChiLane(a: Lane, b: Lane, c: Lane): Lane {
    a ^ (!b & c)
  }

  function Chi(a: State): State {
    seq(25, i requires 0 <= i < 25 =>
      ChiLane(At(a, X(i), Y(i)), At(a, Column(X(i), 1), Y(i)), At(a, Column(X(i), 2), Y(i))))
  }

  // ----- iota, section 3.2.5 -----

  const ROUND_CONSTANTS: seq<Lane> :=
    [0x0000000000000001, 0x0000000000008082,
     0x800000000000808A, 0x8000000080008000,
     0x000000000000808B, 0x0000000080000001,
     0x8000000080008081, 0x8000000000008009,
     0x000000000000008A, 0x0000000000000088,
     0x0000000080008009, 0x000000008000000A,
     0x000000008000808B, 0x800000000000008B,
     0x8000000000008089, 0x8000000000008003,
     0x8000000000008002, 0x8000000000000080,
     0x000000000000800A, 0x800000008000000A,
     0x8000000080008081, 0x8000000000008080,
     0x0000000080000001, 0x8000000080008008]

  const ROUNDS: nat := 24

  function Iota(a: State, round: nat): State
    requires round < ROUNDS
  {
    a[0 := Xor(a[0], ROUND_CONSTANTS[round])]
  }

  // ----- rounds, section 3.3 -----

  function Round(a: State, round: nat): State
    requires round < ROUNDS
  {
    Iota(Chi(Pi(Rho(Theta(a)))), round)
  }

  /** The state after the first n rounds. */
  function Rounds(a: State, n: nat): State
    requires n <= ROUNDS
  {
    if n == 0 then a else Round(Rounds(a, n - 1), n - 1)
  }

  function Permute(a: State): State {
    Rounds(a, ROUNDS)
  }
}
