/** The permutation as the miner runs it: 25 lanes overwritten in place, with the chain of
    assignments for pi and the two saved lanes for chi. Each method is proved to compute
    the step mapping of FIPS 202. */
module KeccakInPlace {
  import opened Lanes
  import opened Keccak

  lemma ParityAt(a: State, x: nat)
    requires x < 5
    ensures Parity(a, x) == Xor(Xor(Xor(Xor(a[x], a[x + 5]), a[x + 10]), a[x + 15]), a[x + 20])
  {
    hide Xor;
  }

  /** The effects in the order of operands that the program uses. */
  lemma Effects(c: Row)
    ensures Effect(c, 0) == Xor(Rotl(c[1], 1), c[4])
    ensures Effect(c, 1) == Xor(Rotl(c[2], 1), c[0])
    ensures Effect(c, 2) == Xor(Rotl(c[3], 1), c[1])
    ensures Effect(c, 3) == Xor(Rotl(c[4], 1), c[2])
    ensures Effect(c, 4) == Xor(Rotl(c[0], 1), c[3])
  {
    hide Xor, Rotl;
    XorComm(c[4], Rotl(c[1], 1));
    XorComm(c[0], Rotl(c[2], 1));
    XorComm(c[1], Rotl(c[3], 1));
    XorComm(c[2], Rotl(c[4], 1));
    XorComm(c[3], Rotl(c[0], 1));
  }

  lemma ColumnMembers(x: nat)
    requires x < 5
    ensures forall i :: 0 <= i < 25 ==>
              (X(i) == x <==> i == x || i == x + 5 || i == x + 10 || i == x + 15 || i == x + 20)
  {}

  method ColumnParities(A: array<Lane>, C: array<Lane>)
    requires A.Length == 25 && C.Length == 5 && A != C
    modifies C
    ensures C[..] == Parities(A[..])
  {
    hide Xor, Parity;
    for x := 0 to 5
      invariant forall k :: 0 <= k < x ==> C[k] == Parity(A[..], k)
    {
      ParityAt(A[..], x);
      C[x] := Xor(Xor(Xor(Xor(A[x], A[x + 5]), A[x + 10]), A[x + 15]), A[x + 20]);
    }
  }

  /** One round of theta's second loop. */
  method AddToColumn(A: array<Lane>, x: nat, e: Lane)
    requires A.Length == 25 && x < 5
    modifies A
    ensures A[x] == Xor(old(A[x]), e) && A[x + 5] == Xor(old(A[x + 5]), e)
    ensures A[x + 10] == Xor(old(A[x + 10]), e) && A[x + 15] == Xor(old(A[x + 15]), e)
    ensures A[x + 20] == Xor(old(A[x + 20]), e)
    ensures forall i :: 0 <= i < 25 && i != x && i != x + 5 && i != x + 10 && i != x + 15 && i != x + 20 ==>
              A[i] == old(A[i])
  {
    hide Xor;
    A[x] := Xor(A[x], e);
    A[x + 5] := Xor(A[x + 5], e);
    A[x + 10] := Xor(A[x + 10], e);
    A[x + 15] := Xor(A[x + 15], e);
    A[x + 20] := Xor(A[x + 20], e);
  }

  /** The effect on each column, from the parities. */
  method ColumnEffects(C: array<Lane>, D: array<Lane>)
    requires C.Length == 5 && D.Length == 5 && C != D
    modifies D
    ensures forall k :: 0 <= k < 5 ==> D[k] == Effect(C[..], k)
  {
    hide Xor, Rotl, Effect;
    Effects(C[..]);
    D[0] := Xor(Rotl(C[1], 1), C[4]);
    D[1] := Xor(Rotl(C[2], 1), C[0]);
    D[2] := Xor(Rotl(C[3], 1), C[1]);
    D[3] := Xor(Rotl(C[4], 1), C[2]);
    D[4] := Xor(Rotl(C[0], 1), C[3]);
  }

  method KeccakTheta(A: array<Lane>)
    requires A.Length == 25
    modifies A
    ensures A[..] == Theta(old(A[..]))
  {
    hide Xor, X, Parity, Parities, Effect;
    ghost var a: State := A[..];
    var C := new Lane[5];
    ColumnParities(A, C);
    ghost var c: Row := C[..];
    var D := new Lane[5];
    ColumnEffects(C, D);
    for x := 0 to 5
      invariant forall k :: 0 <= k < 5 ==> D[k] == Effect(c, k)
      invariant forall i :: 0 <= i < 25 ==> A[i] == if X(i) < x then Xor(a[i], Effect(c, X(i))) else a[i]
    {
      ColumnMembers(x);
      AddToColumn(A, x, D[x]);
    }
  }

  /** The first twelve of pi's 24 assignments. */
  function PiChain1(a: State): State {
    a
     [1 := a[6]][6 := a[9]][9 := a[22]][22 := a[14]][14 := a[20]][20 := a[2]]
     [2 := a[12]][12 := a[13]][13 := a[19]][19 := a[23]][23 := a[15]][15 := a[4]]
  }

  /** The other twelve; first is what lane 1 held before the chain began. */
  function PiChain2(a: State, first: Lane): State {
    a
     [4 := a[24]][24 := a[21]][21 := a[8]][8 := a[16]][16 := a[5]][5 := a[3]]
     [3 := a[18]][18 := a[17]][17 := a[11]][11 := a[7]][7 := a[10]][10 := first]
  }

  /** Where pi takes each lane from. */
  function PiSource(i: nat): (source: nat)
    requires i < 25
    ensures source < 25
  {
    match i
    case 0 => 0 case 1 => 6 case 2 => 12 case 3 => 18 case 4 => 24
    case 5 => 3 case 6 => 9 case 7 => 10 case 8 => 16 case 9 => 22
    case 10 => 1 case 11 => 7 case 12 => 13 case 13 => 19 case 14 => 20
    case 15 => 4 case 16 => 5 case 17 => 11 case 18 => 17 case 19 => 23
    case 20 => 2 case 21 => 8 case 22 => 14 case 23 => 15 case 24 => 21
  }

  lemma PiSourceIsPi(i: nat)
    requires i < 25
    ensures Column(X(i), 3 * Y(i)) + 5 * X(i) == PiSource(i)
  {}

  lemma PiChainSource(a: State, i: nat)
    requires i < 25
    ensures PiChain2(PiChain1(a), a[1])[i] == a[PiSource(i)]
  {}

  /** The 24 assignments move every lane where section 3.2.3 sends it. */
  lemma PiChain(a: State)
    ensures PiChain2(PiChain1(a), a[1]) == Pi(a)
  {
    hide PiChain1, PiChain2, X, Y, Column;
    forall i: nat | i < 25
      ensures PiChain2(PiChain1(a), a[1])[i] == Pi(a)[i]
    {
      PiSourceIsPi(i);
      PiChainSource(a, i);
    }
  }

  method KeccakPiHead(A: array<Lane>)
    requires A.Length == 25
    modifies A
    ensures A[..] == PiChain1(old(A[..]))
  {
    A[1] := A[6];
    A[6] := A[9];
    A[9] := A[22];
    A[22] := A[14];
    A[14] := A[20];
    A[20] := A[2];
    A[2] := A[12];
    A[12] := A[13];
    A[13] := A[19];
    A[19] := A[23];
    A[23] := A[15];
    A[15] := A[4];
  }

  method KeccakPiTail(A: array<Lane>, A1: Lane)
    requires A.Length == 25
    modifies A
    ensures A[..] == PiChain2(old(A[..]), A1)
  {
    A[4] := A[24];
    A[24] := A[21];
    A[21] := A[8];
    A[8] := A[16];
    A[16] := A[5];
    A[5] := A[3];
    A[3] := A[18];
    A[18] := A[17];
    A[17] := A[11];
    A[11] := A[7];
    A[7] := A[10];
    A[10] := A1;
  }

  method KeccakPi(A: array<Lane>)
    requires A.Length == 25
    modifies A
    ensures A[..] == Pi(old(A[..]))
  {
    hide PiChain1, PiChain2, Pi;
    PiChain(A[..]);
    var A1 := A[1];
    KeccakPiHead(A);
    KeccakPiTail(A, A1);
  }

  lemma ChiRow(a: State, i: nat)
    requires i % 5 == 0 && i < 25
    ensures Chi(a)[i] == ChiLane(a[i], a[i + 1], a[i + 2])
    ensures Chi(a)[i + 1] == ChiLane(a[i + 1], a[i + 2], a[i + 3])
    ensures Chi(a)[i + 2] == ChiLane(a[i + 2], a[i + 3], a[i + 4])
    ensures Chi(a)[i + 3] == ChiLane(a[i + 3], a[i + 4], a[i])
    ensures Chi(a)[i + 4] == ChiLane(a[i + 4], a[i], a[i + 1])
  {
    hide ChiLane, X, Y;
    var y := i / 5;
    Coordinates(0, y); Coordinates(1, y); Coordinates(2, y); Coordinates(3, y); Coordinates(4, y);
  }

  /** One round of chi's loop, on the five lanes from i. */
  method ChiOnRow(A: array<Lane>, i: nat)
    requires A.Length == 25 && i + 5 <= 25
    modifies A
    ensures A[i] == ChiLane(old(A[i]), old(A[i + 1]), old(A[i + 2]))
    ensures A[i + 1] == ChiLane(old(A[i + 1]), old(A[i + 2]), old(A[i + 3]))
    ensures A[i + 2] == ChiLane(old(A[i + 2]), old(A[i + 3]), old(A[i + 4]))
    ensures A[i + 3] == ChiLane(old(A[i + 3]), old(A[i + 4]), old(A[i]))
    ensures A[i + 4] == ChiLane(old(A[i + 4]), old(A[i]), old(A[i + 1]))
    ensures forall k :: 0 <= k < 25 && !(i <= k < i + 5) ==> A[k] == old(A[k])
  {
    hide ChiLane;
    var A0, A1 := A[i], A[i + 1];
    A[i] := ChiLane(A[i], A1, A[i + 2]);
    A[i + 1] := ChiLane(A[i + 1], A[i + 2], A[i + 3]);
    A[i + 2] := ChiLane(A[i + 2], A[i + 3], A[i + 4]);
    A[i + 3] := ChiLane(A[i + 3], A[i + 4], A0);
    A[i + 4] := ChiLane(A[i + 4], A0, A1);
  }

  method KeccakChi(A: array<Lane>)
    requires A.Length == 25
    modifies A
    ensures A[..] == Chi(old(A[..]))
  {
    hide ChiLane, Chi;
    ghost var a: State := A[..];
    var i := 0;
    while i < 25
      invariant 0 <= i <= 25 && i % 5 == 0
      invariant forall k :: 0 <= k < i ==> A[k] == Chi(a)[k]
      invariant forall k :: i <= k < 25 ==> A[k] == a[k]
    {
      ChiRow(a, i);
      ChiOnRow(A, i);
      i := i + 5;
    }
  }

  // The 24 rotations of a round, six statements at a time.

  method Rotate1To6(state: array<Lane>)
    requires state.Length == 25
    modifies state
    ensures state[1] == Rotl(old(state[1]), 1) && state[2] == Rotl(old(state[2]), 62)
    ensures state[3] == Rotl(old(state[3]), 28) && state[4] == Rotl(old(state[4]), 27)
    ensures state[5] == Rotl(old(state[5]), 36) && state[6] == Rotl(old(state[6]), 44)
    ensures forall i :: 0 <= i < 25 && !(1 <= i < 7) ==> state[i] == old(state[i])
  {
    hide Rotl;
    state[1] := Rotl(state[1], 1);
    state[2] := Rotl(state[2], 62);
    state[3] := Rotl(state[3], 28);
    state[4] := Rotl(state[4], 27);
    state[5] := Rotl(state[5], 36);
    state[6] := Rotl(state[6], 44);
  }

  method Rotate7To12(state: array<Lane>)
    requires state.Length == 25
    modifies state
    ensures state[7] == Rotl(old(state[7]), 6) && state[8] == Rotl(old(state[8]), 55)
    ensures state[9] == Rotl(old(state[9]), 20) && state[10] == Rotl(old(state[10]), 3)
    ensures state[11] == Rotl(old(state[11]), 10) && state[12] == Rotl(old(state[12]), 43)
    ensures forall i :: 0 <= i < 25 && !(7 <= i < 13) ==> state[i] == old(state[i])
  {
    hide Rotl;
    state[7] := Rotl(state[7], 6);
    state[8] := Rotl(state[8], 55);
    state[9] := Rotl(state[9], 20);
    state[10] := Rotl(state[10], 3);
    state[11] := Rotl(state[11], 10);
    state[12] := Rotl(state[12], 43);
  }

  method Rotate13To18(state: array<Lane>)
    requires state.Length == 25
    modifies state
    ensures state[13] == Rotl(old(state[13]), 25) && state[14] == Rotl(old(state[14]), 39)
    ensures state[15] == Rotl(old(state[15]), 41) && state[16] == Rotl(old(state[16]), 45)
    ensures state[17] == Rotl(old(state[17]), 15) && state[18] == Rotl(old(state[18]), 21)
    ensures forall i :: 0 <= i < 25 && !(13 <= i < 19) ==> state[i] == old(state[i])
  {
    hide Rotl;
    state[13] := Rotl(state[13], 25);
    state[14] := Rotl(state[14], 39);
    state[15] := Rotl(state[15], 41);
    state[16] := Rotl(state[16], 45);
    state[17] := Rotl(state[17], 15);
    state[18] := Rotl(state[18], 21);
  }

  method Rotate19To24(state: array<Lane>)
    requires state.Length == 25
    modifies state
    ensures state[19] == Rotl(old(state[19]), 8) && state[20] == Rotl(old(state[20]), 18)
    ensures state[21] == Rotl(old(state[21]), 2) && state[22] == Rotl(old(state[22]), 61)
    ensures state[23] == Rotl(old(state[23]), 56) && state[24] == Rotl(old(state[24]), 14)
    ensures forall i :: 0 <= i < 25 && !(19 <= i < 25) ==> state[i] == old(state[i])
  {
    hide Rotl;
    state[19] := Rotl(state[19], 8);
    state[20] := Rotl(state[20], 18);
    state[21] := Rotl(state[21], 2);
    state[22] := Rotl(state[22], 61);
    state[23] := Rotl(state[23], 56);
    state[24] := Rotl(state[24], 14);
  }

  lemma RhoAt(a: State, i: nat)
    requires i < 25
    ensures Rho(a)[i] == Rotl(a[i], RhoOffset(i))
  {
    hide Rotl;
  }

  lemma Rho1To6(a: State)
    ensures Rho(a)[1] == Rotl(a[1], 1) && Rho(a)[2] == Rotl(a[2], 62)
    ensures Rho(a)[3] == Rotl(a[3], 28) && Rho(a)[4] == Rotl(a[4], 27)
    ensures Rho(a)[5] == Rotl(a[5], 36) && Rho(a)[6] == Rotl(a[6], 44)
  {
    hide Rho, Rotl;
    RhoAt(a, 1); RhoAt(a, 2); RhoAt(a, 3); RhoAt(a, 4); RhoAt(a, 5); RhoAt(a, 6);
  }

  lemma Rho7To12(a: State)
    ensures Rho(a)[7] == Rotl(a[7], 6) && Rho(a)[8] == Rotl(a[8], 55)
    ensures Rho(a)[9] == Rotl(a[9], 20) && Rho(a)[10] == Rotl(a[10], 3)
    ensures Rho(a)[11] == Rotl(a[11], 10) && Rho(a)[12] == Rotl(a[12], 43)
  {
    hide Rho, Rotl;
    RhoAt(a, 7); RhoAt(a, 8); RhoAt(a, 9); RhoAt(a, 10); RhoAt(a, 11); RhoAt(a, 12);
  }

  lemma Rho13To18(a: State)
    ensures Rho(a)[13] == Rotl(a[13], 25) && Rho(a)[14] == Rotl(a[14], 39)
    ensures Rho(a)[15] == Rotl(a[15], 41) && Rho(a)[16] == Rotl(a[16], 45)
    ensures Rho(a)[17] == Rotl(a[17], 15) && Rho(a)[18] == Rotl(a[18], 21)
  {
    hide Rho, Rotl;
    RhoAt(a, 13); RhoAt(a, 14); RhoAt(a, 15); RhoAt(a, 16); RhoAt(a, 17); RhoAt(a, 18);
  }

  lemma Rho19To24(a: State)
    ensures Rho(a)[19] == Rotl(a[19], 8) && Rho(a)[20] == Rotl(a[20], 18)
    ensures Rho(a)[21] == Rotl(a[21], 2) && Rho(a)[22] == Rotl(a[22], 61)
    ensures Rho(a)[23] == Rotl(a[23], 56) && Rho(a)[24] == Rotl(a[24], 14)
  {
    hide Rho, Rotl;
    RhoAt(a, 19); RhoAt(a, 20); RhoAt(a, 21); RhoAt(a, 22); RhoAt(a, 23); RhoAt(a, 24);
  }

  lemma RhoZero(a: State)
    ensures Rho(a)[0] == a[0]
  {
    RotlTwice32(a[0]);
  }

  method RotationsHead(state: array<Lane>)
    requires state.Length == 25
    modifies state
    ensures forall i :: 0 <= i < 13 ==> state[i] == Rho(old(state[..]))[i]
    ensures forall i :: 13 <= i < 25 ==> state[i] == old(state[i])
  {
    hide Rho, Rotl;
    RhoZero(state[..]);
    Rho1To6(state[..]);
    Rho7To12(state[..]);
    Rotate1To6(state);
    Rotate7To12(state);
  }

  method RotationsTail(state: array<Lane>)
    requires state.Length == 25
    modifies state
    ensures forall i :: 0 <= i < 13 ==> state[i] == old(state[i])
    ensures forall i :: 13 <= i < 25 ==> state[i] == Rho(old(state[..]))[i]
  {
    hide Rho, Rotl;
    Rho13To18(state[..]);
    Rho19To24(state[..]);
    Rotate13To18(state);
    Rotate19To24(state);
  }

  method Rotations(state: array<Lane>)
    requires state.Length == 25
    modifies state
    ensures state[..] == Rho(old(state[..]))
  {
    hide Rho, Rotl;
    ghost var a: State := state[..];
    RotationsHead(state);
    ghost var b: State := state[..];
    RotationsTail(state);
    forall i: nat | i < 25
      ensures state[i] == Rho(a)[i]
    {
      RhoAt(a, i);
      RhoAt(b, i);
    }
  }

  method Sha3Permutation(state: array<Lane>)
    requires state.Length == 25
    modifies state
    ensures state[..] == Permute(old(state[..]))
  {
    hide Xor, Theta, Rho, Pi, Chi;
    ghost var a: State := state[..];
    for round := 0 to ROUNDS
      invariant state[..] == Rounds(a, round)
    {
      KeccakTheta(state);
      Rotations(state);
      KeccakPi(state);
      KeccakChi(state);
      state[0] := Xor(state[0], ROUND_CONSTANTS[round]);
    }
  }
}
