/** How the driver splits the 64-bit nonces among the chips of a board, three groups each. */
module NonceSplit {
  const UINT64: nat := 0x1_0000_0000_0000_0000
  const GROUPS: nat := 3
  const MAX_CHIPS: nat := 254

  /** One frame sent to a chip: where its group begins to search. */
  datatype Start = Start(chip: nat, group: nat, nonce: nat)

  /** The length of each range; a negative number of chips is converted to unsigned. */
  function Unit(chips: int): (unit: nat)
    requires chips != 0 && -(UINT64 as int) < chips < UINT64
  {
    (UINT64 - 1) / GROUPS / if chips > 0 then chips else UINT64 + chips
  }

  function StartAt(unit: nat, k: nat): Start {
    Start(1 + k / GROUPS, k % GROUPS, unit * k)
  }

  /** The nonces of the k-th range. */
  predicate InRange(unit: nat, k: nat, nonce: nat) {
    unit * k <= nonce < unit * k + unit
  }

  /** meer_drv_set_work: chip_id counts in eight bits and the products in 64. With 255 chips
      or more chip_id never exceeds their number and the loop does not end; with none the
      division fails. */
  method SetWork(chips: int) returns (starts: seq<Start>)
    requires -0x8000_0000 <= chips <= MAX_CHIPS && chips != 0
    ensures |starts| == if chips < 0 then 0 else GROUPS * chips
    ensures forall k :: 0 <= k < |starts| ==> starts[k] == StartAt(Unit(chips), k)
  {
    var chipId := 1;
    var index := 0;
    var unit := Unit(chips);
    starts := [];
    while chipId <= chips
      invariant 1 <= chipId && (chips > 0 ==> chipId <= chips + 1)
      invariant chips < 0 ==> chipId == 1
      invariant index == |starts| == GROUPS * (chipId - 1)
      invariant forall k :: 0 <= k < |starts| ==> starts[k] == StartAt(unit, k)
      decreases chips - chipId
    {
      for group := 0 to GROUPS
        invariant index == |starts| == GROUPS * (chipId - 1) + group
        invariant forall k :: 0 <= k < |starts| ==> starts[k] == StartAt(unit, k)
      {
        NoOverflow(chips, index, 0);
        var step := (unit * index) % UINT64;
        starts := starts + [Start(chipId, group, step)];
        index := (index + 1) % UINT64;
      }
      chipId := (chipId + 1) % 256;
    }
  }

  /** Each chip's three groups begin where three ranges in a row do. */
  lemma StartsOfChip(unit: nat, chip: nat, group: nat)
    requires chip >= 1 && group < GROUPS
    ensures StartAt(unit, GROUPS * (chip - 1) + group) == Start(chip, group, unit * (GROUPS * (chip - 1) + group))
  {}

  /** The eight-bit counter after so many turns. */
  function ChipAfter(turns: nat): (chipId: nat)
    ensures chipId < 256
  {
    if turns == 0 then 1 else (ChipAfter(turns - 1) + 1) % 256
  }

  lemma {:induction false} ChipCounts(turns: nat)
    requires turns < 255
    ensures ChipAfter(turns) == turns + 1
  {
    if turns > 0 {
      ChipCounts(turns - 1);
    }
  }

  predicate Ends(chips: int, turns: nat) {
    ChipAfter(turns) > chips
  }

  /** The loop ends exactly for up to 254 chips. */
  lemma LoopEnds(chips: int)
    ensures (exists turns: nat :: Ends(chips, turns)) <==> chips <= MAX_CHIPS
  {
    if chips <= MAX_CHIPS {
      var turns: nat := if chips < 0 then 0 else chips;
      ChipCounts(turns);
      assert Ends(chips, turns);
    }
  }

  lemma MultiplyUp(unit: nat, k: nat, m: nat)
    requires k <= m
    ensures unit * k <= unit * m
  {}

  lemma OneMore(unit: nat, k: nat)
    ensures unit * (k + 1) == unit * k + unit
  {}

  lemma TotalLength(chips: nat)
    requires 1 <= chips < UINT64
    ensures UINT64 - GROUPS * chips <= Unit(chips) * (GROUPS * chips) < UINT64
  {
    var third: nat := (UINT64 - 1) / GROUPS;
    assert GROUPS * third == UINT64 - 1;
    var unit := third / chips;
    assert unit * chips == third - third % chips;
    assert unit * (GROUPS * chips) == GROUPS * (unit * chips);
  }

  /** No range reaches past 64 bits. */
  lemma NoOverflow(chips: nat, k: nat, j: nat)
    requires 1 <= chips <= MAX_CHIPS && k < GROUPS * chips && j <= Unit(chips)
    ensures Unit(chips) * k + j < UINT64
  {
    TotalLength(chips);
    var unit := Unit(chips);
    MultiplyUp(unit, k + 1, GROUPS * chips);
    OneMore(unit, k);
  }

  /** The ranges are disjoint and together are all nonces but at most three per chip. */
  lemma RangesPartition(chips: nat, nonce: nat)
    requires 1 <= chips <= MAX_CHIPS && nonce < UINT64
    ensures var unit := Unit(chips);
            && (forall k: nat, m: nat :: InRange(unit, k, nonce) && InRange(unit, m, nonce) ==> k == m)
            && ((exists k: nat :: k < GROUPS * chips && InRange(unit, k, nonce)) <==> nonce < unit * (GROUPS * chips))
            && UINT64 - unit * (GROUPS * chips) <= GROUPS * chips
  {
    TotalLength(chips);
    var unit := Unit(chips);
    forall k: nat, m: nat | InRange(unit, k, nonce) && InRange(unit, m, nonce)
      ensures k == m
    {
      SameRange(unit, k, m, nonce);
      SameRange(unit, m, k, nonce);
    }
    if nonce < unit * (GROUPS * chips) {
      OwnRange(unit, GROUPS * chips, nonce);
    } else {
      forall k: nat | k < GROUPS * chips
        ensures !InRange(unit, k, nonce)
      {
        MultiplyUp(unit, k + 1, GROUPS * chips);
        OneMore(unit, k);
      }
    }
  }

  lemma SameRange(unit: nat, k: nat, m: nat, nonce: nat)
    requires InRange(unit, k, nonce) && InRange(unit, m, nonce)
    ensures k <= m
  {
    if k > m {
      MultiplyUp(unit, m + 1, k);
      OneMore(unit, m);
    }
  }

  lemma OwnRange(unit: nat, count: nat, nonce: nat)
    requires nonce < unit * count
    ensures unit > 0 && nonce / unit < count && InRange(unit, nonce / unit, nonce)
  {
    assert unit > 0;
    var k := nonce / unit;
    assert nonce == unit * k + nonce % unit;
    if k >= count {
      MultiplyUp(unit, count, k);
    }
  }
}
