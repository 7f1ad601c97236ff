/** Merkle trees kept in a linear array: the array builder, and the recursive tree whose
    root it computes. Hashes are of any type H, and the hash of a pair is a parameter. */
module Merkle {
  import opened Options
  import opened Seqs

  /** The hash of two hashes, whatever it may be. */
  datatype Hashing<!H> = Hashing(combine: (H, H) -> H) {

    function Pair(left: H, right: H): H {
      combine(left, right)
    }
  }

  // ----- the next power of two -----

  /** Bitwise and. */
  function And(a: nat, b: nat): nat {
    if a == 0 || b == 0 then 0 else (if a % 2 == 1 && b % 2 == 1 then 1 else 0) + 2 * And(a / 2, b / 2)
  }

  predicate IsPowerOfTwo(n: nat) {
    n == 1 || (n > 0 && n % 2 == 0 && IsPowerOfTwo(n / 2))
  }

  function Power(e: nat): (p: nat)
    ensures p > 0
  {
    if e == 0 then 1 else 2 * Power(e - 1)
  }

  lemma {:induction false} PowerIsPowerOfTwo(e: nat)
    ensures IsPowerOfTwo(Power(e))
  {
    if e > 0 {
      PowerIsPowerOfTwo(e - 1);
    }
  }

  /** The whole part of the logarithm, as math.Log2 followed by truncation has it. */
  function FloorLog2(n: nat): (e: nat)
    requires n > 0
    ensures Power(e) <= n < 2 * Power(e)
  {
    if n == 1 then 0 else 1 + FloorLog2(n / 2)
  }

  lemma {:induction false} AndSelf(n: nat)
    ensures And(n, n) == n
  {
    if n > 0 {
      AndSelf(n / 2);
    }
  }

  /** The test n & (n - 1) == 0 recognises the powers of two. */
  lemma {:induction false} AndPredecessor(n: nat)
    requires n > 0
    ensures And(n, n - 1) == 0 <==> IsPowerOfTwo(n)
  {
    if n % 2 == 1 {
      assert (n - 1) / 2 == n / 2;
      AndSelf(n / 2);
    } else {
      assert (n - 1) / 2 == n / 2 - 1;
      AndPredecessor(n / 2);
    }
  }

  lemma {:induction false} PowerOfTwoIsPower(p: nat)
    requires IsPowerOfTwo(p)
    ensures Power(FloorLog2(p)) == p
  {
    if p > 1 {
      PowerOfTwoIsPower(p / 2);
    }
  }

  function NextPowerOfTwo(n: nat): (p: nat)
    ensures n > 0 ==> IsPowerOfTwo(p) && n <= p < 2 * n
  {
    if n == 0 then
      0
    else
      AndPredecessor(n);
      PowerIsPowerOfTwo(FloorLog2(n) + 1);
      if And(n, n - 1) == 0 then n else Power(FloorLog2(n) + 1)
  }

  // ----- the recursive tree -----

  /** Node i of the level above xs. */
  function PairAt<H>(hashing: Hashing<H>, xs: seq<H>, i: nat): H
    requires 2 * i < |xs|
  {
    hashing.Pair(xs[2 * i], if 2 * i + 1 < |xs| then xs[2 * i + 1] else xs[2 * i])
  }

  /** The level above xs; the last node of an odd level is paired with itself. */
  function Above<H>(hashing: Hashing<H>, xs: seq<H>): (ys: seq<H>)
    ensures |xs| <= 2 * |ys| <= |xs| + 1
    decreases |xs|
  {
    seq((|xs| + 1) / 2, i requires 0 <= i < (|xs| + 1) / 2 => PairAt(hashing, xs, i))
  }

  lemma AboveAt<H>(hashing: Hashing<H>, xs: seq<H>, i: nat)
    requires 2 * i < |xs|
    ensures Above(hashing, xs)[i] == PairAt(hashing, xs, i)
  {}

  function Root<H>(hashing: Hashing<H>, xs: seq<H>): H
    requires |xs| > 0
    decreases |xs|
  {
    if |xs| == 1 then xs[0] else Root(hashing, Above(hashing, xs))
  }

  lemma RootAbove<H>(hashing: Hashing<H>, xs: seq<H>)
    requires |xs| > 1
    ensures Root(hashing, xs) == Root(hashing, Above(hashing, xs))
  {
    hide Above;
  }

  // ----- the tree in an array -----

  /** A cell of a level: a node, or nil past the last one. */
  function Cell<H>(xs: seq<H>, i: nat): Option<H> {
    if i < |xs| then Some(xs[i]) else None
  }

  function Level<H>(w: nat, xs: seq<H>): (level: seq<Option<H>>)
    ensures |level| == w
    ensures forall i :: 0 <= i < w ==> level[i] == Cell(xs, i)
  {
    seq(w, i requires 0 <= i < w => Cell(xs, i))
  }

  /** All levels, lowest first: 2^e cells for the leaves, then half as many each time. */
  function Store<H>(hashing: Hashing<H>, e: nat, xs: seq<H>): (store: seq<Option<H>>)
    ensures |store| == 2 * Power(e) - 1
  {
    Level(Power(e), xs) + if e == 0 then [] else Store(hashing, e - 1, Above(hashing, xs))
  }

  lemma JoinAt<T>(s: seq<T>, t: seq<T>, n: nat)
    requires |s| == n
    ensures forall i :: 0 <= i < n ==> (s + t)[i] == s[i]
    ensures forall k :: 0 <= k < |t| ==> (s + t)[n + k] == t[k]
  {}

  lemma StoreLowest<H>(hashing: Hashing<H>, e: nat, xs: seq<H>, i: nat)
    requires i < Power(e)
    ensures Store(hashing, e, xs)[i] == Cell(xs, i)
  {
    hide Above, Cell, Power, Level;
    JoinAt(Level(Power(e), xs), if e == 0 then [] else Store(hashing, e - 1, Above(hashing, xs)), Power(e));
  }

  lemma StoreHigher<H>(hashing: Hashing<H>, e: nat, xs: seq<H>, k: nat)
    requires e > 0 && k < 2 * Power(e - 1) - 1
    ensures Store(hashing, e, xs)[Power(e) + k] == Store(hashing, e - 1, Above(hashing, xs))[k]
  {
    hide Above, Cell, Power, Level;
    JoinAt(Level(Power(e), xs), Store(hashing, e - 1, Above(hashing, xs)), Power(e));
  }

  lemma StoreAboveCells<H>(hashing: Hashing<H>, e: nat, xs: seq<H>)
    requires e > 0
    ensures Store(hashing, e, xs)[Power(e)..] == Store(hashing, e - 1, Above(hashing, xs))
  {
    hide Above, Cell, Power, Level;
    JoinFront(Level(Power(e), xs), Store(hashing, e - 1, Above(hashing, xs)));
  }

  /** What the builder puts above two neighbouring cells. */
  function Parent<H>(hashing: Hashing<H>, left: Option<H>, right: Option<H>): Option<H> {
    if left.None? then None
    else if right.None? then Some(hashing.Pair(left.value, left.value))
    else Some(hashing.Pair(left.value, right.value))
  }

  lemma CellParent<H>(hashing: Hashing<H>, xs: seq<H>, k: nat)
    ensures Cell(Above(hashing, xs), k) == Parent(hashing, Cell(xs, 2 * k), Cell(xs, 2 * k + 1))
  {
    if 2 * k < |xs| {
      AboveAt(hashing, xs, k);
    }
    hide Above;
  }

  /** Cell n + k of store is the parent of cells 2k and 2k + 1. */
  ghost predicate IsParent<H>(hashing: Hashing<H>, store: seq<Option<H>>, n: nat, k: nat) {
    2 * k + 1 < n + k < |store| && store[n + k] == Parent(hashing, store[2 * k], store[2 * k + 1])
  }

  lemma MakeParent<H>(hashing: Hashing<H>, store: seq<Option<H>>, n: nat, k: nat, left: Option<H>, right: Option<H>)
    requires 2 * k + 1 < n + k < |store| && store[2 * k] == left && store[2 * k + 1] == right
    requires store[n + k] == Parent(hashing, left, right)
    ensures IsParent(hashing, store, n, k)
  {
    hide Parent;
  }

  lemma StoreParentLow<H>(hashing: Hashing<H>, e: nat, xs: seq<H>, k: nat)
    requires e > 0 && k < Power(e - 1)
    ensures IsParent(hashing, Store(hashing, e, xs), Power(e), k)
  {
    hide *;
    PowerDouble(e);
    var above := Above(hashing, xs);
    StoreLowest(hashing, e, xs, 2 * k);
    StoreLowest(hashing, e, xs, 2 * k + 1);
    StoreHigher(hashing, e, xs, k);
    StoreLowest(hashing, e - 1, above, k);
    CellParent(hashing, xs, k);
    MakeParent(hashing, Store(hashing, e, xs), Power(e), k, Cell(xs, 2 * k), Cell(xs, 2 * k + 1));
  }

  lemma StoreParentHigh<H>(hashing: Hashing<H>, e: nat, xs: seq<H>, j: nat)
    requires e > 0 && j + 1 < Power(e - 1)
    requires IsParent(hashing, Store(hashing, e - 1, Above(hashing, xs)), Power(e - 1), j)
    ensures IsParent(hashing, Store(hashing, e, xs), Power(e), j + Power(e - 1))
  {
    PowerDouble(e);
    hide Store, Above, Parent, Power;
    StoreAboveCells(hashing, e, xs);
    ShiftParent(hashing, Store(hashing, e, xs), Power(e - 1), j);
  }

  lemma ShiftParent<H>(hashing: Hashing<H>, s: seq<Option<H>>, half: nat, j: nat)
    requires 2 * half <= |s| && IsParent(hashing, s[2 * half..], half, j)
    ensures IsParent(hashing, s, 2 * half, j + half)
  {
    hide Parent;
  }

  /** Every cell of the array above the leaves is the parent of two cells before it. */
  lemma {:induction false} StoreParent<H>(hashing: Hashing<H>, e: nat, xs: seq<H>, k: nat)
    requires k + 1 < Power(e)
    ensures IsParent(hashing, Store(hashing, e, xs), Power(e), k)
    decreases e
  {
    PowerDouble(e);
    hide Store, Above, IsParent, Power;
    if k < Power(e - 1) {
      StoreParentLow(hashing, e, xs, k);
    } else {
      StoreParent(hashing, e - 1, Above(hashing, xs), k - Power(e - 1));
      StoreParentHigh(hashing, e, xs, k - Power(e - 1));
    }
  }

  lemma PowerDouble(e: nat)
    requires e > 0 || Power(e) > 1
    ensures e > 0 && Power(e) == 2 * Power(e - 1)
  {}

  lemma LoneLeaf<H>(hashing: Hashing<H>, x: H)
    ensures Store(hashing, 0, [x]) == [Some(x)] && Root(hashing, [x]) == x
  {}

  /** The last cell is the root, provided the array is less than twice too wide. */
  lemma {:induction false} StoreRoot<H>(hashing: Hashing<H>, e: nat, xs: seq<H>)
    requires 0 < |xs| <= Power(e) < 2 * |xs|
    ensures Store(hashing, e, xs)[2 * Power(e) - 2] == Some(Root(hashing, xs))
    decreases e
  {
    if e == 0 {
      assert xs == [xs[0]];
      LoneLeaf(hashing, xs[0]);
    } else {
      assert Power(e) == 2 * Power(e - 1);
      hide Store, Level, Above, Root, Power;
      StoreRoot(hashing, e - 1, Above(hashing, xs));
      RootAbove(hashing, xs);
      StoreHigher(hashing, e, xs, 2 * Power(e - 1) - 2);
    }
  }

  /** The nodes of the level d steps above xs. */
  function AboveBy<H>(hashing: Hashing<H>, xs: seq<H>, d: nat): seq<H>
    decreases d
  {
    if d == 0 then xs else AboveBy(hashing, Above(hashing, xs), d - 1)
  }

  lemma {:induction false} PowerMonotone(d: nat, e: nat)
    requires d <= e
    ensures Power(d) <= Power(e)
  {
    if d < e {
      PowerMonotone(d, e - 1);
    }
  }

  /** Where level d starts in an array for 2^e leaves. */
  function LevelStart(e: nat, d: nat): (start: nat)
    requires d <= e
    ensures start + Power(e - d) <= 2 * Power(e) - 1
  {
    PowerMonotone(e - d, e);
    2 * (Power(e) - Power(e - d))
  }

  lemma LevelStartFits(e: nat, d: nat, i: nat)
    requires d <= e && i < Power(e - d)
    ensures LevelStart(e, d) + i < 2 * Power(e) - 1
  {
    hide Power;
  }

  lemma AboveByNext<H>(hashing: Hashing<H>, xs: seq<H>, d: nat)
    ensures AboveBy(hashing, xs, d + 1) == AboveBy(hashing, Above(hashing, xs), d)
  {}

  /** Cell i of level d is the i-th of the nodes d steps above the leaves, or nil when there
      are not so many: the nil cells of a level come last. */
  lemma {:induction false} StoreLevel<H>(hashing: Hashing<H>, e: nat, xs: seq<H>, d: nat, i: nat)
    requires d <= e && i < Power(e - d)
    ensures LevelStart(e, d) + i < |Store(hashing, e, xs)|
    ensures Store(hashing, e, xs)[LevelStart(e, d) + i] == Cell(AboveBy(hashing, xs, d), i)
    decreases d
  {
    hide *;
    LevelStartFits(e, d, i);
    LevelStartNext(e, d);
    if d == 0 {
      StoreLowest(hashing, e, xs, i);
      LowestIsLeaves(hashing, xs);
    } else {
      var above := Above(hashing, xs);
      StoreLevel(hashing, e - 1, above, d - 1, i);
      LevelStartFits(e - 1, d - 1, i);
      StoreHigher(hashing, e, xs, LevelStart(e - 1, d - 1) + i);
      AboveByNext(hashing, xs, d - 1);
    }
  }

  lemma LowestIsLeaves<H>(hashing: Hashing<H>, xs: seq<H>)
    ensures AboveBy(hashing, xs, 0) == xs
  {}

  lemma LevelStartNext(e: nat, d: nat)
    requires d <= e
    ensures LevelStart(e, 0) == 0
    ensures d > 0 ==> LevelStart(e, d) == Power(e) + LevelStart(e - 1, d - 1)
  {}

  // ----- what a root says about the leaves -----

  /** The second of the two nodes under node i of the next level. */
  function Partner<H>(xs: seq<H>, i: nat): H
    requires 2 * i < |xs|
  {
    if 2 * i + 1 < |xs| then xs[2 * i + 1] else xs[2 * i]
  }

  /** Pair i of one level and pair i of the other are different and have one hash. */
  ghost predicate PairsCollide<H>(hashing: Hashing<H>, xs: seq<H>, ys: seq<H>, i: nat) {
    && 2 * i < |xs| && 2 * i < |ys|
    && (xs[2 * i] != ys[2 * i] || Partner(xs, i) != Partner(ys, i))
    && hashing.Pair(xs[2 * i], Partner(xs, i)) == hashing.Pair(ys[2 * i], Partner(ys, i))
  }

  /** The trees over xs and ys collide at pair i of the nodes d steps above the leaves. */
  ghost predicate CollideAt<H>(hashing: Hashing<H>, xs: seq<H>, ys: seq<H>, d: nat, i: nat) {
    PairsCollide(hashing, AboveBy(hashing, xs, d), AboveBy(hashing, ys, d), i)
  }

  lemma AboveCollides<H>(hashing: Hashing<H>, xs: seq<H>, ys: seq<H>, k: nat)
    requires |xs| == |ys| && Above(hashing, xs) == Above(hashing, ys)
    requires k < |xs| && xs[k] != ys[k]
    ensures PairsCollide(hashing, xs, ys, k / 2)
  {
    AboveAt(hashing, xs, k / 2);
    AboveAt(hashing, ys, k / 2);
    hide Above;
  }

  /** Different lists of one length have different roots, unless at some place of their two
      trees, on one level, two different pairs of nodes have one hash. */
  lemma {:induction false} SameRootSameLeaves<H>(hashing: Hashing<H>, xs: seq<H>, ys: seq<H>)
    requires |xs| == |ys| > 0 && Root(hashing, xs) == Root(hashing, ys)
    ensures xs == ys || exists d: nat, i: nat :: CollideAt(hashing, xs, ys, d, i)
    decreases |xs|
  {
    if |xs| > 1 && xs != ys {
      var us, vs := Above(hashing, xs), Above(hashing, ys);
      if us == vs {
        var k :| 0 <= k < |xs| && xs[k] != ys[k];
        AboveCollides(hashing, xs, ys, k);
        assert CollideAt(hashing, xs, ys, 0, k / 2);
      } else {
        SameRootSameLeaves(hashing, us, vs);
        var d: nat, i: nat :| CollideAt(hashing, us, vs, d, i);
        hide PairsCollide;
        assert CollideAt(hashing, xs, ys, d + 1, i);
      }
    }
  }

  ghost predicate IsInjective<H(!new)>(hashing: Hashing<H>) {
    forall a, b, c, d :: hashing.Pair(a, b) == hashing.Pair(c, d) ==> a == c && b == d
  }

  /** With an injective hash of pairs the root decides a list of known length. */
  lemma RootDecides<H(!new)>(hashing: Hashing<H>, xs: seq<H>, ys: seq<H>)
    requires IsInjective(hashing) && |xs| == |ys| > 0
    ensures Root(hashing, xs) == Root(hashing, ys) <==> xs == ys
  {
    if Root(hashing, xs) == Root(hashing, ys) {
      SameRootSameLeaves(hashing, xs, ys);
      hide Root, AboveBy;
    }
  }

  // ----- which lists of different lengths share a root -----

  /** 2^e leaves: where the right half of a subtree is missing, it repeats the left one. */
  function Completed<H>(e: nat, xs: seq<H>): (leaves: seq<H>)
    requires 0 < |xs| <= Power(e)
    ensures |leaves| == Power(e)
  {
    if e == 0 then xs
    else
      var half := Power(e - 1);
      if |xs| > half then Completed(e - 1, xs[..half]) + Completed(e - 1, xs[half..])
      else Completed(e - 1, xs) + Completed(e - 1, xs)
  }

  lemma AboveConcat<H>(hashing: Hashing<H>, xs: seq<H>, ys: seq<H>)
    requires |xs| % 2 == 0
    ensures Above(hashing, xs + ys) == Above(hashing, xs) + Above(hashing, ys)
  {
    var all, n := Above(hashing, xs + ys), |xs| / 2;
    assert |Above(hashing, xs)| == n && |all| == n + |Above(hashing, ys)|;
    hide Above;
    forall i | 0 <= i < |all|
      ensures all[i] == (Above(hashing, xs) + Above(hashing, ys))[i]
    {
      AboveAt(hashing, xs + ys, i);
      if i < n {
        AboveAt(hashing, xs, i);
      } else {
        AboveAt(hashing, ys, i - n);
      }
    }
  }

  lemma AboveLength<H>(hashing: Hashing<H>, xs: seq<H>)
    ensures |Above(hashing, xs)| == (|xs| + 1) / 2
  {}

  lemma AboveOfTwo<H>(hashing: Hashing<H>, xs: seq<H>)
    requires 1 <= |xs| <= 2
    ensures Power(0) == 1 && Power(1) == 2 && |Above(hashing, xs)| == 1
    ensures Above(hashing, Completed(1, xs)) == Above(hashing, xs) == Completed(0, Above(hashing, xs))
  {
    CompletedOfTwo(xs);
    AboveLength(hashing, xs);
    AboveAt(hashing, xs, 0);
    AboveAt(hashing, Completed(1, xs), 0);
    AboveLength(hashing, Completed(1, xs));
    hide Above, Power;
    assert Above(hashing, xs) == [PairAt(hashing, xs, 0)];
  }

  lemma CompletedOfTwo<H>(xs: seq<H>)
    requires 1 <= |xs| <= 2
    ensures Power(0) == 1 && Power(1) == 2
    ensures Completed(1, xs) == if |xs| == 2 then xs else xs + xs
  {
    assert Power(1) == 2 && Power(0) == 1;
    if |xs| == 2 {
      assert Completed(1, xs) == xs[..1] + xs[1..];
    }
  }

  /** The level above a list that fills its left half. */
  lemma AboveHalves<H>(hashing: Hashing<H>, xs: seq<H>, half: nat)
    requires half % 2 == 0 && half < |xs|
    ensures Above(hashing, xs) == Above(hashing, xs[..half]) + Above(hashing, xs[half..])
    ensures |Above(hashing, xs[..half])| == half / 2
    ensures Above(hashing, xs)[..half / 2] == Above(hashing, xs[..half])
    ensures Above(hashing, xs)[half / 2..] == Above(hashing, xs[half..])
  {
    AboveLength(hashing, xs[..half]);
    hide Above;
    Cut(xs, half);
    AboveConcat(hashing, xs[..half], xs[half..]);
    JoinFront(Above(hashing, xs[..half]), Above(hashing, xs[half..]));
  }

  ghost predicate Commutes<H>(hashing: Hashing<H>, e: nat, xs: seq<H>) {
    && e > 0 && 0 < |xs| <= Power(e) && |Above(hashing, xs)| <= Power(e - 1)
    && Above(hashing, Completed(e, xs)) == Completed(e - 1, Above(hashing, xs))
  }

  lemma MakeCommutes<H>(hashing: Hashing<H>, e: nat, xs: seq<H>)
    requires e > 0 && 0 < |xs| <= Power(e) && 0 < |Above(hashing, xs)| <= Power(e - 1)
    requires Above(hashing, Completed(e, xs)) == Completed(e - 1, Above(hashing, xs))
    ensures Commutes(hashing, e, xs)
  {
    hide Completed, Above, Power;
  }

  lemma TakeCommutes<H>(hashing: Hashing<H>, e: nat, xs: seq<H>)
    requires Commutes(hashing, e, xs)
    ensures e > 0 && 0 < |xs| <= Power(e) && 0 < |Above(hashing, xs)| <= Power(e - 1)
    ensures Above(hashing, Completed(e, xs)) == Completed(e - 1, Above(hashing, xs))
  {
    AboveLength(hashing, xs);
    hide Completed, Above, Power;
  }

  lemma CommutesLong<H>(hashing: Hashing<H>, e: nat, xs: seq<H>)
    requires e > 1 && Power(e - 1) < |xs| <= Power(e)
    requires Commutes(hashing, e - 1, xs[..Power(e - 1)]) && Commutes(hashing, e - 1, xs[Power(e - 1)..])
    ensures Commutes(hashing, e, xs)
  {
    hide *;
    var half, above := Power(e - 1), Above(hashing, xs);
    TakeCommutes(hashing, e - 1, xs[..half]);
    TakeCommutes(hashing, e - 1, xs[half..]);
    AboveLength(hashing, xs);
    CompletedIs(e, xs);
    PowerDouble(e - 1);
    AboveHalves(hashing, xs, half);
    AboveConcat(hashing, Completed(e - 1, xs[..half]), Completed(e - 1, xs[half..]));
    CompletedIs(e - 1, above);
    MakeCommutes(hashing, e, xs);
  }

  lemma CommutesShort<H>(hashing: Hashing<H>, e: nat, xs: seq<H>)
    requires e > 1 && 0 < |xs| <= Power(e - 1) && Commutes(hashing, e - 1, xs)
    ensures Commutes(hashing, e, xs)
  {
    hide *;
    var above, left := Above(hashing, xs), Completed(e - 1, xs);
    TakeCommutes(hashing, e - 1, xs);
    PowerDouble(e - 1);
    PowerGrows(e - 1);
    CompletedIs(e, xs);
    AboveConcat(hashing, left, left);
    CompletedIs(e - 1, above);
    MakeCommutes(hashing, e, xs);
  }

  lemma PowerGrows(e: nat)
    ensures Power(e + 1) == 2 * Power(e)
  {}

  /** Completing and going up one level commute. */
  lemma {:induction false} AboveCompleted<H>(hashing: Hashing<H>, e: nat, xs: seq<H>)
    requires e > 0 && 0 < |xs| <= Power(e)
    ensures Commutes(hashing, e, xs)
  {
    PowerDouble(e);
    AboveLength(hashing, xs);
    if e == 1 {
      AboveOfTwo(hashing, xs);
    } else {
      hide Commutes, Power, Above, Completed;
      if |xs| > Power(e - 1) {
        AboveCompleted(hashing, e - 1, xs[..Power(e - 1)]);
        AboveCompleted(hashing, e - 1, xs[Power(e - 1)..]);
        CommutesLong(hashing, e, xs);
      } else {
        AboveCompleted(hashing, e - 1, xs);
        CommutesShort(hashing, e, xs);
      }
    }
  }

  lemma CompletedIs<H>(e: nat, xs: seq<H>)
    requires e > 0 && 0 < |xs| <= Power(e)
    ensures Power(e) == 2 * Power(e - 1)
    ensures var half := Power(e - 1);
            Completed(e, xs) == if |xs| > half then Completed(e - 1, xs[..half]) + Completed(e - 1, xs[half..])
                                else Completed(e - 1, xs) + Completed(e - 1, xs)
  {}

  /** A list has the root of its completion, of the least size that holds it. */
  lemma {:induction false} CompletedRoot<H>(hashing: Hashing<H>, e: nat, xs: seq<H>)
    requires 0 < |xs| <= Power(e) < 2 * |xs|
    ensures Root(hashing, Completed(e, xs)) == Root(hashing, xs)
  {
    if e > 0 {
      PowerDouble(e);
      AboveLength(hashing, xs);
      hide Completed, Above, Power;
      AboveCompleted(hashing, e, xs);
      RootAbove(hashing, Completed(e, xs));
      RootAbove(hashing, xs);
      CompletedRoot(hashing, e - 1, Above(hashing, xs));
    }
  }

  /** The root of 2^e leaves as it is defined from above: the hash of the roots of the two
      halves, the left one first. */
  function Tree<H>(hashing: Hashing<H>, e: nat, xs: seq<H>): H
    requires |xs| == Power(e)
  {
    if e == 0 then xs[0]
    else hashing.combine(Tree(hashing, e - 1, xs[..Power(e - 1)]), Tree(hashing, e - 1, xs[Power(e - 1)..]))
  }

  lemma TreeOfTwo<H>(hashing: Hashing<H>, xs: seq<H>)
    requires |xs| == 2
    ensures Power(1) == 2 && Power(0) == 1 && |Above(hashing, xs)| == 1
    ensures Tree(hashing, 1, xs) == Tree(hashing, 0, Above(hashing, xs)) == hashing.combine(xs[0], xs[1])
  {
    assert Power(0) == 1;
    AboveAt(hashing, xs, 0);
  }

  lemma TreeSplit<H>(hashing: Hashing<H>, e: nat, xs: seq<H>)
    requires e > 0 && |xs| == Power(e)
    ensures Power(e) == 2 * Power(e - 1)
    ensures Tree(hashing, e, xs)
         == hashing.combine(Tree(hashing, e - 1, xs[..Power(e - 1)]), Tree(hashing, e - 1, xs[Power(e - 1)..]))
  {}

  lemma {:induction false} TreeAbove<H>(hashing: Hashing<H>, e: nat, xs: seq<H>)
    requires e > 0 && |xs| == Power(e)
    ensures |Above(hashing, xs)| == Power(e - 1)
    ensures Tree(hashing, e, xs) == Tree(hashing, e - 1, Above(hashing, xs))
  {
    PowerDouble(e);
    AboveLength(hashing, xs);
    if e == 1 {
      TreeOfTwo(hashing, xs);
    } else {
      hide Power, Above, Tree;
      var half := Power(e - 1);
      PowerDouble(e - 1);
      AboveHalves(hashing, xs, half);
      TreeAbove(hashing, e - 1, xs[..half]);
      TreeAbove(hashing, e - 1, xs[half..]);
      TreeSplit(hashing, e, xs);
      TreeSplit(hashing, e - 1, Above(hashing, xs));
    }
  }

  lemma {:induction false} RootIsTree<H>(hashing: Hashing<H>, e: nat, xs: seq<H>)
    requires |xs| == Power(e)
    ensures Root(hashing, xs) == Tree(hashing, e, xs)
  {
    if e > 0 {
      PowerDouble(e);
      TreeAbove(hashing, e, xs);
      hide Above, Power, Tree;
      RootAbove(hashing, xs);
      RootIsTree(hashing, e - 1, Above(hashing, xs));
    } else {
      assert Power(0) == 1;
    }
  }

  /** Built level by level or defined from above, the root of a list is the same. */
  lemma RootFromAbove<H>(hashing: Hashing<H>, e: nat, xs: seq<H>)
    requires 0 < |xs| <= Power(e) < 2 * |xs|
    ensures Root(hashing, xs) == Tree(hashing, e, Completed(e, xs))
  {
    hide *;
    CompletedRoot(hashing, e, xs);
    RootIsTree(hashing, e, Completed(e, xs));
  }

  /** With an injective hash of pairs, two lists that need trees of one height have one root
      exactly when their completions are equal. */
  lemma CompletionDecides<H(!new)>(hashing: Hashing<H>, e: nat, xs: seq<H>, ys: seq<H>)
    requires IsInjective(hashing)
    requires 0 < |xs| <= Power(e) < 2 * |xs| && 0 < |ys| <= Power(e) < 2 * |ys|
    ensures Root(hashing, xs) == Root(hashing, ys) <==> Completed(e, xs) == Completed(e, ys)
  {
    hide Root, Completed, Power, IsInjective;
    CompletedRoot(hashing, e, xs);
    CompletedRoot(hashing, e, ys);
    RootDecides(hashing, Completed(e, xs), Completed(e, ys));
  }

  lemma AboveRepeat<H>(hashing: Hashing<H>, xs: seq<H>)
    requires |xs| % 2 == 1
    ensures Above(hashing, xs + [xs[|xs| - 1]]) == Above(hashing, xs)
  {
    var ys := xs + [xs[|xs| - 1]];
    hide Above;
    forall i | 0 <= i < |Above(hashing, xs)|
      ensures Above(hashing, ys)[i] == Above(hashing, xs)[i]
    {
      AboveAt(hashing, xs, i);
      AboveAt(hashing, ys, i);
    }
  }

  /** Repeating the last leaf of an odd list of at least three does not change the root: the
      completion is the same. */
  lemma RepeatLastLeaf<H>(hashing: Hashing<H>, xs: seq<H>)
    requires |xs| % 2 == 1 && |xs| >= 3
    ensures Root(hashing, xs + [xs[|xs| - 1]]) == Root(hashing, xs)
  {
    hide *;
    AboveRepeat(hashing, xs);
    RootAbove(hashing, xs);
    RootAbove(hashing, xs + [xs[|xs| - 1]]);
  }

  // ----- the builder -----

  /** The loop that fills the array from the leaves up. */
  method FillTree<H>(hashing: Hashing<H>, merkles: array<Option<H>>, nextPoT: nat, ghost e: nat, ghost xs: seq<H>)
    requires nextPoT == Power(e) && merkles.Length == 2 * nextPoT - 1
    requires forall k :: 0 <= k < nextPoT ==> merkles[k] == Cell(xs, k)
    modifies merkles
    ensures merkles[..] == Store(hashing, e, xs)
  {
    hide Store, Cell, Power, Parent;
    ghost var s := Store(hashing, e, xs);
    forall k: nat | k < nextPoT
      ensures merkles[k] == s[k]
    {
      StoreLowest(hashing, e, xs, k);
    }
    var arraySize := merkles.Length;
    var offset := nextPoT;
    var i := 0;
    while i < arraySize - 1
      invariant 0 <= i <= arraySize - 1 && i + 2 * nextPoT == 2 * offset
      invariant forall k :: 0 <= k < offset ==> merkles[k] == s[k]
    {
      StoreParent(hashing, e, xs, offset - nextPoT);
      SetParent(hashing, merkles, i, offset);
      offset := offset + 1;
      i := i + 2;
    }
  }

  /** The three cases of the loop. */
  method SetParent<H>(hashing: Hashing<H>, merkles: array<Option<H>>, i: nat, offset: nat)
    requires i + 1 < offset < merkles.Length
    modifies merkles
    ensures forall k :: 0 <= k < merkles.Length && k != offset ==> merkles[k] == old(merkles[k])
    ensures merkles[offset] == Parent(hashing, old(merkles[i]), old(merkles[i + 1]))
  {
    if merkles[i].None? {
      merkles[offset] := None;
    } else if merkles[i + 1].None? {
      merkles[offset] := Some(hashing.Pair(merkles[i].value, merkles[i].value));
    } else {
      merkles[offset] := Some(hashing.Pair(merkles[i].value, merkles[i + 1].value));
    }
  }

  /** What the leaves of a tree are: in the witness tree the first counts as the zero hash. */
  function Leaves<T, H>(zero: H, full: T -> H, short: T -> H, txs: seq<T>, forWitness: bool): (leaves: seq<H>)
    ensures |leaves| == |txs|
    ensures forall i :: 0 <= i < |txs| ==>
              leaves[i] == if !forWitness then short(txs[i]) else if i == 0 then zero else full(txs[i])
  {
    seq(|txs|, i requires 0 <= i < |txs| =>
      if forWitness && i == 0 then zero else if forWitness then full(txs[i]) else short(txs[i]))
  }

  /** BuildMerkleTreeStoreWithness: the whole array, whose last cell is the root. */
  method BuildMerkleTreeStoreWithness<T, H>(hashing: Hashing<H>, zero: H, full: T -> H, short: T -> H,
                                            transactions: seq<T>, forWitness: bool)
    returns (merkles: array<Option<H>>)
    ensures |transactions| == 0 ==> merkles[..] == [Some(zero)]
    ensures |transactions| > 0 ==>
              var leaves := Leaves(zero, full, short, transactions, forWitness);
              && merkles[..] == Store(hashing, FloorLog2(NextPowerOfTwo(|transactions|)), leaves)
              && merkles.Length > 0
              && merkles[merkles.Length - 1] == Some(Root(hashing, leaves))
  {
    hide Store, Root, Power, FloorLog2;
    if |transactions| == 0 {
      merkles := new Option<H>[1](_ => Some(zero));
      return;
    }
    var nextPoT := NextPowerOfTwo(|transactions|);
    var arraySize := nextPoT * 2 - 1;
    merkles := new Option<H>[arraySize](_ => None);
    ghost var leaves := Leaves(zero, full, short, transactions, forWitness);
    for i := 0 to |transactions|
      invariant forall k :: 0 <= k < i ==> merkles[k] == Some(leaves[k])
      invariant forall k :: i <= k < arraySize ==> merkles[k] == None
    {
      if forWitness && i == 0 {
        merkles[i] := Some(zero);
      } else if forWitness {
        merkles[i] := Some(full(transactions[i]));
      } else {
        merkles[i] := Some(short(transactions[i]));
      }
    }
    ghost var e := FloorLog2(nextPoT);
    PowerOfTwoIsPower(nextPoT);
    FillTree(hashing, merkles, nextPoT, e, leaves);
    StoreRoot(hashing, e, leaves);
  }

  /** The witness tree does not look at the first transaction. */
  lemma WitnessIgnoresFirst<T, H>(zero: H, full: T -> H, short: T -> H, txs: seq<T>, tx: T)
    requires |txs| > 0
    ensures Leaves(zero, full, short, txs[0 := tx], true) == Leaves(zero, full, short, txs, true)
  {}
}
