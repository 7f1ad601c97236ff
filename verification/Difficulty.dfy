/** Estimates of the work behind a target, read off its leading hexadecimal digits. */
module Difficulty {
  import opened Options
  import opened Seqs
  import opened SubmitString

  /** 16 to the n. */
  function Power(n: nat): (p: nat)
    ensures p > 0
  {
    if n == 0 then 1 else 16 * Power(n - 1)
  }

  lemma {:induction false} PowerSum(m: nat, n: nat)
    ensures Power(m + n) == Power(m) * Power(n)
  {
    if m > 0 {
      PowerSum(m - 1, n);
    }
  }

  // ----- hexadecimal text -----

  /** A digit as it is parsed here: what is not a digit counts as zero. */
  function DigitOf(c: char): (d: nat)
    ensures d < 16
  {
    DigitValue(c);
    if Value(c).Some? then Value(c).value else 0
  }

  function ValueOf(s: string): nat {
    if |s| == 0 then 0 else 16 * ValueOf(s[..|s| - 1]) + DigitOf(s[|s| - 1])
  }

  /** The last n hexadecimal digits of t. */
  function HexText(t: nat, n: nat): (s: string)
    ensures |s| == n
  {
    if n == 0 then "" else HexText(t / 16, n - 1) + [Digit(t % 16)]
  }

  function HexLength(t: nat): (n: nat)
    ensures n > 0
  {
    if t < 16 then 1 else 1 + HexLength(t / 16)
  }

  /** The format "%064x". */
  function Padded(t: nat): (s: string)
    ensures |s| >= 64
  {
    HexText(t, if HexLength(t) > 64 then HexLength(t) else 64)
  }

  ghost predicate AllLower(s: string) {
    forall i :: 0 <= i < |s| ==> IsLower(s[i])
  }

  lemma {:induction false} HexTextValue(t: nat, n: nat)
    requires t < Power(n)
    ensures ValueOf(HexText(t, n)) == t && AllLower(HexText(t, n))
  {
    if n > 0 {
      HexTextValue(t / 16, n - 1);
      ValueDigit(t % 16);
      assert HexText(t, n)[..n - 1] == HexText(t / 16, n - 1);
    }
  }

  lemma {:induction false} HexLengthFits(t: nat, n: nat)
    requires n > 0 && t < Power(n)
    ensures HexLength(t) <= n
  {
    if n > 1 && t >= 16 {
      HexLengthFits(t / 16, n - 1);
    }
  }

  lemma PaddedValue(t: nat)
    requires t < Power(64)
    ensures |Padded(t)| == 64 && ValueOf(Padded(t)) == t && AllLower(Padded(t))
  {
    HexLengthFits(t, 64);
    HexTextValue(t, 64);
  }

  lemma ValueNext(s: string, i: nat)
    requires i < |s|
    ensures ValueOf(s[..i + 1]) == 16 * ValueOf(s[..i]) + DigitOf(s[i])
  {
    assert s[..i + 1][..i] == s[..i];
  }

  /** The first k digits locate the value. */
  lemma {:induction false} FrontLocates(s: string, k: nat, v: nat)
    requires k <= |s| && v == ValueOf(s[..k])
    ensures v * Power(|s| - k) <= ValueOf(s) < (v + 1) * Power(|s| - k)
    decreases |s| - k
  {
    if k == |s| {
      WholePrefix(s);
    } else {
      ValueNext(s, k);
      var d := DigitOf(s[k]);
      FrontLocates(s, k + 1, 16 * v + d);
      PowerStep(|s| - k - 1);
      Scale(v, d, Power(|s| - k - 1));
    }
  }

  lemma PowerStep(n: nat)
    ensures Power(0) == 1 && Power(n + 1) == 16 * Power(n)
  {}

  lemma Scale(v: nat, d: nat, p: nat)
    requires d < 16
    ensures v * (16 * p) <= (16 * v + d) * p
    ensures (16 * v + d + 1) * p <= (v + 1) * (16 * p)
  {
    assert (16 * v + d) * p == v * (16 * p) + d * p;
    assert (16 * v + d + 1) * p == v * (16 * p) + (d + 1) * p;
    assert (d + 1) * p <= 16 * p;
  }

  // ----- the number of hashes for a target in hexadecimal -----

  lemma LeadingDigit(s: string, i: nat)
    requires i < |s| && ValueOf(s[..i]) == 0
    ensures DigitOf(s[i]) * Power(|s| - 1 - i) <= ValueOf(s) < (DigitOf(s[i]) + 1) * Power(|s| - 1 - i)
  {
    hide *;
    ValueNext(s, i);
    FrontLocates(s, i + 1, DigitOf(s[i]));
  }

  lemma FactorRange(f: nat, n: nat)
    requires 1 <= n < 16 && f == 16 / n
    ensures 9 <= f * n && f * (n + 1) <= 32
  {
    if n == 1 || n == 2 || n == 3 || n == 4 || n == 5 || n == 6 || n == 7 {
    } else {
      assert 16 / n == if n <= 8 then 2 else 1;
    }
  }

  lemma Multiply(x: int, y: int, q: nat)
    ensures x <= y ==> x * q <= y * q
    ensures x < y && q > 0 ==> x * q < y * q
  {}

  lemma MultiplyLeft(q: nat, x: int, y: int)
    ensures x <= y ==> q * x <= q * y
    ensures x < y && q > 0 ==> q * x < q * y
  {}

  lemma Regrouped(x: int, y: int, z: int)
    ensures x * (y * z) == (x * y) * z
  {}

  lemma FactorBounds(f: nat, n: nat, q: nat, t: nat)
    requires 1 <= n < 16 && f == 16 / n && q > 0 && n * q <= t < (n + 1) * q
    ensures 9 * q <= f * t < 32 * q
  {
    FactorRange(f, n);
    var low, high := n * q, (n + 1) * q;
    assert low <= t < high;
    MultiplyLeft(f, low, t);
    MultiplyLeft(f, t, high);
    Regrouped(f, n, q);
    Regrouped(f, n + 1, q);
    Multiply(9, f * n, q);
    Multiply(f * (n + 1), 32, q);
  }

  /** With factor f for the digit n behind i zeros, the product stays within a factor of two. */
  lemma TimesBounds(times: nat, f: nat, n: nat, p: nat, q: nat, t: nat)
    requires 1 <= n < 16 && f == 16 / n && p > 0 && q > 0 && n * q <= t < (n + 1) * q && times == p * f
    ensures times * t < 2 * (p * (16 * q)) < 4 * (times * t)
  {
    FactorBounds(f, n, q, t);
    Regrouped(p, f, t);
    var u := f * t;
    Multiply(9 * q, u, p);
    Multiply(u, 32 * q, p);
    Products(p, q);
    Multiply(0, q, p);
  }

  lemma Products(p: nat, q: nat)
    ensures p * (16 * q) == 16 * (p * q) && p * (9 * q) == 9 * (p * q) && p * (32 * q) == 32 * (p * q)
  {}

  ghost predicate IsHex(s: string) {
    forall i :: 0 <= i < |s| ==> Value(s[i]).Some?
  }

  /** GetNeedHashTimesByTarget on any hexadecimal text of L digits with the value t: the
      result times t is below twice 16^L always, and above half of it exactly when t > 8; the
      last digit is never looked at. */
  method GetNeedHashTimesByTarget(target: string) returns (times: nat)
    ensures IsHex(target) ==> times * ValueOf(target) < 2 * Power(|target|)
    ensures IsHex(target) ==> (Power(|target|) < 2 * (times * ValueOf(target)) <==> ValueOf(target) > 8)
  {
    var last: int := |target| - 1;
    times := 1;
    var i := 0;
    while i < last
      invariant 0 <= i && (i <= last || i == 0)
      invariant times == Power(i) && ValueOf(target[..i]) == 0
    {
      var tmp := target[i];
      if tmp == '0' {
        ValueNext(target, i);
        times := times * 16;
      } else {
        var n := DigitOf(tmp);
        if n <= 1 {
          n := 1;
        }
        times := times * (16 / n);
        if IsHex(target) {
          assert DigitOf(tmp) == n;
          NonzeroBounds(target, i, n, times);
        }
        return;
      }
      i := i + 1;
    }
    LastDigitOnly(target, times);
  }

  lemma PowerSplit(i: nat, k: nat)
    ensures Power(i + 1 + k) == Power(i) * (16 * Power(k))
  {
    PowerSum(i, k + 1);
  }

  lemma NonzeroBounds(s: string, i: nat, n: nat, times: nat)
    requires i < |s| - 1 && ValueOf(s[..i]) == 0 && n == DigitOf(s[i]) >= 1 && times == Power(i) * (16 / n)
    ensures times * ValueOf(s) < 2 * Power(|s|) < 4 * (times * ValueOf(s))
    ensures ValueOf(s) > 8
  {
    hide *;
    var k := |s| - 1 - i;
    LeadingDigit(s, i);
    PowerSplit(i, k);
    PowerStep(k - 1);
    Multiply(1, n, Power(k));
    TimesBounds(times, 16 / n, n, Power(i), Power(k), ValueOf(s));
  }

  lemma SmallTimes(d: nat, times: nat)
    requires d < 16 && times > 0
    ensures times * d < 2 * (16 * times)
    ensures 16 * times < 2 * (times * d) <==> d > 8
  {
    Multiply(d, 15, times);
    Multiply(9, d, times);
    Multiply(d, 8, times);
  }

  lemma LastDigitOnly(s: string, times: nat)
    requires times == Power(if |s| == 0 then 0 else |s| - 1)
    requires |s| > 0 ==> ValueOf(s[..|s| - 1]) == 0
    ensures times * ValueOf(s) < 2 * Power(|s|)
    ensures Power(|s|) < 2 * (times * ValueOf(s)) <==> ValueOf(s) > 8
  {
    if |s| > 0 {
      var d := ValueOf(s);
      assert d < 16;
      PowerStep(|s| - 1);
      hide *;
      SmallTimes(d, times);
    }
  }

  // ----- the difficulty -----

  lemma MultiplyReal(x: real, y: real, d: real)
    requires d > 0.0
    ensures x < y ==> d * x < d * y
    ensures x <= y ==> d * x <= d * y
  {}

  lemma PositiveFactor(d: real, x: real)
    requires x > 0.0 && d * x > 0.0
    ensures d > 0.0
  {}

  lemma DiffProduct(d: real, a: nat, p: nat, q: nat)
    requires d * a as real == p as real
    ensures d * (a * q) as real == (p * q) as real
  {
    assert (a * q) as real == a as real * q as real;
    assert (p * q) as real == p as real * q as real;
    assert d * (a as real * q as real) == d * a as real * q as real;
  }

  lemma Between(diff: real, t: nat, u: nat, w: nat)
    requires diff > 0.0 && diff * u as real == w as real && t < u <= 2 * t
    ensures diff * t as real < w as real <= diff * (2 * t) as real
  {
    MultiplyReal(t as real, u as real, diff);
    MultiplyReal(u as real, (2 * t) as real, diff);
  }

  lemma DiffBounds(diff: real, a: nat, p: nat, q: nat, t: nat, w: nat)
    requires 1 <= a < 16 && p > 0 && q > 0 && w == p * q && diff * (a + 1) as real == p as real
    requires a * q <= t < (a + 1) * q
    ensures t > 0 && Within(diff, t, w)
  {
    PositiveFactor(diff, (a + 1) as real);
    DiffProduct(diff, a + 1, p, q);
    var u := (a + 1) * q;
    Multiply(a + 1, 2 * a, q);
    Regrouped(2, a, q);
    Between(diff, t, u, w);
  }

  lemma LowerDigit(c: char)
    requires IsLower(c)
    ensures DigitOf(c) == 0 <==> c == '0'
    ensures c == 'f' ==> DigitOf(c) == 15
    ensures c != 'F'
  {}

  /** diff < whole / t <= 2 diff, or all of it where there is no t. */
  ghost predicate Within(diff: real, t: nat, whole: nat) {
    && (t > 0 ==> diff * t as real < whole as real <= diff * (2 * t) as real)
    && (t == 0 ==> diff == whole as real)
  }

  /** The first digit that is not zero ends the loop. */
  lemma FirstNonzero(s: string, i: nat, a: nat, t: nat, diff: real)
    requires AllLower(s) && i < |s| && ValueOf(s[..i]) == 0 && s[i] != '0'
    requires a == DigitOf(s[i]) && t == ValueOf(s) && diff * (a + 1) as real == Power(i + 1) as real
    ensures t > 0 && Within(diff, t, Power(|s|))
  {
    assert IsLower(s[i]);
    hide *;
    LowerDigit(s[i]);
    var p, q, whole := Power(i + 1), Power(|s| - 1 - i), Power(|s|);
    assert a * q <= t < (a + 1) * q by {
      LeadingDigit(s, i);
    }
    Multiply(1, a, q);
    assert whole == p * q by {
      PowerSum(i + 1, |s| - 1 - i);
    }
    DiffBounds(diff, a, p, q, t, whole);
  }

  /** One turn of the loop. */
  function Shrunk(diff: real, a: nat): real {
    diff * (16.0 / (a + 1) as real)
  }

  lemma DigitShare(diff: real, a: nat, p: nat)
    requires diff == p as real
    ensures Shrunk(diff, a) * (a + 1) as real == (16 * p) as real
  {
    var d := (a + 1) as real;
    assert 16.0 / d * d == 16.0;
    assert diff * (16.0 / d) * d == diff * (16.0 / d * d);
  }

  /** Before any digit but zeros the loop has multiplied by 16 each time. */
  lemma ZerosStep(s: string, i: nat, diff: real)
    requires i < |s| && diff == Power(i) as real
    ensures s[i] == '0' ==> Shrunk(diff, DigitOf(s[i])) == Power(i + 1) as real
    ensures Shrunk(diff, DigitOf(s[i])) * (DigitOf(s[i]) + 1) as real == Power(i + 1) as real
    ensures s[i] == 'f' ==> diff * (DigitOf(s[i]) + 1) as real == Power(i + 1) as real
  {
    PowerStep(i);
    DigitShare(diff, DigitOf(s[i]), Power(i));
    if s[i] == '0' {
      assert DigitOf('0') == 0;
    }
    if s[i] == 'f' {
      assert DigitOf('f') == 15;
    }
  }

  /** What the loop of GetDiff makes of the digits from place i on. */
  function DiffFrom(s: string, i: nat, diff: real): real
    requires |s| >= 64
    decreases 64 - i
  {
    if i >= 64 || s[i] == 'f' || s[i] == 'F' then diff
    else if s[i] != '0' then Shrunk(diff, DigitOf(s[i]))
    else DiffFrom(s, i + 1, Shrunk(diff, DigitOf(s[i])))
  }

  /** The difficulty of a target, in exact arithmetic. */
  function Diff(target: nat): real {
    DiffFrom(Padded(target), 0, 1.0)
  }

  /** What the difficulty is measured against: 2^256. */
  function Whole(): nat {
    Power(64)
  }

  /** One turn of the loop behind zeros: it ends well, or goes on behind one zero more. */
  lemma TurnWithin(s: string, i: nat, diff: real)
    requires AllLower(s) && |s| == 64 && i < 64 && diff == Power(i) as real && ValueOf(s[..i]) == 0
    ensures s[i] != 'F'
    ensures s[i] == 'f' ==> Within(diff, ValueOf(s), Power(64))
    ensures s[i] != '0' ==> Within(Shrunk(diff, DigitOf(s[i])), ValueOf(s), Power(64))
    ensures s[i] == '0' ==> Shrunk(diff, DigitOf(s[i])) == Power(i + 1) as real && ValueOf(s[..i + 1]) == 0
  {
    hide *;
    ZerosStep(s, i, diff);
    NeverCapital(s, i);
    if s[i] == 'f' {
      FirstNonzero(s, i, DigitOf(s[i]), ValueOf(s), diff);
    }
    if s[i] != '0' {
      FirstNonzero(s, i, DigitOf(s[i]), ValueOf(s), Shrunk(diff, DigitOf(s[i])));
    } else {
      ZeroDigit(s, i);
    }
  }

  lemma NothingWithin(whole: nat)
    ensures Within(whole as real, 0, whole)
  {}

  /** Where zeros have been read so far, the rest of the loop comes within a factor of two. */
  lemma {:induction false} LoopWithin(s: string, i: nat, diff: real)
    requires AllLower(s) && |s| == 64 && i <= 64 && diff == Power(i) as real && ValueOf(s[..i]) == 0
    ensures Within(DiffFrom(s, i, diff), ValueOf(s), Power(64))
    decreases 64 - i
  {
    hide Power, ValueOf, Shrunk, AllLower, DigitOf, Within;
    if i == 64 {
      WholePrefix(s);
      NothingWithin(Power(64));
    } else {
      TurnWithin(s, i, diff);
      if s[i] == '0' {
        LoopWithin(s, i + 1, Shrunk(diff, DigitOf(s[i])));
      }
    }
  }

  /** GetDiff over the reals comes within a factor of two for targets of at most 64 digits. */
  lemma DiffWithin(target: nat)
    requires target < Whole()
    ensures Within(Diff(target), target, Whole())
  {
    PaddedValue(target);
    PowerStep(0);
    EmptyValue(Padded(target));
    hide Power, Padded, DiffFrom, Within, ValueOf, AllLower;
    LoopWithin(Padded(target), 0, 1.0);
  }

  /** GetDiff. */
  method GetDiff(target: nat) returns (diff: real)
    ensures diff == Diff(target) && (target < Whole() ==> Within(diff, target, Whole()))
  {
    hide Shrunk, DigitOf, Padded, Power, Within, Whole;
    if target < Whole() {
      DiffWithin(target);
    }
    var s := Padded(target);
    diff := 1.0;
    for i := 0 to 64
      invariant Diff(target) == DiffFrom(s, i, diff)
    {
      if s[i] == 'f' || s[i] == 'F' {
        return;
      }
      var a := DigitOf(s[i]);
      diff := Shrunk(diff, a);
      if s[i] != '0' {
        return;
      }
    }
  }

  lemma EmptyValue(s: string)
    ensures ValueOf(s[..0]) == 0
  {}

  lemma NeverCapital(s: string, i: nat)
    requires AllLower(s) && i < |s|
    ensures s[i] != 'F'
  {}

  lemma ZeroDigit(s: string, i: nat)
    requires i < |s| && s[i] == '0'
    ensures ValueOf(s[..i]) == 0 ==> ValueOf(s[..i + 1]) == 0
  {
    ValueNext(s, i);
  }
}
