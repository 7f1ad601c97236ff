/** The text a miner submits for a found block. The processor miner writes it in one go; the
    chip miner prepares it without the nonce and patches the nonce in later. */
module SubmitString {
  import opened Options
  import opened Seqs

  newtype Octet = x: int | 0 <= x < 256

  const HEADER: nat := 117
  const NONCE_START: nat := 109

  // ----- hexadecimal -----

  function Digit(n: nat): (c: char)
    requires n < 16
  {
    if n < 10 then '0' + n as char else 'a' + (n - 10) as char
  }

  /** Either case is read; only lower case is written. */
  function Value(c: char): Option<nat> {
    if '0' <= c <= '9' then Some((c - '0') as nat)
    else if 'a' <= c <= 'f' then Some((c - 'a') as nat + 10)
    else if 'A' <= c <= 'F' then Some((c - 'A') as nat + 10)
    else None
  }

  predicate IsLower(c: char) {
    '0' <= c <= '9' || 'a' <= c <= 'f'
  }

  lemma ValueDigit(n: nat)
    requires n < 16
    ensures Value(Digit(n)) == Some(n) && IsLower(Digit(n))
  {}

  lemma DigitValue(c: char)
    ensures Value(c).Some? ==> Value(c).value < 16
    ensures Value(c).Some? ==> (Digit(Value(c).value) == c <==> IsLower(c))
    ensures IsLower(c) ==> Value(c).Some?
    ensures Value(c).Some? ==> c != '-'
  {}

  function EncodeHex(b: seq<Octet>): (s: string)
    ensures |s| == 2 * |b|
  {
    if |b| == 0 then [] else [Digit(b[0] as nat / 16), Digit(b[0] as nat % 16)] + EncodeHex(b[1..])
  }

  /** hex.DecodeString: none for an odd length or a foreign character. */
  function DecodeHex(s: string): (b: Option<seq<Octet>>)
    ensures b.Some? ==> |s| == 2 * |b.value|
  {
    if |s| == 0 then
      Some([])
    else if |s| == 1 || Value(s[0]).None? || Value(s[1]).None? then
      None
    else
      DigitValue(s[0]);
      DigitValue(s[1]);
      var rest := DecodeHex(s[2..]);
      if rest.None? then None
      else Some([(16 * Value(s[0]).value + Value(s[1]).value) as Octet] + rest.value)
  }

  /** What EncodeHex can write: an even number of lower-case digits. */
  predicate LowerHex(s: string) {
    |s| % 2 == 0 && forall i :: 0 <= i < |s| ==> IsLower(s[i])
  }

  lemma {:induction false} DecodeEncode(b: seq<Octet>)
    ensures DecodeHex(EncodeHex(b)) == Some(b) && LowerHex(EncodeHex(b))
  {
    if |b| > 0 {
      var hi, lo := b[0] as nat / 16, b[0] as nat % 16;
      ValueDigit(hi);
      ValueDigit(lo);
      DecodeEncode(b[1..]);
      assert EncodeHex(b)[2..] == EncodeHex(b[1..]);
      assert (16 * hi + lo) as Octet == b[0];
      Cut(b, 1);
      assert b[..1] == [b[0]];
    }
  }

  lemma LowerHexNext(s: string)
    requires |s| >= 2
    ensures LowerHex(s) <==> IsLower(s[0]) && IsLower(s[1]) && LowerHex(s[2..])
  {}

  lemma EncodeNext(x: Octet, b: seq<Octet>)
    ensures EncodeHex([x] + b) == [Digit(x as nat / 16), Digit(x as nat % 16)] + EncodeHex(b)
  {
    JoinTail([x], b);
  }

  lemma SameDigits(s: string, c: char, d: char, rest: string)
    requires |s| >= 2
    ensures [c, d] + rest == s <==> c == s[0] && d == s[1] && rest == s[2..]
  {
    assert |rest| == |s| - 2 ==> ([c, d] + rest)[2..] == rest;
  }

  /** The two digits in front of s, when they are digits, and what is written for them. */
  lemma FrontDigits(s: string, d: Option<seq<Octet>>)
    requires |s| >= 2 && Value(s[0]).Some? && Value(s[1]).Some?
    requires d == DecodeHex(s[2..]) && d.Some?
    ensures DecodeHex(s).Some?
    ensures EncodeHex(DecodeHex(s).value) == s
            <==> IsLower(s[0]) && IsLower(s[1]) && EncodeHex(d.value) == s[2..]
  {
    DigitValue(s[0]);
    DigitValue(s[1]);
    var hi, lo := Value(s[0]).value, Value(s[1]).value;
    var x := (16 * hi + lo) as Octet;
    assert x as nat / 16 == hi && x as nat % 16 == lo;
    assert DecodeHex(s) == Some([x] + d.value);
    hide EncodeHex, DecodeHex, Value, Digit, IsLower;
    EncodeNext(x, d.value);
    SameDigits(s, Digit(hi), Digit(lo), EncodeHex(d.value));
  }

  lemma NoFrontDigits(s: string)
    requires |s| >= 2 && (Value(s[0]).None? || Value(s[1]).None? || DecodeHex(s[2..]).None?)
    ensures DecodeHex(s).None?
  {}

  lemma LowerIsDigit(c: char)
    ensures IsLower(c) ==> Value(c).Some?
  {}

  lemma DecodeShort(s: string)
    requires |s| < 2
    ensures LowerHex(s) <==> DecodeHex(s).Some? && EncodeHex(DecodeHex(s).value) == s
  {}

  /** Reading a string and writing it again gives it back exactly when it was lower case. */
  lemma {:induction false} EncodeDecode(s: string)
    ensures LowerHex(s) <==> DecodeHex(s).Some? && EncodeHex(DecodeHex(s).value) == s
  {
    hide *;
    if |s| < 2 {
      DecodeShort(s);
    } else {
      EncodeDecode(s[2..]);
      LowerHexNext(s);
      LowerIsDigit(s[0]);
      LowerIsDigit(s[1]);
      if Value(s[0]).Some? && Value(s[1]).Some? && DecodeHex(s[2..]).Some? {
        FrontDigits(s, DecodeHex(s[2..]));
      } else {
        NoFrontDigits(s);
      }
    }
  }

  lemma {:induction false} EncodeConcat(a: seq<Octet>, b: seq<Octet>)
    ensures EncodeHex(a + b) == EncodeHex(a) + EncodeHex(b)
  {
    if |a| == 0 {
      EmptyFront(b);
    } else {
      JoinTail(a, b);
      EncodeConcat(a[1..], b);
    }
  }

  const DIGITS := "0123456789abcdef"

  /** Two digits for each byte, the higher one first. */
  lemma {:induction false} EncodeHexAt(b: seq<Octet>, i: nat)
    requires i < |b|
    ensures EncodeHex(b)[2 * i] == DIGITS[b[i] as nat / 16] && EncodeHex(b)[2 * i + 1] == DIGITS[b[i] as nat % 16]
  {
    DigitIs(b[0] as nat / 16);
    DigitIs(b[0] as nat % 16);
    if i > 0 {
      EncodeHexAt(b[1..], i - 1);
      assert EncodeHex(b)[2..] == EncodeHex(b[1..]);
      assert EncodeHex(b)[2 * i] == EncodeHex(b)[2..][2 * (i - 1)];
      assert EncodeHex(b)[2 * i + 1] == EncodeHex(b)[2..][2 * (i - 1) + 1];
    }
  }

  lemma DigitIs(n: nat)
    requires n < 16
    ensures Digit(n) == DIGITS[n]
  {}

  // ----- counts -----

  /** n bytes of x, lowest first, the higher ones cut off. */
  function LittleEndian(x: nat, n: nat): (b: seq<Octet>)
    ensures |b| == n
  {
    if n == 0 then [] else [(x % 256) as Octet] + LittleEndian(x / 256, n - 1)
  }

  function FromLittleEndian(b: seq<Octet>): nat {
    if |b| == 0 then 0 else b[0] as nat + 256 * FromLittleEndian(b[1..])
  }

  /** Int2lehex, for the widths that have a case and any other, which leaves zero bytes. */
  function Int2lehex(x: nat, width: nat): string {
    if x == 0 then "0000000000000000"
    else if width == 2 || width == 4 || width == 8 then EncodeHex(LittleEndian(x, width))
    else EncodeHex(LittleEndian(0, width))
  }

  /** Int2varinthex, for a count: an int64 that is not negative. */
  function Int2varinthex(x: nat): string {
    if x < 0xFD then EncodeHex([x as Octet])
    else if x < 0xFFFF then "fd" + Int2lehex(x, 2)
    else if x < 0xFFFF_FFFF then "fe" + Int2lehex(x, 4)
    else "ff" + Int2lehex(x, 8)
  }

  /** Reads a count off the front of a text. */
  function ReadCount(s: string): Option<(nat, string)> {
    if |s| < 2 || DecodeHex(s[..2]).None? then
      None
    else
      var mark := DecodeHex(s[..2]).value[0] as nat;
      var width := if mark < 0xFD then 0 else if mark == 0xFD then 2 else if mark == 0xFE then 4 else 8;
      if width == 0 then
        Some((mark, s[2..]))
      else if |s| < 2 + 2 * width || DecodeHex(s[2..2 + 2 * width]).None? then
        None
      else
        Some((FromLittleEndian(DecodeHex(s[2..2 + 2 * width]).value), s[2 + 2 * width..]))
  }

  function Power256(n: nat): (p: nat)
    ensures p > 0
  {
    if n == 0 then 1 else 256 * Power256(n - 1)
  }

  lemma {:induction false} LittleEndianBack(x: nat, n: nat)
    requires x < Power256(n)
    ensures FromLittleEndian(LittleEndian(x, n)) == x
  {
    if n > 0 {
      LittleEndianBack(x / 256, n - 1);
    }
  }

  /** Byte i is the i-th digit of x to the base 256. */
  lemma {:induction false} LittleEndianAt(x: nat, n: nat, i: nat)
    requires i < n
    ensures LittleEndian(x, n)[i] as nat == x / Power256(i) % 256
  {
    if i > 0 {
      LittleEndianAt(x / 256, n - 1, i - 1);
      Quotients(x, 256, Power256(i - 1));
    }
  }

  lemma Quotients(x: nat, a: nat, b: nat)
    requires a > 0 && b > 0
    ensures a * b > 0 && x / a / b == x / (a * b)
  {
    var q := x / a;
    var p := q / b;
    assert x == a * q + x % a && q == b * p + q % b;
    assert a * q == a * (b * p) + a * (q % b);
    assert a * (b * p) == (a * b) * p;
    assert a * (q % b) + x % a < a * b by {
      assert a * (q % b + 1) <= a * b by { Times(a, q % b + 1, b); }
    }
    QuotientIs(x, a * b, p, a * (q % b) + x % a);
  }

  lemma Times(a: nat, b: nat, c: nat)
    requires b <= c
    ensures a * b <= a * c
  {}

  lemma QuotientIs(x: nat, d: nat, q: nat, r: nat)
    requires d > 0 && x == d * q + r && r < d
    ensures x / d == q
  {
    var k := x / d;
    assert x == d * k + x % d;
    if k < q {
      Times(d, k + 1, q);
    } else if q < k {
      Times(d, q + 1, k);
    }
  }

  /** A count takes no more bytes than it has to, as its bounds go. */
  lemma CountLength(x: nat)
    requires x < 0x8000_0000_0000_0000
    ensures |Int2varinthex(x)| == if x < 0xFD then 2 else if x < 0xFFFF then 6 else if x < 0xFFFF_FFFF then 10 else 18
  {}

  lemma ReadMark(mark: Octet, s: string)
    ensures var t := EncodeHex([mark]) + s;
            t[..2] == EncodeHex([mark]) && t[2..] == s && DecodeHex(t[..2]) == Some([mark])
  {
    DecodeEncode([mark]);
    JoinFront(EncodeHex([mark]), s);
  }

  lemma ReadWide(mark: Octet, width: nat, x: nat, rest: string)
    requires 0 < x < Power256(width)
    requires (mark == 0xFD && width == 2) || (mark == 0xFE && width == 4) || (mark == 0xFF && width == 8)
    ensures ReadCount(EncodeHex([mark]) + EncodeHex(LittleEndian(x, width)) + rest) == Some((x, rest))
  {
    var le := LittleEndian(x, width);
    var s := EncodeHex([mark]) + EncodeHex(le) + rest;
    Regroup(EncodeHex([mark]), EncodeHex(le), rest);
    ReadMark(mark, EncodeHex(le) + rest);
    DecodeEncode(le);
    LittleEndianBack(x, width);
    assert s[2..2 + 2 * width] == EncodeHex(le);
    assert s[2 + 2 * width..] == rest;
    hide EncodeHex, DecodeHex, LittleEndian, FromLittleEndian;
  }

  /** A count is read back from whatever text it stands in front of, so no count is the
      beginning of another. */
  lemma CountRoundTrip(x: nat, rest: string)
    requires x < 0x8000_0000_0000_0000
    ensures ReadCount(Int2varinthex(x) + rest) == Some((x, rest))
  {
    assert EncodeHex([0xFD]) == "fd" && EncodeHex([0xFE]) == "fe" && EncodeHex([0xFF]) == "ff";
    assert Power256(2) == 0x1_0000 && Power256(4) == 0x1_0000_0000 && Power256(8) == 0x1_0000_0000_0000_0000;
    if x < 0xFD {
      ReadMark(x as Octet, rest);
    } else if x < 0xFFFF {
      ReadWide(0xFD, 2, x, rest);
    } else if x < 0xFFFF_FFFF {
      ReadWide(0xFE, 4, x, rest);
    } else {
      ReadWide(0xFF, 8, x, rest);
    }
  }

  // ----- splitting at dashes -----

  function BeforeDash(s: string): (t: string)
    ensures |t| <= |s| && t == s[..|t|] && (forall i :: 0 <= i < |t| ==> t[i] != '-')
    ensures |t| < |s| ==> s[|t|] == '-'
  {
    if |s| == 0 || s[0] == '-' then [] else [s[0]] + BeforeDash(s[1..])
  }

  function Split(s: string): (parts: seq<string>)
    ensures |parts| > 0 && parts[0] == BeforeDash(s)
    decreases |s|
  {
    var t := BeforeDash(s);
    if |t| == |s| then [t] else [t] + Split(s[|t| + 1..])
  }

  function Join(parts: seq<string>): string
    requires |parts| > 0
  {
    if |parts| == 1 then parts[0] else parts[0] + "-" + Join(parts[1..])
  }

  lemma SplitNext(s: string)
    ensures var t := BeforeDash(s);
            Split(s) == if |t| == |s| then [t] else [t] + Split(s[|t| + 1..])
    ensures BeforeDash(s) + s[|BeforeDash(s)|..] == s
  {}

  lemma JoinMore(first: string, rest: seq<string>)
    requires |rest| > 0
    ensures Join([first] + rest) == first + "-" + Join(rest)
  {}

  lemma {:induction false} JoinIsInverse(s: string)
    ensures Join(Split(s)) == s
    decreases |s|
  {
    SplitNext(s);
    LoneJoin(s);
    WholePrefix(s);
    hide *;
    var t := BeforeDash(s);
    if |t| < |s| {
      JoinIsInverse(s[|t| + 1..]);
      JoinMore(t, Split(s[|t| + 1..]));
      AtDash(s, |t|);
    }
  }

  lemma LoneJoin(s: string)
    ensures Join([s]) == s
  {}

  lemma AtDash(s: string, k: nat)
    requires k < |s| && s[k] == '-'
    ensures s == s[..k] + "-" + s[k + 1..] && s[k..] == "-" + s[k + 1..]
  {}

  /** Replacing the part before the first dash leaves what follows as it was. */
  lemma JoinReplaced(s: string, first: string)
    ensures Join([first] + Split(s)[1..]) == first + s[|BeforeDash(s)|..]
  {
    SplitNext(s);
    LoneJoin(first);
    hide *;
    var t := BeforeDash(s);
    if |t| < |s| {
      var tail := s[|t| + 1..];
      JoinIsInverse(tail);
      JoinMore(first, Split(tail));
      JoinFront([t], Split(tail));
      AtDash(s, |t|);
      Regroup(first, "-", tail);
    } else {
      assert [first] + Split(s)[1..] == [first];
      assert first + s[|t|..] == first;
    }
  }

  predicate NoDash(s: string) {
    forall i :: 0 <= i < |s| ==> s[i] != '-'
  }

  lemma {:induction false} BeforeDashConcat(s: string, t: string)
    requires NoDash(s)
    ensures BeforeDash(s + t) == s + BeforeDash(t)
  {
    if |s| == 0 {
      EmptyFront(t);
    } else {
      JoinTail(s, t);
      BeforeDashConcat(s[1..], t);
    }
  }

  // ----- the two ways to write a submission -----

  function Concat(parts: seq<string>): string {
    if |parts| == 0 then "" else Concat(parts[..|parts| - 1]) + parts[|parts| - 1]
  }

  function Decimal(n: int): string
    decreases n < 0, if n < 0 then -n else n
  {
    if n < 0 then "-" + Decimal(-n)
    else if n < 10 then ['0' + n as char]
    else Decimal(n / 10) + ['0' + (n % 10) as char]
  }

  /** The texts one after the other. */
  lemma {:induction false} ConcatParts(a: seq<string>, b: seq<string>)
    ensures Concat(a + b) == Concat(a) + Concat(b)
    ensures |b| == 1 ==> Concat(b) == b[0]
  {
    if |b| == 0 {
      assert a + b == a;
      assert Concat(a) + "" == Concat(a);
    } else {
      var front, last := b[..|b| - 1], b[|b| - 1];
      ConcatParts(a, front);
      assert (a + b)[..|a + b| - 1] == a + front;
      Regroup(Concat(a), Concat(front), last);
    }
  }

  predicate IsDecimal(s: string) {
    |s| > 0 && forall i :: 0 <= i < |s| ==> '0' <= s[i] <= '9'
  }

  /** A text of digits read from the left. */
  function DecimalValue(s: string): int {
    if |s| == 0 then 0 else 10 * DecimalValue(s[..|s| - 1]) + (s[|s| - 1] as int - '0' as int)
  }

  /** A number is written in digits, without leading zeros, and reads back. */
  lemma {:induction false} DecimalReads(n: nat)
    ensures IsDecimal(Decimal(n)) && DecimalValue(Decimal(n)) == n && (n > 0 ==> Decimal(n)[0] != '0')
    ensures n > 0 ==> Decimal(0 - n) == "-" + Decimal(n)
  {
    if n >= 10 {
      DecimalReads(n / 10);
      assert Decimal(n)[..|Decimal(n)| - 1] == Decimal(n / 10);
    }
  }

  /** What both miners know when a block is found, apart from the nonce. */
  datatype Job = Job(
    headerData: seq<Octet>,
    parents: seq<string>,
    transactions: seq<string>,
    pool: bool,
    jobId: string,
    exnonce2: string,
    height: nat,
    gbtId: int)
  {
    /** The end of a solo submission: the number of transactions, the height, the request. */
    function Numbers(): string {
      "-" + Decimal(|transactions|) + "-" + Decimal(height) + "-" + Decimal(gbtId)
    }

    /** What stands between the header and the transactions, or after the header in a pool. */
    function Middle(): string {
      if pool then "-" + jobId + "-" + exnonce2
      else Int2varinthex(|parents|) + Concat(parents) + Int2varinthex(|transactions|)
    }

    function Tail(): string {
      if pool then "" else Concat(transactions) + Numbers()
    }

    /** The submission for a header that was hashed with this nonce. */
    function Submission(header: seq<Octet>, nonce: seq<Octet>): string
      requires |header| == HEADER <= |headerData| && |nonce| == HEADER - NONCE_START
    {
      EncodeHex(Patched(headerData, header, nonce)) + Middle() + Tail()
    }
  }

  function Patched(b: seq<Octet>, header: seq<Octet>, nonce: seq<Octet>): (p: seq<Octet>)
    requires |header| == HEADER <= |b| && |nonce| == HEADER - NONCE_START
    ensures |p| == |b|
  {
    header[..NONCE_START] + nonce + b[HEADER..]
  }

  /** The middle of either text, appended piece by piece. */
  method AppendMiddle(job: Job, start: string) returns (subm: string)
    ensures subm == start + job.Middle()
  {
    hide Int2varinthex, Concat, Decimal;
    if !job.pool {
      subm := start + Int2varinthex(|job.parents|);
      subm := AppendAll(subm, job.parents);
      Regroup(start, Int2varinthex(|job.parents|), Concat(job.parents));
      subm := subm + Int2varinthex(|job.transactions|);
      Regroup(start, Int2varinthex(|job.parents|) + Concat(job.parents), Int2varinthex(|job.transactions|));
    } else {
      subm := start + ("-" + job.jobId + "-" + job.exnonce2);
    }
  }

  method AppendTail(job: Job, start: string) returns (subm: string)
    ensures subm == start + job.Tail()
  {
    hide Concat, Decimal;
    if !job.pool {
      subm := AppendAll(start, job.transactions);
      Regroup(start, Concat(job.transactions), job.Numbers());
      subm := subm + ("-" + Decimal(|job.transactions|) + "-" + Decimal(job.height) + "-" + Decimal(job.gbtId));
    } else {
      subm := start;
      assert start + "" == start;
    }
  }

  /** The share as the processor miner writes it in its mining loop, from the header bytes
      that met the target. */
  method SubmitOnce(job: Job, hData: seq<Octet>) returns (subm: string)
    requires |hData| == HEADER <= |job.headerData|
    ensures subm == job.Submission(hData, hData[NONCE_START..])
  {
    var headerData := hData + job.headerData[HEADER..];
    Cut(hData, NONCE_START);
    subm := EncodeHex(headerData);
    subm := AppendMiddle(job, subm);
    subm := AppendTail(job, subm);
  }

  method AppendAll(start: string, parts: seq<string>) returns (s: string)
    ensures s == start + Concat(parts)
  {
    s := start;
    for j := 0 to |parts|
      invariant s == start + Concat(parts[..j])
    {
      assert parts[..j + 1][..j] == parts[..j];
      s := s + parts[j];
    }
    WholePrefix(parts);
  }

  /** GetSubmitStr: the first phase, when the work goes out to the chip. */
  method GetSubmitStr(job: Job) returns (subm: string)
    ensures subm == EncodeHex(job.headerData) + job.Middle()
  {
    subm := EncodeHex(job.headerData);
    subm := AppendMiddle(job, subm);
  }

  /** What ReplaceNonce makes of the prepared text. */
  function Replaced(submitStr: string, tail: string, header: seq<Octet>, nonce: seq<Octet>): string
    requires |header| == HEADER && |nonce| == HEADER - NONCE_START
    requires var b := DecodeHex(BeforeDash(submitStr)); b.Some? ==> |b.value| >= HEADER
  {
    var b := DecodeHex(BeforeDash(submitStr));
    if b.None? then submitStr
    else EncodeHex(Patched(b.value, header, nonce)) + submitStr[|BeforeDash(submitStr)|..] + tail
  }

  /** The same for any prepared text. The decoded buffer has some spare room; a front of less
      than a header fails, unless the header fits into that room, and is then overwritten. */
  function ReplacedAny(submitStr: string, tail: string, header: seq<Octet>, nonce: seq<Octet>, spare: nat)
    : Option<string>
    requires |header| == HEADER && |nonce| == HEADER - NONCE_START
  {
    var b := DecodeHex(BeforeDash(submitStr));
    if b.None? || |b.value| >= HEADER then Some(Replaced(submitStr, tail, header, nonce))
    else if |b.value| + spare < HEADER then None
    else Some(EncodeHex((header[..NONCE_START] + nonce)[..|b.value|]) + submitStr[|BeforeDash(submitStr)|..] + tail)
  }

  /** ReplaceNonce: the second phase, when the chip has found a nonce. A prepared text that
      is not hexadecimal up to its first dash is handed back as it is. */
  method ReplaceNonce(job: Job, submitStr: string, header: seq<Octet>, nonce: seq<Octet>, spare: nat)
    returns (subm: Option<string>)
    requires |header| == HEADER && |nonce| == HEADER - NONCE_START
    ensures subm == ReplacedAny(submitStr, job.Tail(), header, nonce, spare)
  {
    hide Concat, Decimal, Split, Join, EncodeHex, DecodeHex, Patched;
    var arr := Split(submitStr);
    var decoded := DecodeHex(arr[0]);
    if decoded.None? {
      return Some(submitStr);
    }
    var b := PatchBuffer(decoded.value, header, nonce, spare);
    if b.None? {
      return None;
    }
    arr := [EncodeHex(b.value)] + arr[1..];
    JoinReplaced(submitStr, EncodeHex(b.value));
    var front := AppendTail(job, Join(arr));
    return Some(front);
  }

  /** The bytes with the header and the nonce in it laid over them, as far as they reach. */
  ghost predicate Overlaid(bytes: seq<Octet>, was: seq<Octet>, header: seq<Octet>, nonce: seq<Octet>)
    requires |header| == HEADER && |nonce| == HEADER - NONCE_START
  {
    && |bytes| == |was|
    && forall i :: 0 <= i < |was| ==>
         bytes[i] == if i < NONCE_START then header[i] else if i < HEADER then nonce[i - NONCE_START] else was[i]
  }

  lemma ReplacedFront(submitStr: string, tail: string, header: seq<Octet>, nonce: seq<Octet>, spare: nat)
    returns (bytes: seq<Octet>)
    requires |header| == HEADER && |nonce| == HEADER - NONCE_START
    requires var b := DecodeHex(BeforeDash(submitStr)); b.Some? && |b.value| + spare >= HEADER
    ensures Overlaid(bytes, DecodeHex(BeforeDash(submitStr)).value, header, nonce)
    ensures ReplacedAny(submitStr, tail, header, nonce, spare)
         == Some(EncodeHex(bytes) + submitStr[|BeforeDash(submitStr)|..] + tail)
  {
    hide EncodeHex, DecodeHex, BeforeDash;
    var was := DecodeHex(BeforeDash(submitStr)).value;
    bytes := if |was| >= HEADER then Patched(was, header, nonce) else (header[..NONCE_START] + nonce)[..|was|];
  }

  /** Read as bytes and text: the front that was hexadecimal is the same but for the header and the
      nonce in it, and behind it stands what stood there, and the tail. A front that is not
      hexadecimal leaves all as it was, and one that is too short fails, unless the buffer has
      room. */
  lemma ReplacedParts(submitStr: string, tail: string, header: seq<Octet>, nonce: seq<Octet>, spare: nat)
    requires |header| == HEADER && |nonce| == HEADER - NONCE_START
    ensures var b := DecodeHex(BeforeDash(submitStr));
            var r := ReplacedAny(submitStr, tail, header, nonce, spare);
            && (b.None? ==> r == Some(submitStr))
            && (b.Some? ==> (r.None? <==> |b.value| + spare < HEADER))
            && (b.Some? && r.Some? ==>
                  var n := 2 * |b.value|;
                  && |r.value| >= n && |submitStr| >= n && r.value[n..] == submitStr[n..] + tail
                  && var bytes := DecodeHex(r.value[..n]);
                  bytes.Some? && Overlaid(bytes.value, b.value, header, nonce))
  {
    hide EncodeHex, DecodeHex, BeforeDash, Patched;
    var b := DecodeHex(BeforeDash(submitStr));
    if b.Some? && |b.value| + spare >= HEADER {
      var bytes := ReplacedFront(submitStr, tail, header, nonce, spare);
      hide ReplacedAny, Replaced, Overlaid;
      var rest := submitStr[|BeforeDash(submitStr)|..];
      DecodeEncode(bytes);
      SameSize(bytes, b.value, header, nonce);
      Regroup(EncodeHex(bytes), rest, tail);
      JoinFront(EncodeHex(bytes), rest + tail);
    }
  }

  lemma SameSize(bytes: seq<Octet>, was: seq<Octet>, header: seq<Octet>, nonce: seq<Octet>)
    requires |header| == HEADER && |nonce| == HEADER - NONCE_START && Overlaid(bytes, was, header, nonce)
    ensures |bytes| == |was|
  {}

  /** The two copies into the decoded buffer, which fail where it ends. */
  method PatchBuffer(decoded: seq<Octet>, header: seq<Octet>, nonce: seq<Octet>, spare: nat)
    returns (patched: Option<seq<Octet>>)
    requires |header| == HEADER && |nonce| == HEADER - NONCE_START
    ensures patched == if |decoded| >= HEADER then Some(Patched(decoded, header, nonce))
                       else if |decoded| + spare < HEADER then None
                       else Some((header[..NONCE_START] + nonce)[..|decoded|])
  {
    if |decoded| + spare < HEADER {
      return None;
    }
    var b := new Octet[|decoded| + spare](i => if 0 <= i < |decoded| then decoded[i] else 0);
    forall i | 0 <= i < HEADER {
      b[i] := header[i];
    }
    forall i | NONCE_START <= i < HEADER {
      b[i] := nonce[i - NONCE_START];
    }
    if |decoded| >= HEADER {
      assert b[..|decoded|] == Patched(decoded, header, nonce);
    } else {
      assert b[..|decoded|] == (header[..NONCE_START] + nonce)[..|decoded|];
    }
    return Some(b[..|decoded|]);
  }

  // ----- the two ways agree -----

  lemma HexHasNoDash(s: string)
    requires LowerHex(s)
    ensures NoDash(s)
  {}

  lemma {:induction false} DecodeAfterHex(b: seq<Octet>, q: string)
    ensures var d := DecodeHex(q);
            DecodeHex(EncodeHex(b) + q) == if d.None? then None else Some(b + d.value)
  {
    if |b| == 0 {
      EmptyFront(q);
      if DecodeHex(q).Some? {
        EmptyFront(DecodeHex(q).value);
      }
    } else {
      var e := EncodeHex(b);
      var hi, lo := b[0] as nat / 16, b[0] as nat % 16;
      ValueDigit(hi);
      ValueDigit(lo);
      assert (16 * hi + lo) as Octet == b[0];
      assert (e + q)[0] == Digit(hi) && (e + q)[1] == Digit(lo);
      assert (e + q)[2..] == EncodeHex(b[1..]) + q;
      DecodeAfterHex(b[1..], q);
      var rest := DecodeHex((e + q)[2..]);
      assert DecodeHex(e + q) == if rest.None? then None else Some([b[0]] + rest.value);
      Cut(b, 1);
      assert b[..1] == [b[0]];
      if DecodeHex(q).Some? {
        Regroup([b[0]], b[1..], DecodeHex(q).value);
      }
    }
  }

  /** Up to its first dash the prepared text is the header and the front of the middle. */
  lemma PreparedFront(hd: seq<Octet>, middle: string)
    ensures var q, d := BeforeDash(middle), DecodeHex(BeforeDash(middle));
            && BeforeDash(EncodeHex(hd) + middle) == EncodeHex(hd) + q
            && DecodeHex(BeforeDash(EncodeHex(hd) + middle)) == if d.None? then None else Some(hd + d.value)
  {
    DecodeEncode(hd);
    HexHasNoDash(EncodeHex(hd));
    BeforeDashConcat(EncodeHex(hd), middle);
    DecodeAfterHex(hd, BeforeDash(middle));
  }

  lemma PatchedConcat(hd: seq<Octet>, more: seq<Octet>, header: seq<Octet>, nonce: seq<Octet>)
    requires |header| == HEADER <= |hd| && |nonce| == HEADER - NONCE_START
    ensures Patched(hd + more, header, nonce) == Patched(hd, header, nonce) + more
  {}

  lemma ReplacedText(hd: seq<Octet>, middle: string, tail: string, header: seq<Octet>, nonce: seq<Octet>)
    requires |header| == HEADER <= |hd| && |nonce| == HEADER - NONCE_START
    ensures var d := DecodeHex(BeforeDash(middle));
            var b := DecodeHex(BeforeDash(EncodeHex(hd) + middle));
            && (b.Some? ==> |b.value| >= HEADER)
            && Replaced(EncodeHex(hd) + middle, tail, header, nonce)
               == if d.None? then EncodeHex(hd) + middle
                  else EncodeHex(Patched(hd, header, nonce))
                       + (EncodeHex(d.value) + middle[|BeforeDash(middle)|..] + tail)
  {
    var q, d := BeforeDash(middle), DecodeHex(BeforeDash(middle));
    var e := EncodeHex(hd);
    PreparedFront(hd, middle);
    hide EncodeHex, DecodeHex, BeforeDash, Patched;
    if d.Some? {
      PatchedConcat(hd, d.value, header, nonce);
      EncodeConcat(Patched(hd, header, nonce), d.value);
      assert (e + middle)[|e + q|..] == middle[|q|..];
      Regroup(EncodeHex(Patched(hd, header, nonce)), EncodeHex(d.value), middle[|q|..]);
      Regroup(EncodeHex(Patched(hd, header, nonce)), EncodeHex(d.value) + middle[|q|..], tail);
    }
  }

  lemma SameFront(p: string, q: string, r: string, rest: string)
    requires |p| == |q|
    ensures r + (p + rest) == r + (q + rest) <==> p == q
  {
    if r + (p + rest) == r + (q + rest) {
      JoinFront(r, p + rest);
      JoinFront(r, q + rest);
      JoinFront(p, rest);
      JoinFront(q, rest);
    }
  }

  /** Patching a prepared text gives the one-phase text exactly when what stands between the
      header and the next dash is lower-case hexadecimal. Without a tail, as in a pool, only
      that half is claimed. */
  lemma ReplacedIsPatched(hd: seq<Octet>, middle: string, tail: string, header: seq<Octet>, nonce: seq<Octet>)
    requires |header| == HEADER <= |hd| && |nonce| == HEADER - NONCE_START
    ensures var b := DecodeHex(BeforeDash(EncodeHex(hd) + middle));
            b.Some? ==> |b.value| >= HEADER
    ensures LowerHex(BeforeDash(middle)) ==>
              Replaced(EncodeHex(hd) + middle, tail, header, nonce)
              == EncodeHex(Patched(hd, header, nonce)) + middle + tail
    ensures |tail| > 0 && !LowerHex(BeforeDash(middle)) ==>
              Replaced(EncodeHex(hd) + middle, tail, header, nonce)
              != EncodeHex(Patched(hd, header, nonce)) + middle + tail
  {
    var q, d := BeforeDash(middle), DecodeHex(BeforeDash(middle));
    var p := EncodeHex(Patched(hd, header, nonce));
    ReplacedText(hd, middle, tail, header, nonce);
    EncodeDecode(q);
    Cut(middle, |q|);
    var rest := middle[|q|..] + tail;
    hide EncodeHex, DecodeHex, BeforeDash, LowerHex, Replaced, Patched;
    Regroup(p, middle, tail);
    Regroup(q, middle[|q|..], tail);
    if d.Some? {
      Regroup(EncodeHex(d.value), middle[|q|..], tail);
      SameFront(EncodeHex(d.value), q, p, rest);
    }
  }

  // ----- the theorem on jobs -----

  lemma LowerHexConcat(s: string, t: string)
    requires LowerHex(s)
    ensures LowerHex(s + t) <==> LowerHex(t)
    ensures LowerHex(t + s) <==> LowerHex(t)
  {
    if LowerHex(s + t) {
      forall i | 0 <= i < |t|
        ensures IsLower(t[i])
      {
        assert t[i] == (s + t)[|s| + i];
      }
    }
    if LowerHex(t + s) {
      forall i | 0 <= i < |t|
        ensures IsLower(t[i])
      {
        assert t[i] == (t + s)[i];
      }
    }
  }

  lemma CountIsHex(x: nat)
    ensures LowerHex(Int2varinthex(x))
  {
    hide EncodeHex;
    assert LowerHex("fd") && LowerHex("fe") && LowerHex("ff") && LowerHex("0000000000000000");
    if x < 0xFD {
      DecodeEncode([x as Octet]);
    } else {
      var width := if x < 0xFFFF then 2 else if x < 0xFFFF_FFFF then 4 else 8;
      DecodeEncode(LittleEndian(x, width));
      LowerHexConcat("fd", Int2lehex(x, width));
      LowerHexConcat("fe", Int2lehex(x, width));
      LowerHexConcat("ff", Int2lehex(x, width));
    }
  }

  /** A dash in s is the first dash of s + t; otherwise all of s comes before it. */
  lemma {:induction false} BeforeDashOfConcat(s: string, t: string)
    requires NoDash(t)
    ensures BeforeDash(s + t) == if NoDash(s) then s + t else BeforeDash(s)
    ensures NoDash(s) ==> BeforeDash(s) == s
  {
    if |s| == 0 {
      EmptyFront(t);
      NoDashIsAll(t);
    } else {
      JoinTail(s, t);
      if s[0] != '-' {
        BeforeDashOfConcat(s[1..], t);
        assert NoDash(s) <==> NoDash(s[1..]);
      }
    }
  }

  lemma {:induction false} NoDashIsAll(s: string)
    requires NoDash(s)
    ensures BeforeDash(s) == s
  {
    if |s| > 0 {
      NoDashIsAll(s[1..]);
    }
  }

  lemma MiddleBeforeDash(job: Job)
    ensures LowerHex(BeforeDash(job.Middle())) <==> job.pool || LowerHex(BeforeDash(Concat(job.parents)))
  {
    hide Int2varinthex, Concat;
    if job.pool {
      assert job.Middle()[0] == '-';
    } else {
      var v, w, parents := Int2varinthex(|job.parents|), Int2varinthex(|job.transactions|), Concat(job.parents);
      CountIsHex(|job.parents|);
      CountIsHex(|job.transactions|);
      HexHasNoDash(v);
      HexHasNoDash(w);
      Regroup(v, parents, w);
      BeforeDashConcat(v, parents + w);
      BeforeDashOfConcat(parents, w);
      LowerHexConcat(v, BeforeDash(parents + w));
      LowerHexConcat(w, parents);
    }
  }

  /** The chip miner's two phases write what the processor miner writes at once, for every
      header, nonce and job, exactly when in a solo job the parents' data is lower-case
      hexadecimal up to its first dash; a pool job always agrees. */
  lemma TwoPhasesAgree(job: Job, header: seq<Octet>, nonce: seq<Octet>)
    requires |header| == HEADER <= |job.headerData| && |nonce| == HEADER - NONCE_START
    ensures var b := DecodeHex(BeforeDash(EncodeHex(job.headerData) + job.Middle()));
            b.Some? ==> |b.value| >= HEADER
    ensures Replaced(EncodeHex(job.headerData) + job.Middle(), job.Tail(), header, nonce)
              == job.Submission(header, nonce)
            <==> job.pool || LowerHex(BeforeDash(Concat(job.parents)))
  {
    assert !job.pool ==> |job.Tail()| > 0;
    ReplacedIsPatched(job.headerData, job.Middle(), job.Tail(), header, nonce);
    MiddleBeforeDash(job);
  }

  /** Such a job: one parent whose data is written in capitals. */
  lemma CapitalsDisagree(job: Job, header: seq<Octet>, nonce: seq<Octet>)
    requires |header| == HEADER <= |job.headerData| && |nonce| == HEADER - NONCE_START
    requires !job.pool && job.parents == ["AB"]
    ensures var b := DecodeHex(BeforeDash(EncodeHex(job.headerData) + job.Middle()));
            b.Some? ==> |b.value| >= HEADER
    ensures Replaced(EncodeHex(job.headerData) + job.Middle(), job.Tail(), header, nonce)
            != job.Submission(header, nonce)
  {
    assert Concat(["AB"]) == "AB";
    assert BeforeDash("AB")[0] == 'A';
    TwoPhasesAgree(job, header, nonce);
  }

  lemma SplitAtDash(s: string, rest: string)
    requires NoDash(s)
    ensures Split(s + ("-" + rest)) == [s] + Split(rest)
  {
    BeforeDashConcat(s, "-" + rest);
    assert BeforeDash("-" + rest) == "" && s + "" == s;
    var all := s + ("-" + rest);
    assert all == (s + "-") + rest;
    assert all[|s| + 1..] == rest;
    SplitNext(all);
  }

  lemma SplitWhole(s: string)
    requires NoDash(s)
    ensures Split(s) == [s]
  {
    NoDashIsAll(s);
    SplitNext(s);
  }

  lemma DecimalHasNoDash(n: nat)
    ensures NoDash(Decimal(n))
  {
    DecimalReads(n);
    hide Decimal;
  }

  /** Read at its dashes, a submission has the fields of its job: of a pool the patched header,
      the job and the extra nonce, and of a solo job one text of header, counts, parents and
      transactions, and then the number of transactions, the height and the request. */
  lemma SubmissionParts(job: Job, header: seq<Octet>, nonce: seq<Octet>)
    requires |header| == HEADER <= |job.headerData| && |nonce| == HEADER - NONCE_START
    requires if job.pool then NoDash(job.jobId) && NoDash(job.exnonce2)
             else NoDash(Concat(job.parents)) && NoDash(Concat(job.transactions)) && job.gbtId >= 0
    ensures Split(job.Submission(header, nonce))
         == Fields(job, EncodeHex(header[..NONCE_START] + nonce + job.headerData[HEADER..]))
  {
    var bytes := header[..NONCE_START] + nonce + job.headerData[HEADER..];
    var hex := EncodeHex(bytes);
    assert Patched(job.headerData, header, nonce) == bytes;
    DecodeEncode(bytes);
    HexHasNoDash(hex);
    hide EncodeHex, DecodeHex, Int2varinthex, Concat, Decimal, Split;
    if job.pool {
      PoolParts(job, hex);
    } else {
      SoloParts(job, hex);
    }
  }

  function Fields(job: Job, hex: string): seq<string> {
    if job.pool then [hex, job.jobId, job.exnonce2]
    else [hex + Int2varinthex(|job.parents|) + Concat(job.parents) + Int2varinthex(|job.transactions|)
          + Concat(job.transactions),
          Decimal(|job.transactions|), Decimal(job.height), Decimal(job.gbtId)]
  }

  lemma PoolParts(job: Job, hex: string)
    requires job.pool && NoDash(hex) && NoDash(job.jobId) && NoDash(job.exnonce2)
    ensures Split(hex + job.Middle() + job.Tail()) == [hex, job.jobId, job.exnonce2]
  {
    hide Split;
    ThreeParts(hex, job.jobId, job.exnonce2);
    PoolMiddle(job.jobId, job.exnonce2);
    Nothing(hex + job.Middle());
  }

  lemma PoolMiddle(jobId: string, exnonce2: string)
    ensures "-" + jobId + "-" + exnonce2 == "-" + (jobId + ("-" + exnonce2))
  {}

  lemma Nothing(s: string)
    ensures s + "" == s
  {}

  lemma ThreeParts(a: string, b: string, c: string)
    requires NoDash(a) && NoDash(b) && NoDash(c)
    ensures Split(a + ("-" + (b + ("-" + c)))) == [a, b, c]
  {
    hide *;
    SplitAtDash(a, b + ("-" + c));
    SplitAtDash(b, c);
    SplitWhole(c);
    assert [a] + ([b] + [c]) == [a, b, c];
  }

  lemma FourParts(a: string, b: string, c: string, d: string)
    requires NoDash(a) && NoDash(b) && NoDash(c) && NoDash(d)
    ensures Split(a + ("-" + (b + ("-" + (c + ("-" + d)))))) == [a, b, c, d]
  {
    hide *;
    SplitAtDash(a, b + ("-" + (c + ("-" + d))));
    ThreeParts(b, c, d);
    assert [a] + [b, c, d] == [a, b, c, d];
  }

  lemma SoloParts(job: Job, hex: string)
    requires !job.pool && NoDash(hex) && NoDash(Concat(job.parents)) && NoDash(Concat(job.transactions))
    requires job.gbtId >= 0
    ensures Split(hex + job.Middle() + job.Tail()) == Fields(job, hex)
  {
    hide *;
    var (v, w) := (Int2varinthex(|job.parents|), Int2varinthex(|job.transactions|));
    var (p, t) := (Concat(job.parents), Concat(job.transactions));
    var (x, y, z) := (Decimal(|job.transactions|), Decimal(job.height), Decimal(job.gbtId));
    CountIsHex(|job.parents|);
    CountIsHex(|job.transactions|);
    HexHasNoDash(v);
    HexHasNoDash(w);
    DecimalHasNoDash(|job.transactions|);
    DecimalHasNoDash(job.height);
    DecimalHasNoDash(job.gbtId);
    TailIs(job);
    FiveNoDash(hex, v, p, w, t);
    FiveJoined(hex, v, p, w, t, "-" + (x + ("-" + (y + ("-" + z)))));
    FourParts(hex + v + p + w + t, x, y, z);
    FieldsAre(job, hex);
  }

  lemma FieldsAre(job: Job, hex: string)
    requires !job.pool
    ensures Fields(job, hex)
         == [hex + Int2varinthex(|job.parents|) + Concat(job.parents) + Int2varinthex(|job.transactions|)
             + Concat(job.transactions),
             Decimal(|job.transactions|), Decimal(job.height), Decimal(job.gbtId)]
  {}

  lemma TailIs(job: Job)
    requires !job.pool
    ensures job.Middle() == Int2varinthex(|job.parents|) + Concat(job.parents) + Int2varinthex(|job.transactions|)
    ensures job.Tail() == Concat(job.transactions)
                          + ("-" + (Decimal(|job.transactions|)
                                    + ("-" + (Decimal(job.height) + ("-" + Decimal(job.gbtId))))))
  {
    hide Decimal, Concat;
  }

  lemma FiveNoDash(a: string, b: string, c: string, d: string, e: string)
    requires NoDash(a) && NoDash(b) && NoDash(c) && NoDash(d) && NoDash(e)
    ensures NoDash(a + b + c + d + e)
  {}

  lemma FiveJoined(a: string, b: string, c: string, d: string, e: string, f: string)
    ensures a + (b + c + d) + (e + f) == a + b + c + d + e + f
  {}

  /** A submission begins with the 117 bytes that were hashed, and a solo one continues with
      a readable count of parents behind the whole header. */
  lemma SubmissionHeader(job: Job, header: seq<Octet>, nonce: seq<Octet>)
    requires |header| == HEADER <= |job.headerData| && |nonce| == HEADER - NONCE_START
    ensures var s := job.Submission(header, nonce);
            && |s| >= 2 * |job.headerData|
            && DecodeHex(s[..2 * HEADER]) == Some(header[..NONCE_START] + nonce)
            && (!job.pool && |job.parents| < 0x8000_0000_0000_0000 ==>
                  ReadCount(s[2 * |job.headerData|..])
                  == Some((|job.parents|, Concat(job.parents) + (Int2varinthex(|job.transactions|) + job.Tail()))))
  {
    hide EncodeHex, DecodeHex, Int2varinthex, ReadCount, Concat, Decimal;
    var front, back := header[..NONCE_START] + nonce, job.headerData[HEADER..];
    EncodeConcat(front, back);
    DecodeEncode(front);
    var e, middle, tail := EncodeHex(front + back), job.Middle(), job.Tail();
    Regroup(e, middle, tail);
    JoinFront(e, middle + tail);
    Regroup(EncodeHex(front), EncodeHex(back), middle + tail);
    JoinFront(EncodeHex(front), EncodeHex(back) + (middle + tail));
    if !job.pool && |job.parents| < 0x8000_0000_0000_0000 {
      var v, parents, w := Int2varinthex(|job.parents|), Concat(job.parents), Int2varinthex(|job.transactions|);
      Regroup(v, parents, w);
      Regroup(v, parents + w, tail);
      Regroup(parents, w, tail);
      CountRoundTrip(|job.parents|, parents + (w + tail));
    }
  }
}
