/** Struct tags with several values to a key: key:"value" pairs, scanned into a map on first
    use. */
module MultiTag {
  import opened Options
  import opened Seqs

  datatype Problem =
    | EndOfTag
    | ColonExpected
    | QuoteExpectedAtEnd
    | QuoteExpected
    | NewlineInValue
    | EndOfValueExpected
    | MalformedValue

  datatype Scanned = Pairs(pairs: seq<(string, string)>) | Wrong(problem: Problem)

  // ----- what a tag means -----

  function Spaces(v: string): (n: nat)
    ensures n <= |v| && (n < |v| ==> v[n] != ' ') && forall i :: 0 <= i < n ==> v[i] == ' '
  {
    if |v| > 0 && v[0] == ' ' then 1 + Spaces(v[1..]) else 0
  }

  predicate IsKeyChar(c: char) {
    c != ' ' && c != ':' && c != '"'
  }

  function KeyLength(v: string): (n: nat)
    ensures n <= |v| && (n < |v| ==> !IsKeyChar(v[n])) && forall i :: 0 <= i < n ==> IsKeyChar(v[i])
  {
    if |v| > 0 && IsKeyChar(v[0]) then 1 + KeyLength(v[1..]) else 0
  }

  datatype Closing = At(i: nat) | Newline | Missing

  /** The closing quote from place i on; a backslash hides the character behind it. */
  function ClosingQuote(v: string, i: nat): (c: Closing)
    ensures c.At? ==> i <= c.i < |v| && v[c.i] == '"'
    decreases |v| - i
  {
    if i >= |v| then Missing
    else if v[i] == '"' then At(i)
    else if v[i] == '\n' then Newline
    else if v[i] == '\\' then ClosingQuote(v, i + 2)
    else ClosingQuote(v, i + 1)
  }

  datatype Round = End | Pair(name: string, value: string, rest: string) | Stop(problem: Problem)

  /** One round: the first pair of the tag and what follows it, which is shorter. */
  function FirstPair(v: string, unquote: string -> Option<string>): (r: Round)
    ensures r.Pair? ==> |r.rest| < |v|
  {
    var w := v[Spaces(v)..];
    if w == "" then End else PairAt(w, KeyLength(w), unquote)
  }

  /** The pair whose key ends at k. */
  function PairAt(w: string, k: nat, unquote: string -> Option<string>): (r: Round)
    requires k <= |w|
    ensures r.Pair? ==> |r.rest| < |w|
  {
    if k >= |w| then Stop(EndOfTag)
    else if w[k] != ':' then Stop(ColonExpected)
    else if k + 1 >= |w| then Stop(QuoteExpectedAtEnd)
    else if w[k + 1] != '"' then Stop(QuoteExpected)
    else
      var rest := w[k + 1..];
      match ClosingQuote(rest, 1)
      case Newline => Stop(NewlineInValue)
      case Missing => Stop(EndOfValueExpected)
      case At(i) =>
        match unquote(rest[..i + 1])
        case None => Stop(MalformedValue)
        case Some(value) => Pair(w[..k], value, rest[i + 1..])
  }

  /** All pairs of the tag, or the first problem. */
  function Meaning(v: string, unquote: string -> Option<string>): Scanned
    decreases |v|
  {
    match FirstPair(v, unquote)
    case End => Pairs([])
    case Stop(problem) => Wrong(problem)
    case Pair(name, value, rest) => After([(name, value)], Meaning(rest, unquote))
  }

  function After(pairs: seq<(string, string)>, scanned: Scanned): Scanned {
    if scanned.Wrong? then scanned else Pairs(pairs + scanned.pairs)
  }

  /** The values of a key, in order. */
  function ValuesOf(pairs: seq<(string, string)>, key: string): (values: seq<string>)
    ensures |values| <= |pairs|
  {
    if |pairs| == 0 then []
    else ValuesOf(pairs[..|pairs| - 1], key) + if pairs[|pairs| - 1].0 == key then [pairs[|pairs| - 1].1] else []
  }

  /** A map that has exactly the keys that occur, each with its values. */
  ghost predicate Collects(ret: map<string, seq<string>>, pairs: seq<(string, string)>) {
    && (forall key :: key in ret <==> ValuesOf(pairs, key) != [])
    && (forall key :: key in ret ==> ret[key] == ValuesOf(pairs, key))
  }

  lemma CollectsNext(ret: map<string, seq<string>>, pairs: seq<(string, string)>, name: string, value: string)
    requires Collects(ret, pairs)
    ensures Collects(ret[name := (if name in ret then ret[name] else []) + [value]], pairs + [(name, value)])
  {
    assert (pairs + [(name, value)])[..|pairs|] == pairs;
  }

  lemma AfterTwice(a: seq<(string, string)>, b: seq<(string, string)>, scanned: Scanned)
    ensures After(a, After(b, scanned)) == After(a + b, scanned)
  {
    if scanned.Pairs? {
      Regroup(a, b, scanned.pairs);
    }
  }

  datatype Result = Ok(cache: map<string, seq<string>>) | Err(problem: Problem)

  /** A key's own place and its values in the cache, or a failed scan, which leaves nothing. */
  ghost predicate ScannedInto(result: Result, scanned: Scanned) {
    match scanned
    case Pairs(pairs) => result.Ok? && Collects(result.cache, pairs)
    case Wrong(problem) => result == Err(problem)
  }

  method SkipSpaces(v: string) returns (i: nat)
    ensures i == Spaces(v)
  {
    i := 0;
    while i < |v| && v[i] == ' '
      invariant i <= |v| && Spaces(v) == i + Spaces(v[i..])
    {
      i := i + 1;
    }
  }

  method SkipKey(v: string) returns (i: nat)
    ensures i == KeyLength(v)
  {
    i := 0;
    while i < |v| && v[i] != ' ' && v[i] != ':' && v[i] != '"'
      invariant i <= |v| && KeyLength(v) == i + KeyLength(v[i..])
    {
      i := i + 1;
    }
  }

  /** The inner loop of scan over a quoted value. */
  method SkipQuoted(v: string) returns (closing: Closing)
    ensures closing == ClosingQuote(v, 1)
  {
    var i := 1;
    while i < |v| && v[i] != '"'
      invariant ClosingQuote(v, 1) == ClosingQuote(v, i)
      decreases |v| - i
    {
      if v[i] == '\n' {
        return Newline;
      }
      if v[i] == '\\' {
        i := i + 1;
      }
      i := i + 1;
    }
    return if i >= |v| then Missing else At(i);
  }

  /** One round of the loop of scan. */
  method ScanOne(tag: string, unquote: string -> Option<string>) returns (round: Round)
    ensures round == FirstPair(tag, unquote)
  {
    hide ClosingQuote, KeyLength, Spaces;
    var i := SkipSpaces(tag);
    var v := tag[i..];
    if v == "" {
      return End;
    }
    i := SkipKey(v);
    if i >= |v| {
      return Stop(EndOfTag);
    }
    if v[i] != ':' {
      return Stop(ColonExpected);
    }
    if i + 1 >= |v| {
      return Stop(QuoteExpectedAtEnd);
    }
    if v[i + 1] != '"' {
      return Stop(QuoteExpected);
    }
    var name := v[..i];
    v := v[i + 1..];
    var closing := SkipQuoted(v);
    if closing.Newline? {
      return Stop(NewlineInValue);
    }
    if closing.Missing? {
      return Stop(EndOfValueExpected);
    }
    var val := unquote(v[..closing.i + 1]);
    return if val.None? then Stop(MalformedValue) else Pair(name, val.value, v[closing.i + 1..]);
  }

  /** scan: every round shortens the tag, so it ends on every input. */
  method Scan(value: string, unquote: string -> Option<string>) returns (result: Result)
    ensures ScannedInto(result, Meaning(value, unquote))
  {
    hide FirstPair, ValuesOf;
    var v := value;
    var ret: map<string, seq<string>> := map[];
    ghost var pairs: seq<(string, string)> := [];
    NothingCollected();
    NothingLeft(Meaning(v, unquote), unquote);
    while v != ""
      invariant Meaning(value, unquote) == After(pairs, Meaning(v, unquote))
      invariant Collects(ret, pairs)
      decreases |v|
    {
      var round := ScanOne(v, unquote);
      if round.End? {
        v := "";
      } else if round.Stop? {
        return Err(round.problem);
      } else {
        CollectsNext(ret, pairs, round.name, round.value);
        AfterTwice(pairs, [(round.name, round.value)], Meaning(round.rest, unquote));
        ret := ret[round.name := (if round.name in ret then ret[round.name] else []) + [round.value]];
        pairs := pairs + [(round.name, round.value)];
        v := round.rest;
      }
    }
    assert pairs + [] == pairs;
    return Ok(ret);
  }

  lemma NothingLeft(scanned: Scanned, unquote: string -> Option<string>)
    ensures Meaning("", unquote) == Pairs([]) && After([], scanned) == scanned
  {}

  lemma NothingCollected()
    ensures Collects(map[], [])
  {}

  // ----- the accessors -----

  /** What Get hands back: the source fails on a key whose list of values is empty. */
  datatype Got = Got(value: string) | OutOfRange

  class Tag {
    var value: string
    var cache: Option<map<string, seq<string>>>
    const unquote: string -> Option<string>

    /** The values of every key as the accessors see them. */
    ghost function View(): map<string, seq<string>>
      reads this
    {
      if cache.Some? then cache.value else ViewOf(Meaning(value, unquote))
    }

    constructor (value: string, unquote: string -> Option<string>)
      ensures this.value == value && this.unquote == unquote && cache.None?
    {
      this.value, this.unquote, cache := value, unquote, None;
    }

    /** Parse: scans again, and a tag that is wrong leaves no cache. */
    method Parse() returns (result: Result)
      modifies this`cache
      ensures ScannedInto(result, Meaning(value, unquote))
      ensures cache == if result.Ok? then Some(result.cache) else None
    {
      result := Scan(value, unquote);
      cache := if result.Ok? then Some(result.cache) else None;
    }

    /** cached: a wrong tag counts as empty. */
    method Cached() returns (c: map<string, seq<string>>)
      modifies this`cache
      ensures cache == Some(c) && c == old(View())
    {
      if cache.None? {
        var result := Scan(value, unquote);
        ViewCollects(result, Meaning(value, unquote));
        cache := Some(if result.Ok? then result.cache else map[]);
      }
      return cache.value;
    }

    /** Get: the last value of the key. */
    method Get(key: string) returns (got: Got)
      modifies this`cache
      ensures View() == old(View())
      ensures key !in View() ==> got == Got("")
      ensures key in View() ==>
                got == if |View()[key]| == 0 then OutOfRange else Got(View()[key][|View()[key]| - 1])
    {
      var c := Cached();
      if key in c {
        var v := c[key];
        return if |v| == 0 then OutOfRange else Got(v[|v| - 1]);
      }
      return Got("");
    }

    method GetMany(key: string) returns (values: seq<string>)
      modifies this`cache
      ensures View() == old(View()) && values == if key in View() then View()[key] else []
    {
      var c := Cached();
      return if key in c then c[key] else [];
    }

    method Set(key: string, value: string)
      modifies this`cache
      ensures View() == old(View())[key := [value]]
    {
      var c := Cached();
      cache := Some(c[key := [value]]);
    }

    method SetMany(key: string, values: seq<string>)
      modifies this`cache
      ensures View() == old(View())[key := values]
    {
      var c := Cached();
      cache := Some(c[key := values]);
    }
  }

  /** The keys that occur in the pairs, each with its values; nothing for a wrong tag. */
  ghost function ViewOf(scanned: Scanned): map<string, seq<string>> {
    if scanned.Wrong? then map[]
    else map i | 0 <= i < |scanned.pairs| :: scanned.pairs[i].0 := ValuesOf(scanned.pairs, scanned.pairs[i].0)
  }

  lemma {:induction false} Occurs(pairs: seq<(string, string)>, key: string)
    ensures ValuesOf(pairs, key) != [] <==> exists i :: 0 <= i < |pairs| && pairs[i].0 == key
  {
    if |pairs| > 0 {
      Occurs(pairs[..|pairs| - 1], key);
    }
  }

  lemma ViewCollects(result: Result, scanned: Scanned)
    requires ScannedInto(result, scanned)
    ensures ViewOf(scanned) == if result.Ok? then result.cache else map[]
  {
    if scanned.Pairs? {
      forall key
        ensures key in ViewOf(scanned) <==> key in result.cache
      {
        Occurs(scanned.pairs, key);
      }
    }
  }

  // ----- scanning what was printed -----

  /** A pair as it is printed, behind some spaces. */
  datatype Item = Item(gap: nat, key: string, text: string, value: string)

  ghost predicate IsKey(key: string) {
    forall i :: 0 <= i < |key| ==> IsKeyChar(key[i])
  }

  /** A text between quotes that no earlier quote or newline cuts short. */
  ghost predicate IsClosed(text: string) {
    |text| >= 2 && text[0] == '"' && ClosingQuote(text, 1) == At(|text| - 1)
  }

  function Gap(n: nat): (s: string)
    ensures |s| == n
  {
    seq(n, _ => ' ')
  }

  function PrintItem(item: Item): string {
    Gap(item.gap) + (item.key + (":" + item.text))
  }

  function Print(items: seq<Item>): string {
    if |items| == 0 then "" else PrintItem(items[0]) + Print(items[1..])
  }

  function PairsOf(items: seq<Item>): seq<(string, string)> {
    seq(|items|, i requires 0 <= i < |items| => (items[i].key, items[i].value))
  }

  ghost predicate Printable(item: Item, unquote: string -> Option<string>) {
    IsKey(item.key) && IsClosed(item.text) && unquote(item.text) == Some(item.value)
  }

  lemma {:induction false} SpacesOfGap(n: nat, rest: string)
    requires |rest| > 0 && rest[0] != ' '
    ensures Spaces(Gap(n) + rest) == n
  {
    if n == 0 {
      assert Gap(0) + rest == rest;
    } else {
      assert (Gap(n) + rest)[1..] == Gap(n - 1) + rest;
      SpacesOfGap(n - 1, rest);
    }
  }

  lemma {:induction false} KeyLengthOf(key: string, rest: string)
    requires IsKey(key) && |rest| > 0 && rest[0] == ':'
    ensures KeyLength(key + rest) == |key|
  {
    if |key| == 0 {
      EmptyFront(rest);
    } else {
      JoinTail(key, rest);
      KeyLengthOf(key[1..], rest);
    }
  }

  lemma {:induction false} ClosingStays(text: string, rest: string, i: nat)
    requires ClosingQuote(text, i).At?
    ensures ClosingQuote(text + rest, i) == ClosingQuote(text, i)
    decreases |text| - i
  {
    if text[i] != '"' {
      ClosingStays(text, rest, if text[i] == '\\' then i + 2 else i + 1);
    }
  }

  lemma GapPart(gap: nat, w: string)
    requires |w| > 0 && w[0] != ' '
    ensures Spaces(Gap(gap) + w) == gap && (Gap(gap) + w)[gap..] == w
  {
    SpacesOfGap(gap, w);
    JoinFront(Gap(gap), w);
  }

  lemma KeyPart(key: string, t: string)
    requires IsKey(key) && |t| > 0
    ensures var w := key + (":" + t);
            && w[0] != ' ' && KeyLength(w) == |key| && w[|key|] == ':' && w[|key| + 1] == t[0]
            && w[..|key|] == key && w[|key| + 1..] == t
  {
    KeyLengthOf(key, ":" + t);
    hide KeyLength;
    var w := key + (":" + t);
    assert w[0] == if |key| == 0 then ':' else key[0];
    assert w == (key + ":") + t;
    JoinFront(key + ":", t);
    JoinFront(key, ":" + t);
  }

  lemma TextPart(text: string, rest: string)
    requires IsClosed(text)
    ensures var t := text + rest;
            && |t| > 0 && t[0] == '"' && ClosingQuote(t, 1) == At(|text| - 1)
            && t[..|text|] == text && t[|text|..] == rest
  {
    ClosingStays(text, rest, 1);
    hide ClosingQuote;
    JoinFront(text, rest);
  }

  lemma ItemJoined(item: Item, rest: string)
    ensures PrintItem(item) + rest == Gap(item.gap) + (item.key + (":" + (item.text + rest)))
  {
    hide Gap;
    Regroup(Gap(item.gap), item.key + (":" + item.text), rest);
    Regroup(item.key, ":" + item.text, rest);
    Regroup(":", item.text, rest);
  }

  /** Where the parts of a printed item are. */
  lemma PrintedParts(item: Item, rest: string)
    requires IsKey(item.key) && IsClosed(item.text)
    ensures var (v, w, t) := (PrintItem(item) + rest, item.key + (":" + (item.text + rest)), item.text + rest);
            && Spaces(v) == item.gap && v[item.gap..] == w && KeyLength(w) == |item.key|
            && w[|item.key|] == ':' && w[|item.key| + 1] == '"'
            && w[..|item.key|] == item.key && w[|item.key| + 1..] == t
            && ClosingQuote(t, 1) == At(|item.text| - 1)
            && t[..|item.text|] == item.text && t[|item.text|..] == rest
  {
    hide *;
    ItemJoined(item, rest);
    TextPart(item.text, rest);
    KeyPart(item.key, item.text + rest);
    GapPart(item.gap, item.key + (":" + (item.text + rest)));
  }

  lemma FirstPrinted(item: Item, rest: string, unquote: string -> Option<string>)
    requires Printable(item, unquote)
    ensures FirstPair(PrintItem(item) + rest, unquote) == Pair(item.key, item.value, rest)
  {
    PrintedParts(item, rest);
    hide Spaces, KeyLength, ClosingQuote, PrintItem;
  }

  lemma MeaningOfPair(v: string, unquote: string -> Option<string>, name: string, value: string, rest: string)
    requires FirstPair(v, unquote) == Pair(name, value, rest)
    ensures Meaning(v, unquote) == After([(name, value)], Meaning(rest, unquote))
  {
    hide FirstPair;
  }

  lemma PairsNext(items: seq<Item>)
    requires |items| > 0
    ensures PairsOf(items) == [(items[0].key, items[0].value)] + PairsOf(items[1..])
  {}

  /** Scanning the printed form of any pairs, with any spaces between them, gives them back. */
  lemma {:induction false} PrintedMeaning(items: seq<Item>, unquote: string -> Option<string>)
    requires forall i :: 0 <= i < |items| ==> Printable(items[i], unquote)
    ensures Meaning(Print(items), unquote) == Pairs(PairsOf(items))
  {
    if |items| == 0 {
      NothingLeft(Pairs([]), unquote);
    } else {
      FirstPrinted(items[0], Print(items[1..]), unquote);
      PairsNext(items);
      PrintedMeaning(items[1..], unquote);
      hide FirstPair, Meaning, PairsOf, PrintItem;
      MeaningOfPair(Print(items), unquote, items[0].key, items[0].value, Print(items[1..]));
    }
  }

  // ----- which tags are accepted -----

  ghost predicate AllPrintable(items: seq<Item>, unquote: string -> Option<string>) {
    forall i :: 0 <= i < |items| ==> Printable(items[i], unquote)
  }

  /** Printed pairs in front of any text are scanned first. */
  lemma {:induction false} PrintedFirst(items: seq<Item>, rest: string, unquote: string -> Option<string>)
    requires AllPrintable(items, unquote)
    ensures Meaning(Print(items) + rest, unquote) == After(PairsOf(items), Meaning(rest, unquote))
  {
    if |items| == 0 {
      assert "" + rest == rest;
      NothingLeft(Meaning(rest, unquote), unquote);
      assert PairsOf(items) == [];
    } else {
      var more := Print(items[1..]) + rest;
      assert Print(items) + rest == PrintItem(items[0]) + more by {
        Regroup(PrintItem(items[0]), Print(items[1..]), rest);
      }
      FirstPrinted(items[0], more, unquote);
      PairsNext(items);
      PrintedFirst(items[1..], rest, unquote);
      hide FirstPair, Meaning, PairsOf, PrintItem, Print;
      MeaningOfPair(Print(items) + rest, unquote, items[0].key, items[0].value, more);
      AfterTwice([(items[0].key, items[0].value)], PairsOf(items[1..]), Meaning(rest, unquote));
    }
  }

  lemma {:induction false} OnlyGap(n: nat)
    ensures Spaces(Gap(n)) == n
  {
    if n > 0 {
      assert Gap(n)[1..] == Gap(n - 1);
      OnlyGap(n - 1);
    }
  }

  lemma GapOf(v: string)
    ensures v == Gap(Spaces(v)) + v[Spaces(v)..]
  {
    var n := Spaces(v);
    assert forall i :: 0 <= i < n ==> v[i] == Gap(n)[i];
    Cut(v, n);
    assert v[..n] == Gap(n);
  }

  lemma {:induction false} ClosingCut(t: string, i: nat)
    requires ClosingQuote(t, i).At?
    ensures var j := ClosingQuote(t, i).i; ClosingQuote(t[..j + 1], i) == At(j)
    decreases |t| - i
  {
    var j := ClosingQuote(t, i).i;
    if t[i] != '"' {
      ClosingCut(t, if t[i] == '\\' then i + 2 else i + 1);
      assert t[..j + 1][i] == t[i];
    }
  }

  /** The parts of a pair that was scanned. */
  lemma ScannedParts(v: string, unquote: string -> Option<string>)
    returns (key: string, text: string, rest: string)
    requires FirstPair(v, unquote).Pair?
    ensures v == Gap(Spaces(v)) + (key + (":" + (text + rest)))
    ensures IsKey(key) && |text| >= 2 && text[0] == '"' && ClosingQuote(text + rest, 1) == At(|text| - 1)
    ensures unquote(text).Some? && FirstPair(v, unquote) == Pair(key, unquote(text).value, rest)
  {
    GapOf(v);
    var w := v[Spaces(v)..];
    assert w != "";
    var k := KeyLength(w);
    key := w[..k];
    assert IsKey(key);
    hide IsKeyChar, Spaces, KeyLength, Gap, PairAt, ClosingQuote, IsKey;
    text, rest := ScannedAt(w, k, unquote);
  }

  lemma ScannedAt(w: string, k: nat, unquote: string -> Option<string>) returns (text: string, rest: string)
    requires k <= |w| && PairAt(w, k, unquote).Pair?
    ensures w == w[..k] + (":" + (text + rest))
    ensures |text| >= 2 && text[0] == '"' && ClosingQuote(text + rest, 1) == At(|text| - 1)
    ensures unquote(text).Some? && PairAt(w, k, unquote) == Pair(w[..k], unquote(text).value, rest)
  {
    hide ClosingQuote;
    var t := w[k + 1..];
    var i := ClosingQuote(t, 1).i;
    text, rest := t[..i + 1], t[i + 1..];
    ColonAt(w, k);
    Cut(t, i + 1);
  }

  /** A pair that was scanned was printed. */
  lemma PairIsPrinted(v: string, unquote: string -> Option<string>) returns (item: Item)
    requires FirstPair(v, unquote).Pair?
    ensures Printable(item, unquote)
    ensures var round := FirstPair(v, unquote);
            item.key == round.name && item.value == round.value && v == PrintItem(item) + round.rest
  {
    var key, text, rest := ScannedParts(v, unquote);
    hide FirstPair, Spaces, Gap, PrintItem, IsKey;
    item := Item(Spaces(v), key, text, unquote(text).value);
    ClosingCut(text + rest, 1);
    hide ClosingQuote;
    JoinFront(text, rest);
    MakePrintable(item, unquote);
    ItemJoined(item, rest);
  }

  lemma MakePrintable(item: Item, unquote: string -> Option<string>)
    requires IsKey(item.key) && unquote(item.text) == Some(item.value)
    requires |item.text| >= 2 && item.text[0] == '"' && ClosingQuote(item.text, 1) == At(|item.text| - 1)
    ensures Printable(item, unquote)
  {
    hide ClosingQuote, IsKey;
  }

  lemma ColonAt(w: string, k: nat)
    requires k < |w| && w[k] == ':'
    ensures w == w[..k] + (":" + w[k + 1..])
  {}

  /** The tags that are accepted are exactly the printed ones, perhaps with spaces behind, and
      they mean the pairs that were printed. */
  lemma {:induction false} AcceptedIsPrinted(v: string, unquote: string -> Option<string>) returns (items: seq<Item>)
    requires Meaning(v, unquote).Pairs?
    ensures AllPrintable(items, unquote) && Meaning(v, unquote) == Pairs(PairsOf(items))
    ensures exists n :: v == Print(items) + Gap(n)
    decreases |v|
  {
    hide *;
    StopMeans(v, unquote);
    NothingPrinted();
    var round := FirstPair(v, unquote);
    if round.End? {
      items := [];
      EndIsGap(v, unquote);
      EmptyFront(Gap(|v|));
    } else {
      var item := PairIsPrinted(v, unquote);
      MeaningOfPair(v, unquote, round.name, round.value, round.rest);
      AfterWrong([(round.name, round.value)], Meaning(round.rest, unquote));
      var more := AcceptedIsPrinted(round.rest, unquote);
      items := [item] + more;
      PrintMore(item, more, unquote);
      AfterPairs(item, more);
      var n :| round.rest == Print(more) + Gap(n);
      Regroup(PrintItem(item), Print(more), Gap(n));
      assert v == Print(items) + Gap(n);
    }
  }

  lemma AfterPairs(item: Item, more: seq<Item>)
    ensures After([(item.key, item.value)], Pairs(PairsOf(more))) == Pairs(PairsOf([item] + more))
  {
    assert ([item] + more)[1..] == more;
    PairsNext([item] + more);
  }

  lemma EndIsGap(v: string, unquote: string -> Option<string>)
    requires FirstPair(v, unquote).End?
    ensures v == Gap(|v|) && Meaning(v, unquote) == Pairs(PairsOf([]))
  {
    EndIsSpaces(v, unquote);
    GapOf(v);
    hide FirstPair, Spaces, Gap;
    assert v[Spaces(v)..] == "";
    assert PairsOf([]) == [];
    assert Gap(Spaces(v)) + "" == Gap(Spaces(v));
  }

  lemma EndIsSpaces(v: string, unquote: string -> Option<string>)
    requires FirstPair(v, unquote).End?
    ensures Spaces(v) == |v|
  {
    hide Spaces, KeyLength;
    PairNotEnd(v[Spaces(v)..], KeyLength(v[Spaces(v)..]), unquote);
    hide PairAt;
  }

  lemma PairNotEnd(w: string, k: nat, unquote: string -> Option<string>)
    requires k <= |w|
    ensures !PairAt(w, k, unquote).End?
  {
    hide ClosingQuote;
  }

  lemma GapMeansNothing(n: nat, unquote: string -> Option<string>)
    ensures Meaning(Gap(n), unquote) == Pairs([])
  {
    OnlyGap(n);
    hide Spaces, Gap, KeyLength, ClosingQuote;
    assert Gap(n)[n..] == "";
  }

  lemma PrintedIsAccepted(items: seq<Item>, n: nat, unquote: string -> Option<string>)
    requires AllPrintable(items, unquote)
    ensures Meaning(Print(items) + Gap(n), unquote) == Pairs(PairsOf(items))
  {
    PrintedFirst(items, Gap(n), unquote);
    GapMeansNothing(n, unquote);
    assert PairsOf(items) + [] == PairsOf(items);
  }

  // ----- what is wrong with the others -----

  /** Text that is no pair, by its own shape: k is where its key ends. */
  ghost predicate Broken(w: string, k: nat, problem: Problem, unquote: string -> Option<string>) {
    && 0 < |w| && k <= |w| && w[0] != ' ' && IsKey(w[..k])
    && match problem
       case EndOfTag => k == |w|
       case ColonExpected => k < |w| && (w[k] == ' ' || w[k] == '"')
       case QuoteExpectedAtEnd => k + 1 == |w| && w[k] == ':'
       case QuoteExpected => k + 1 < |w| && w[k] == ':' && w[k + 1] != '"'
       case NewlineInValue => Opens(w, k) && ClosingQuote(w[k + 1..], 1) == Newline
       case EndOfValueExpected => Opens(w, k) && ClosingQuote(w[k + 1..], 1) == Missing
       case MalformedValue =>
         && Opens(w, k) && ClosingQuote(w[k + 1..], 1).At?
         && unquote(w[k + 1..][..ClosingQuote(w[k + 1..], 1).i + 1]).None?
  }

  ghost predicate Opens(w: string, k: nat) {
    k + 1 < |w| && w[k] == ':' && w[k + 1] == '"'
  }

  lemma {:induction false} KeyLengthIs(w: string, k: nat)
    requires k <= |w| && IsKey(w[..k]) && (k < |w| ==> !IsKeyChar(w[k]))
    ensures KeyLength(w) == k
  {
    if k > 0 {
      assert w[..k][0] == w[0];
      assert w[1..][..k - 1] == w[..k][1..];
      KeyLengthIs(w[1..], k - 1);
    }
  }

  lemma StopIsBroken(v: string, unquote: string -> Option<string>)
    requires FirstPair(v, unquote).Stop?
    ensures var w := v[Spaces(v)..];
            |w| > 0 && w[0] != ' ' && Broken(w, KeyLength(w), FirstPair(v, unquote).problem, unquote)
  {
    hide ClosingQuote, Spaces, KeyLength;
    var w := v[Spaces(v)..];
    assert w != "" && w[0] != ' ';
    assert IsKey(w[..KeyLength(w)]);
  }

  lemma BrokenStops(v: string, unquote: string -> Option<string>, k: nat, problem: Problem)
    requires Broken(v[Spaces(v)..], k, problem, unquote)
    ensures FirstPair(v, unquote) == Stop(problem)
  {
    var w := v[Spaces(v)..];
    KeyLengthIs(w, k);
    BrokenAt(w, k, problem, unquote);
    hide ClosingQuote, Spaces, KeyLength, IsKey, PairAt;
  }

  lemma BrokenAt(w: string, k: nat, problem: Problem, unquote: string -> Option<string>)
    requires Broken(w, k, problem, unquote)
    ensures PairAt(w, k, unquote) == Stop(problem)
  {
    hide ClosingQuote, IsKey;
  }

  lemma GapBehind(n: nat, w: string)
    requires |w| > 0 && w[0] != ' '
    ensures Spaces(Gap(n) + w) == n && (Gap(n) + w)[n..] == w
  {
    GapPart(n, w);
  }

  lemma StopMeans(v: string, unquote: string -> Option<string>)
    ensures FirstPair(v, unquote).Stop? ==> Meaning(v, unquote) == Wrong(FirstPair(v, unquote).problem)
    ensures FirstPair(v, unquote).End? ==> Meaning(v, unquote).Pairs?
  {
    hide FirstPair;
  }

  /** A tag is reported to have a problem exactly if it goes on with text of that problem behind
      printed pairs and spaces. */
  lemma {:induction false} WrongIsBroken(v: string, unquote: string -> Option<string>)
      returns (items: seq<Item>, n: nat, w: string, k: nat)
    requires Meaning(v, unquote).Wrong?
    ensures AllPrintable(items, unquote) && v == Print(items) + (Gap(n) + w) && |w| > 0 && w[0] != ' '
    ensures Broken(w, k, Meaning(v, unquote).problem, unquote)
    decreases |v|
  {
    hide *;
    StopMeans(v, unquote);
    var round := FirstPair(v, unquote);
    if round.Stop? {
      StopIsBroken(v, unquote);
      items, n, w := [], Spaces(v), v[Spaces(v)..];
      k := KeyLength(w);
      GapOf(v);
      NothingPrinted();
      EmptyFront(Gap(n) + w);
    } else {
      var item := PairIsPrinted(v, unquote);
      MeaningOfPair(v, unquote, round.name, round.value, round.rest);
      AfterWrong([(round.name, round.value)], Meaning(round.rest, unquote));
      var more;
      more, n, w, k := WrongIsBroken(round.rest, unquote);
      items := [item] + more;
      PrintMore(item, more, unquote);
      Regroup(PrintItem(item), Print(more), Gap(n) + w);
    }
  }

  lemma NothingPrinted()
    ensures Print([]) == "" && forall unquote :: AllPrintable([], unquote)
  {}

  lemma AfterWrong(pairs: seq<(string, string)>, scanned: Scanned)
    ensures After(pairs, scanned).Wrong? <==> scanned.Wrong?
    ensures scanned.Wrong? ==> After(pairs, scanned) == scanned
  {}

  lemma PrintMore(item: Item, more: seq<Item>, unquote: string -> Option<string>)
    ensures Print([item] + more) == PrintItem(item) + Print(more)
    ensures Printable(item, unquote) && AllPrintable(more, unquote) ==> AllPrintable([item] + more, unquote)
  {
    assert ([item] + more)[1..] == more;
    hide PrintItem, Printable;
  }

  lemma BrokenIsWrong(items: seq<Item>, n: nat, w: string, k: nat, problem: Problem, unquote: string -> Option<string>)
    requires AllPrintable(items, unquote) && Broken(w, k, problem, unquote)
    ensures Meaning(Print(items) + (Gap(n) + w), unquote) == Wrong(problem)
  {
    PrintedFirst(items, Gap(n) + w, unquote);
    GapBehind(n, w);
    BrokenStops(Gap(n) + w, unquote, k, problem);
    StopMeans(Gap(n) + w, unquote);
    hide FirstPair, Meaning, Broken, Gap, Spaces;
  }

  // ----- where a value closes -----

  /** How many backslashes stand in a row before place j, down to place start. */
  function Backslashes(v: string, start: nat, j: nat): nat
    requires j <= |v|
  {
    if j <= start || v[j - 1] != '\\' then 0 else 1 + Backslashes(v, start, j - 1)
  }

  /** A quote or a newline that no backslash hides, or only one that is hidden itself. */
  predicate Live(v: string, start: nat, j: nat) {
    start <= j < |v| && (v[j] == '"' || v[j] == '\n') && Backslashes(v, start, j) % 2 == 0
  }

  lemma {:induction false} PlainBefore(v: string, start: nat, j: nat)
    requires start < j <= |v| && v[start] != '\\'
    ensures Backslashes(v, start, j) == Backslashes(v, start + 1, j)
  {
    if j > start + 1 && v[j - 1] == '\\' {
      PlainBefore(v, start, j - 1);
    }
  }

  lemma {:induction false} HiddenBefore(v: string, start: nat, j: nat)
    requires start + 2 <= j <= |v| && v[start] == '\\'
    ensures Backslashes(v, start, j) % 2 == Backslashes(v, start + 2, j) % 2
  {
    if j == start + 2 {
      assert Backslashes(v, start, start) == 0;
      assert Backslashes(v, start, start + 1) == 1;
    } else if v[j - 1] == '\\' {
      HiddenBefore(v, start, j - 1);
    }
  }

  /** A value closes at its first live quote, unless there is a live newline before. */
  lemma {:induction false} ClosesAtLive(v: string, start: nat)
    ensures match ClosingQuote(v, start)
            case At(i) => Live(v, start, i) && v[i] == '"' && forall j :: start <= j < i ==> !Live(v, start, j)
            case Newline =>
              exists i: nat :: Live(v, start, i) && v[i] == '\n' && forall j :: start <= j < i ==> !Live(v, start, j)
            case Missing => forall j: nat :: !Live(v, start, j)
    decreases |v| - start
  {
    if start < |v| {
      assert Backslashes(v, start, start) == 0;
      if v[start] == '"' {
      } else if v[start] == '\n' {
        assert Live(v, start, start);
      } else {
        var next := if v[start] == '\\' then start + 2 else start + 1;
        ClosesAtLive(v, next);
        forall j | start <= j < |v|
          ensures Live(v, start, j) <==> Live(v, next, j)
        {
          if j >= next {
            if v[start] == '\\' {
              HiddenBefore(v, start, j);
            } else {
              PlainBefore(v, start, j);
            }
          } else if j == start + 1 {
            assert Backslashes(v, start, start + 1) == 1 + Backslashes(v, start, start);
          }
        }
        hide Live, Backslashes;
      }
    }
  }

  lemma FirstView(tag: Tag)
    requires tag.cache.None?
    ensures tag.View() == ViewOf(Meaning(tag.value, tag.unquote))
  {}

  lemma ViewOfPairs(pairs: seq<(string, string)>, key: string)
    ensures var view := ViewOf(Pairs(pairs));
            && (key in view <==> ValuesOf(pairs, key) != [])
            && (key in view ==> view[key] == ValuesOf(pairs, key))
  {
    Occurs(pairs, key);
  }

  /** For the accessors: a key of a printed tag has its values in order, the last one first to
      hand; other keys have none. */
  method ReadBack(items: seq<Item>, unquote: string -> Option<string>, key: string)
    returns (many: seq<string>, last: Got)
    requires forall i :: 0 <= i < |items| ==> Printable(items[i], unquote)
    ensures many == ValuesOf(PairsOf(items), key)
    ensures last == Got(if many == [] then "" else many[|many| - 1])
  {
    PrintedMeaning(items, unquote);
    ViewOfPairs(PairsOf(items), key);
    hide *;
    var tag := new Tag(Print(items), unquote);
    FirstView(tag);
    many := tag.GetMany(key);
    last := tag.Get(key);
  }

  // ----- a way to quote -----

  function EscapeChar(c: char): string {
    if c == '"' then "\\\"" else if c == '\\' then "\\\\" else if c == '\n' then "\\n" else [c]
  }

  function Escape(s: string): string {
    if |s| == 0 then "" else EscapeChar(s[0]) + Escape(s[1..])
  }

  function Quote(s: string): string {
    "\"" + (Escape(s) + "\"")
  }

  /** The one-letter escapes of an interpreted string literal. */
  function Unescaped(c: char): Option<char> {
    match c
    case 'n' => Some('\n')
    case 't' => Some('\t')
    case 'r' => Some('\r')
    case '\\' => Some('\\')
    case '"' => Some('"')
    case _ => None
  }

  function UnquoteFrom(s: string): Option<string>
    decreases |s|
  {
    if |s| == 0 || s[0] == '\n' then None
    else if s[0] == '"' then (if |s| == 1 then Some("") else None)
    else if s[0] == '\\' then
      if |s| < 2 || Unescaped(s[1]).None? then None else Prepend(Unescaped(s[1]).value, UnquoteFrom(s[2..]))
    else Prepend(s[0], UnquoteFrom(s[1..]))
  }

  function Prepend(c: char, s: Option<string>): Option<string> {
    if s.None? then None else Some([c] + s.value)
  }

  function Unquote(s: string): Option<string> {
    if |s| < 2 || s[0] != '"' then None else UnquoteFrom(s[1..])
  }

  lemma UnquotePlain(c: char, rest: string)
    requires |rest| > 0 && c != '"' && c != '\\' && c != '\n'
    ensures UnquoteFrom([c] + rest) == Prepend(c, UnquoteFrom(rest))
  {
    assert ([c] + rest)[1..] == rest;
  }

  lemma UnquoteBackslash(c: char, d: char, rest: string)
    requires Unescaped(d) == Some(c)
    ensures UnquoteFrom(['\\', d] + rest) == Prepend(c, UnquoteFrom(rest))
  {
    assert (['\\', d] + rest)[2..] == rest;
  }

  lemma UnquoteOne(c: char, rest: string)
    requires |rest| > 0
    ensures UnquoteFrom(EscapeChar(c) + rest) == Prepend(c, UnquoteFrom(rest))
  {
    hide UnquoteFrom, Prepend;
    if c == '"' || c == '\\' {
      UnquoteBackslash(c, c, rest);
    } else if c == '\n' {
      UnquoteBackslash(c, 'n', rest);
    } else {
      UnquotePlain(c, rest);
    }
  }

  lemma {:induction false} UnquoteEscaped(s: string)
    ensures UnquoteFrom(Escape(s) + "\"") == Some(s)
  {
    if |s| > 0 {
      UnquoteEscaped(s[1..]);
      var rest := Escape(s[1..]) + "\"";
      UnquoteOne(s[0], rest);
      hide UnquoteFrom, EscapeChar;
      Regroup(EscapeChar(s[0]), Escape(s[1..]), "\"");
      assert s == [s[0]] + s[1..];
    }
  }

  lemma {:induction false} ClosedEscape(front: string, s: string)
    ensures var t := front + (Escape(s) + "\"");
            ClosingQuote(t, |front|) == At(|t| - 1)
    decreases |s|
  {
    var t := front + (Escape(s) + "\"");
    if |s| > 0 {
      var e := EscapeChar(s[0]);
      ClosedEscape(front + e, s[1..]);
      assert t == front + e + (Escape(s[1..]) + "\"");
    } else {
      assert t == front + "\"";
    }
  }

  /** Quoting any value this way makes it printable under any key, and unquoting undoes it. */
  lemma QuotePrints(gap: nat, key: string, value: string)
    requires IsKey(key)
    ensures Printable(Item(gap, key, Quote(value), value), Unquote)
  {
    UnquoteEscaped(value);
    ClosedEscape("\"", value);
    assert Quote(value)[1..] == Escape(value) + "\"";
  }
}
