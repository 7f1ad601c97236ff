/** Wrapping of a text at spaces, or inside a word with a hyphen where there is none. */
module WrapText {
  import opened Options
  import opened Seqs

  predicate IsSpace(c: char) {
    c == ' ' || c == '\t' || c == '\n' || c == '\r' || c as int in {0x0B, 0x0C, 0x85, 0xA0}
  }

  function TrimLeft(s: string): (t: string)
    ensures |t| <= |s| && t == s[|s| - |t|..] && (|t| > 0 ==> !IsSpace(t[0]))
    ensures |s| > 0 && !IsSpace(s[|s| - 1]) ==> |t| > 0 && t[|t| - 1] == s[|s| - 1]
  {
    if |s| > 0 && IsSpace(s[0]) then TrimLeft(s[1..]) else s
  }

  function TrimRight(s: string): (t: string)
    ensures |t| <= |s| && t == s[..|t|] && (|t| > 0 ==> !IsSpace(t[|t| - 1]))
    ensures |s| > 0 && !IsSpace(s[0]) ==> |t| > 0 && t[0] == s[0]
  {
    if |s| > 0 && IsSpace(s[|s| - 1]) then TrimRight(s[..|s| - 1]) else s
  }

  predicate IsTrimmed(s: string) {
    |s| > 0 ==> !IsSpace(s[0]) && !IsSpace(s[|s| - 1])
  }

  /** strings.TrimSpace. */
  function Trim(s: string): (t: string)
    ensures |t| <= |s| && IsTrimmed(t)
    ensures |s| > 0 && !IsSpace(s[0]) ==> |t| > 0
  {
    TrimLeft(TrimRight(s))
  }

  /** strings.LastIndex of one space. */
  function LastSpace(s: string): (pos: int)
    ensures -1 <= pos < |s| && (pos >= 0 ==> s[pos] == ' ')
    ensures forall i :: pos < i < |s| ==> s[i] != ' '
  {
    if |s| == 0 then -1 else if s[|s| - 1] == ' ' then |s| - 1 else LastSpace(s[..|s| - 1])
  }

  // ----- what wrapping means -----

  /** A stretch of the text on one line; cut inside a word, it gets a hyphen. */
  datatype Piece = Piece(text: string, cut: bool)

  function BreakAt(s: string, l: nat): (pos: nat)
    requires 2 <= l <= |s| && !IsSpace(s[0])
    ensures 1 <= pos < l
  {
    var pos := LastSpace(s[..l]);
    if pos < 0 then l - 1 else pos
  }

  function PiecesOf(s: string, l: nat): seq<Piece>
    requires l >= 2 && IsTrimmed(s)
    decreases |s|
  {
    if s == "" then []
    else if |s| <= l then [Piece(s, false)]
    else
      var pos := BreakAt(s, l);
      [Piece(Trim(s[..pos]), LastSpace(s[..l]) < 0)] + PiecesOf(Trim(s[pos..]), l)
  }

  function PieceText(piece: Piece): string {
    piece.text + if piece.cut then "-\n" else ""
  }

  function Render(pieces: seq<Piece>, prefix: string): string {
    if |pieces| == 0 then ""
    else
      var n := |pieces| - 1;
      if n == 0 then PieceText(pieces[0])
      else Render(pieces[..n], prefix) + ("\n" + prefix) + PieceText(pieces[n])
  }

  // ----- wrapText -----

  /** What one round of the loop leaves of a text that is too long, unless it slices out of
      range. */
  function Round(s: string, l: int): Option<string>
    requires l < |s|
  {
    if l < 0 then None
    else
      var found := LastSpace(s[..l]);
      var pos := if found < 0 then l - 1 else found;
      if pos < 0 then None else Some(Trim(s[pos..]))
  }

  /** One round of the loop: the next line, what ends it, and what is left. */
  method SplitLine(s: string, l: nat) returns (line: string, suffix: string, rest: string)
    requires 2 <= l < |s| && IsTrimmed(s)
    ensures |line| > 0 && |rest| < |s| && IsTrimmed(rest)
    ensures PiecesOf(s, l) == [Piece(line, suffix != "")] + PiecesOf(rest, l)
    ensures Round(s, l) == Some(rest)
    ensures suffix == "" || suffix == "-\n"
  {
    suffix := "";
    var pos := LastSpace(s[..l]);
    if pos < 0 {
      pos := l - 1;
      suffix := "-\n";
    }
    assert pos == BreakAt(s, l);
    assert s[..pos][0] == s[0];
    line, rest := Trim(s[..pos]), Trim(s[pos..]);
    hide Trim, LastSpace, BreakAt, IsSpace;
  }

  /** wrapText, for every text it can wrap: a width of at least two, or a text that fits. */
  method Wrap(text: string, l: int, prefix: string) returns (ret: string)
    requires l >= 2 || |Trim(text)| <= l
    ensures ret == if l >= 2 then Render(PiecesOf(Trim(text), l), prefix) else Trim(text)
  {
    hide *;
    ret := "";
    var s := Trim(text);
    ghost var done: seq<Piece> := [];
    ghost var all := if l >= 2 then PiecesOf(s, l) else [Piece(s, false)];
    EmptyFront(all);
    RenderNothing(prefix);
    while |s| > l
      invariant IsTrimmed(s) && (|s| > l ==> l >= 2)
      invariant l >= 2 ==> done + PiecesOf(s, l) == all
      invariant l < 2 ==> done == [] && s == Trim(text)
      invariant ret == Render(done, prefix) && (ret == "" <==> done == [])
      decreases |s|
    {
      var line, suffix, rest := SplitLine(s, l);
      ghost var piece := Piece(line, suffix != "");
      Regroup(done, [piece], PiecesOf(rest, l));
      RenderNext(done, piece, prefix);
      PieceTextIs(piece);
      if |ret| != 0 {
        ret := ret + ("\n" + prefix);
      }
      ret := ret + (line + suffix);
      s := rest;
      done := done + [piece];
    }
    if l >= 2 {
      PiecesLast(s, l);
    }
    RenderNext(done, Piece(s, false), prefix);
    PieceTextIs(Piece(s, false));
    if |s| > 0 {
      if |ret| != 0 {
        ret := ret + ("\n" + prefix);
      }
      ret := ret + s;
    }
    assert done + [] == done;
  }

  lemma RenderNothing(prefix: string)
    ensures Render([], prefix) == ""
  {}

  lemma PieceTextIs(piece: Piece)
    ensures PieceText(piece) == piece.text + if piece.cut then "-\n" else ""
    ensures !piece.cut ==> PieceText(piece) == piece.text
  {}

  lemma PiecesLast(s: string, l: nat)
    requires l >= 2 && IsTrimmed(s) && |s| <= l
    ensures PiecesOf(s, l) == if s == "" then [] else [Piece(s, false)]
  {}

  lemma RenderNext(done: seq<Piece>, piece: Piece, prefix: string)
    ensures Render(done + [piece], prefix)
         == (if done == [] then "" else Render(done, prefix) + ("\n" + prefix)) + PieceText(piece)
  {
    assert (done + [piece])[..|done|] == done;
  }

  // ----- when the loop ends -----

  /** What is left of the text after so many rounds, as long as the loop goes on. */
  function State(text: string, l: int, rounds: nat): (state: Option<string>)
    ensures state.Some? ==> IsTrimmed(state.value)
  {
    if rounds == 0 then Some(Trim(text))
    else
      match State(text, l, rounds - 1)
      case None => None
      case Some(s) => if |s| <= l then Some(s) else Round(s, l)
  }

  predicate Ends(text: string, l: int, rounds: nat) {
    State(text, l, rounds).Some? && |State(text, l, rounds).value| <= l
  }

  predicate Fails(text: string, l: int, rounds: nat) {
    State(text, l, rounds).None?
  }

  lemma RoundShortens(s: string, l: int)
    requires IsTrimmed(s) && 2 <= l < |s|
    ensures Round(s, l).Some? && |Round(s, l).value| < |s|
  {
    assert BreakAt(s, l) >= 1;
    hide Trim, LastSpace, IsSpace;
  }

  lemma RoundSticks(s: string, l: int)
    requires IsTrimmed(s) && l < |s| && l < 2
    ensures Round(s, l) == if l == 1 then Some(s) else None
  {
    if l == 1 {
      assert s[..1][0] == s[0] && s[0..] == s;
      assert LastSpace(s[..1]) != 0;
      TrimTrimmed(s);
    } else if l == 0 {
      assert LastSpace(s[..0]) < 0;
    }
  }

  lemma TrimTrimmed(s: string)
    requires IsTrimmed(s)
    ensures Trim(s) == s
  {}

  /** Each round of a wide enough loop shortens the text. */
  lemma {:induction false} WideProgress(text: string, l: int, rounds: nat)
    requires l >= 2
    ensures State(text, l, rounds).Some?
    ensures var s := State(text, l, rounds).value; |s| <= l || |s| + rounds <= |Trim(text)|
  {
    hide Trim, IsTrimmed, Round;
    if rounds > 0 {
      WideProgress(text, l, rounds - 1);
      var s := State(text, l, rounds - 1).value;
      if |s| > l {
        RoundShortens(s, l);
      }
    }
  }

  /** A loop that is too narrow stands still, or fails in its first round. */
  lemma {:induction false} NarrowSticks(text: string, l: int, rounds: nat)
    requires l < 2 && |Trim(text)| > l
    ensures State(text, l, rounds) == if l == 1 || rounds == 0 then Some(Trim(text)) else None
  {
    hide Trim, IsTrimmed, Round;
    if rounds > 0 {
      NarrowSticks(text, l, rounds - 1);
      RoundSticks(Trim(text), l);
    }
  }

  lemma {:induction false} FittingStays(text: string, l: int, rounds: nat)
    requires |Trim(text)| <= l
    ensures State(text, l, rounds) == Some(Trim(text))
  {
    hide Trim, IsTrimmed, Round;
    if rounds > 0 {
      FittingStays(text, l, rounds - 1);
    }
  }

  /** The loop of wrapText ends exactly for a width of at least two, or a text that fits. */
  lemma WrapEnds(text: string, l: int)
    ensures (exists rounds: nat :: Ends(text, l, rounds)) <==> l >= 2 || |Trim(text)| <= l
  {
    hide Trim, State;
    if |Trim(text)| <= l {
      FittingStays(text, l, 0);
      assert Ends(text, l, 0);
    } else if l >= 2 {
      WideProgress(text, l, |Trim(text)| + 1);
      assert Ends(text, l, |Trim(text)| + 1);
    } else {
      forall rounds: nat
        ensures !Ends(text, l, rounds)
      {
        NarrowSticks(text, l, rounds);
      }
    }
  }

  /** It slices out of range exactly for a width of zero or less and a text that does not fit;
      at width one, where neither happens, it goes on for ever. */
  lemma WrapFails(text: string, l: int)
    ensures (exists rounds: nat :: Fails(text, l, rounds)) <==> l <= 0 && |Trim(text)| > l
  {
    hide Trim, State;
    if |Trim(text)| <= l {
      forall rounds: nat
        ensures !Fails(text, l, rounds)
      {
        FittingStays(text, l, rounds);
      }
    } else if l >= 1 {
      forall rounds: nat
        ensures !Fails(text, l, rounds)
      {
        if l >= 2 {
          WideProgress(text, l, rounds);
        } else {
          NarrowSticks(text, l, rounds);
        }
      }
    } else {
      NarrowSticks(text, l, 1);
      assert Fails(text, l, 1);
    }
  }

  // ----- how long the lines are -----

  predicate OneLine(s: string) {
    '\n' !in s
  }

  /** No stretch without a newline is longer than n. */
  ghost predicate LinesWithin(s: string, n: nat) {
    forall i, j :: 0 <= i <= j <= |s| && OneLine(s[i..j]) ==> j - i <= n
  }

  lemma WithinJoined(a: string, b: string, n: nat)
    requires LinesWithin(a, n) && LinesWithin(b, n)
    ensures LinesWithin(a + ("\n" + b), n)
  {
    var s := a + ("\n" + b);
    forall i, j | 0 <= i <= |a| < j <= |s|
      ensures !OneLine(s[i..j])
    {
      assert s[i..j][|a| - i] == '\n';
    }
    forall i, j | 0 <= i <= j <= |s| && OneLine(s[i..j])
      ensures j - i <= n
    {
      if j <= |a| {
        assert s[i..j] == a[i..j];
      } else if i > |a| {
        assert s[i..j] == b[i - |a| - 1..j - |a| - 1];
      }
    }
  }

  lemma ShortWithin(s: string, n: nat)
    requires |s| <= n
    ensures LinesWithin(s, n)
  {}

  /** A piece, however it ends, keeps within the width, behind a prefix or not. */
  ghost predicate PieceFits(piece: Piece, l: nat) {
    |piece.text| + (if piece.cut then 1 else 0) <= l
  }

  lemma PieceWithin(front: string, piece: Piece, l: nat)
    requires PieceFits(piece, l)
    ensures LinesWithin(front + PieceText(piece), |front| + l)
  {
    if piece.cut {
      ShortWithin(front + piece.text + "-", |front| + l);
      ShortWithin("", |front| + l);
      WithinJoined(front + piece.text + "-", "", |front| + l);
      assert front + PieceText(piece) == front + piece.text + "-" + ("\n" + "");
    } else {
      ShortWithin(front + PieceText(piece), |front| + l);
    }
  }

  lemma {:induction false} RenderWithin(pieces: seq<Piece>, prefix: string, l: nat)
    requires forall i :: 0 <= i < |pieces| ==> PieceFits(pieces[i], l)
    ensures LinesWithin(Render(pieces, prefix), |prefix| + l)
  {
    if |pieces| == 1 {
      PieceWithin("", pieces[0], l);
      assert "" + PieceText(pieces[0]) == PieceText(pieces[0]);
    } else if |pieces| > 1 {
      var n := |pieces| - 1;
      RenderWithin(pieces[..n], prefix, l);
      PieceWithin(prefix, pieces[n], l);
      WithinJoined(Render(pieces[..n], prefix), prefix + PieceText(pieces[n]), |prefix| + l);
      assert Render(pieces, prefix) == Render(pieces[..n], prefix) + ("\n" + (prefix + PieceText(pieces[n])));
    }
  }

  lemma {:induction false} PiecesFit(s: string, l: nat)
    requires l >= 2 && IsTrimmed(s)
    ensures forall i :: 0 <= i < |PiecesOf(s, l)| ==> PieceFits(PiecesOf(s, l)[i], l)
    decreases |s|
  {
    if |s| > l {
      PiecesFit(Trim(s[BreakAt(s, l)..]), l);
    }
  }

  // ----- what is lost -----

  /** The characters that are not space. */
  function Ink(s: string): string {
    if |s| == 0 then "" else Ink(s[..|s| - 1]) + if IsSpace(s[|s| - 1]) then "" else [s[|s| - 1]]
  }

  function Texts(pieces: seq<Piece>): string {
    if |pieces| == 0 then "" else pieces[0].text + Texts(pieces[1..])
  }

  lemma {:induction false} InkConcat(a: string, b: string)
    ensures Ink(a + b) == Ink(a) + Ink(b)
  {
    if |b| == 0 {
      assert a + b == a;
    } else {
      InkConcat(a, b[..|b| - 1]);
      assert (a + b)[..|a| + |b| - 1] == a + b[..|b| - 1];
    }
  }

  lemma {:induction false} InkTrimLeft(s: string)
    ensures Ink(TrimLeft(s)) == Ink(s)
  {
    if |s| > 0 && IsSpace(s[0]) {
      InkTrimLeft(s[1..]);
      InkConcat(s[..1], s[1..]);
      assert s == s[..1] + s[1..] && Ink(s[..1]) == "";
    }
  }

  lemma {:induction false} InkTrimRight(s: string)
    ensures Ink(TrimRight(s)) == Ink(s)
  {
    if |s| > 0 && IsSpace(s[|s| - 1]) {
      InkTrimRight(s[..|s| - 1]);
    }
  }

  lemma InkTrim(s: string)
    ensures Ink(Trim(s)) == Ink(s)
  {
    InkTrimRight(s);
    InkTrimLeft(TrimRight(s));
  }

  lemma TextsNext(piece: Piece, pieces: seq<Piece>)
    ensures Texts([piece] + pieces) == piece.text + Texts(pieces)
  {
    assert ([piece] + pieces)[1..] == pieces;
  }

  /** The pieces hold, in order, every character of the text that is not space, and no other. */
  lemma {:induction false} PiecesInk(s: string, l: nat)
    requires l >= 2 && IsTrimmed(s)
    ensures Ink(Texts(PiecesOf(s, l))) == Ink(s)
    decreases |s|
  {
    if |s| <= l {
      assert s != "" ==> Texts([Piece(s, false)]) == s + Texts([]) == s;
    } else {
      var pos := BreakAt(s, l);
      var front, rest := Trim(s[..pos]), Trim(s[pos..]);
      PiecesInk(rest, l);
      InkTrim(s[..pos]);
      InkTrim(s[pos..]);
      InkConcat(s[..pos], s[pos..]);
      Cut(s, pos);
      InkConcat(front, Texts(PiecesOf(rest, l)));
      TextsNext(Piece(front, LastSpace(s[..l]) < 0), PiecesOf(rest, l));
      hide Ink, Texts, Trim, BreakAt, LastSpace, IsSpace;
    }
  }

  // ----- which words are kept -----

  /** The words of a text: its stretches without space. */
  function Words(s: string): (words: seq<string>)
    ensures |s| > 0 && !IsSpace(s[|s| - 1]) ==> |words| > 0
  {
    if |s| == 0 then []
    else
      var front, c := s[..|s| - 1], s[|s| - 1];
      if IsSpace(c) then Words(front)
      else Append(Words(front), |front| > 0 && !IsSpace(front[|front| - 1]), c)
  }

  /** A character more, in the last word or in a new one. */
  function Append(words: seq<string>, within: bool, c: char): (more: seq<string>)
    ensures |more| > 0
  {
    if !within || |words| == 0 then words + [[c]]
    else words[..|words| - 1] + [words[|words| - 1] + [c]]
  }

  lemma AppendJoined(u: seq<string>, v: seq<string>, within: bool, c: char)
    requires within ==> |v| > 0
    ensures Append(u + v, within, c) == u + Append(v, within, c)
    ensures |u| > 0 && |v| > 0 ==> Append(Merge(u, v), within, c) == Merge(u, Append(v, within, c))
  {
    if |u| > 0 && |v| > 0 {
      AppendMerged(u, v, within, c);
    }
  }

  lemma AppendMerged(u: seq<string>, v: seq<string>, within: bool, c: char)
    requires |u| > 0 && |v| > 0
    ensures Append(Merge(u, v), within, c) == Merge(u, Append(v, within, c))
  {
    var m, n := Append(Merge(u, v), within, c), Merge(u, Append(v, within, c));
    if within && |v| == 1 {
      Regroup(u[|u| - 1], v[0], [c]);
    }
    assert |m| == |n|;
    forall i | 0 <= i < |m|
      ensures m[i] == n[i]
    {}
  }

  lemma AppendFirst(u: seq<string>, c: char)
    requires |u| > 0
    ensures Append(u, true, c) == Merge(u, [[c]])
  {}

  /** Two lists of words, the last of the first and the first of the second being one. */
  function Merge(u: seq<string>, v: seq<string>): (words: seq<string>)
    requires |u| > 0 && |v| > 0
    ensures |words| == |u| + |v| - 1
  {
    u[..|u| - 1] + [u[|u| - 1] + v[0]] + v[1..]
  }

  /** Whether a word goes on from a into b. */
  predicate GoesOn(a: string, b: string) {
    |a| > 0 && |b| > 0 && !IsSpace(a[|a| - 1]) && !IsSpace(b[0])
  }

  lemma WordsNext(s: string, c: char)
    ensures Words(s + [c])
         == if IsSpace(c) then Words(s) else Append(Words(s), |s| > 0 && !IsSpace(s[|s| - 1]), c)
  {
    assert (s + [c])[..|s|] == s;
  }

  lemma {:induction false} FirstWord(b: string)
    requires |b| > 0 && !IsSpace(b[0])
    ensures |Words(b)| > 0
  {
    if |b| > 1 {
      FirstWord(b[..|b| - 1]);
    }
  }

  lemma LastInWord(s: string)
    requires |s| > 0 && !IsSpace(s[|s| - 1])
    ensures |Words(s)| > 0
  {}

  lemma NoWords()
    ensures Words("") == []
  {}

  lemma {:induction false} WordsJoin(a: string, b: string)
    ensures GoesOn(a, b) ==> |Words(a)| > 0 && |Words(b)| > 0 && Words(a + b) == Merge(Words(a), Words(b))
    ensures !GoesOn(a, b) ==> Words(a + b) == Words(a) + Words(b)
  {
    hide Words, IsSpace, Merge, Append;
    NoWords();
    if |b| == 0 {
      assert a + b == a;
    } else {
      var front, c := b[..|b| - 1], b[|b| - 1];
      assert a + b == (a + front) + [c] && b == front + [c];
      WordsNext(a + front, c);
      WordsNext(front, c);
      if |a| > 0 && !IsSpace(a[|a| - 1]) {
        LastInWord(a);
      }
      if |front| == 0 {
        assert a + front == a && front == "";
        AppendNone(Words(a), c);
        if GoesOn(a, b) {
          AppendFirst(Words(a), c);
        }
      } else {
        WordsJoin(a, front);
        assert (a + front)[|a + front| - 1] == front[|front| - 1] && b[0] == front[0];
        if !IsSpace(front[|front| - 1]) {
          LastInWord(front);
        }
        AppendJoined(Words(a), Words(front), !IsSpace(front[|front| - 1]), c);
      }
    }
  }

  lemma AppendNone(u: seq<string>, c: char)
    ensures Append([], false, c) == [[c]] && Append(u, false, c) == u + [[c]]
  {}

  lemma {:induction false} WordsTrimLeft(s: string)
    ensures Words(TrimLeft(s)) == Words(s)
  {
    if |s| > 0 && IsSpace(s[0]) {
      WordsTrimLeft(s[1..]);
      hide Words, IsSpace;
      WordsJoin(s[..1], s[1..]);
      Cut(s, 1);
      NoWords();
      WordsNext("", s[0]);
      assert s[..1] == "" + [s[0]];
    }
  }

  lemma {:induction false} WordsTrimRight(s: string)
    ensures Words(TrimRight(s)) == Words(s)
  {
    if |s| > 0 && IsSpace(s[|s| - 1]) {
      WordsTrimRight(s[..|s| - 1]);
    }
  }

  lemma WordsTrim(s: string)
    ensures Words(Trim(s)) == Words(s)
  {
    WordsTrimRight(s);
    WordsTrimLeft(TrimRight(s));
  }

  /** The pieces read as one text again: a hyphen at the end of a line joins, any other end of
      a line is a space. */
  function Glued(pieces: seq<Piece>): string {
    if |pieces| == 0 then ""
    else pieces[0].text + ((if pieces[0].cut then "" else " ") + Glued(pieces[1..]))
  }

  /** How many cuts fall next to a space that is not a blank, and so between two words. */
  function WrongCuts(s: string, l: nat): nat
    requires l >= 2 && IsTrimmed(s)
    decreases |s|
  {
    if |s| <= l then 0
    else
      var pos := BreakAt(s, l);
      WrongCuts(Trim(s[pos..]), l)
      + if LastSpace(s[..l]) < 0 && !GoesOn(s[..pos], s[pos..]) then 1 else 0
  }

  lemma GluedNext(piece: Piece, pieces: seq<Piece>)
    ensures Glued([piece] + pieces) == piece.text + ((if piece.cut then "" else " ") + Glued(pieces))
  {
    assert ([piece] + pieces)[1..] == pieces;
  }

  lemma TrimEnds(s: string)
    requires |s| > 0
    ensures !IsSpace(s[0]) && !IsSpace(s[|s| - 1]) ==> Trim(s) == s
    ensures !IsSpace(s[0]) || !IsSpace(s[|s| - 1]) ==> |Trim(s)| > 0
  {
    if !IsSpace(s[|s| - 1]) {
      assert TrimRight(s) == s;
    }
    hide IsSpace;
  }

  lemma LoneWords(s: string)
    ensures Words(s + " ") == Words(s) && Words(" " + s) == Words(s)
  {
    WordsNext(s, ' ');
    WordsJoin(" ", s);
    WordsNext("", ' ');
    assert "" + [' '] == " ";
  }

  /** How a round of wrapping treats the words on both sides of its cut. */
  lemma WordsOfRound(f: string, r: string, cut: bool, g: string)
    requires |f| > 0 && |r| > 0 && !IsSpace(f[0]) && !IsSpace(r[|r| - 1])
    requires !cut ==> !GoesOn(f, r)
    requires |g| > 0 && !IsSpace(g[0])
    ensures var glued := Trim(f) + ((if cut then "" else " ") + g);
            && |glued| > 0 && !IsSpace(glued[0])
            && |Words(glued)| - |Words(g)| == |Words(f + r)| - |Words(r)| - (if cut && !GoesOn(f, r) then 1 else 0)
            && (!(cut && !GoesOn(f, r)) && Words(g) == Words(r) ==> Words(glued) == Words(f + r))
  {
    hide Words, Trim, IsSpace, Merge;
    var t := Trim(f);
    TrimEnds(f);
    WordsTrim(f);
    WordsJoin(f, r);
    FirstWord(g);
    Blank();
    if cut {
      assert "" + g == g;
      WordsJoin(t, g);
    } else {
      WordsJoin(t, " " + g);
      LoneWords(g);
    }
  }

  lemma Blank()
    ensures IsSpace(' ')
  {}

  lemma GluedStarts(s: string, l: nat)
    requires l >= 2 && IsTrimmed(s) && |s| > 0
    ensures var g := Glued(PiecesOf(s, l)); |g| > 0 && !IsSpace(g[0])
  {
    if |s| <= l {
      GluedNext(Piece(s, false), []);
      assert [Piece(s, false)] + [] == [Piece(s, false)];
    } else {
      var pos := BreakAt(s, l);
      TrimEnds(s[..pos]);
      GluedNext(Piece(Trim(s[..pos]), LastSpace(s[..l]) < 0), PiecesOf(Trim(s[pos..]), l));
    }
  }

  lemma GluedLast(s: string)
    ensures Words(Glued([Piece(s, false)])) == Words(s)
  {
    GluedNext(Piece(s, false), []);
    assert [Piece(s, false)] + [] == [Piece(s, false)];
    assert Glued([]) == "" && s + (" " + "") == s + " ";
    LoneWords(s);
  }

  lemma GluedNothing(l: nat)
    requires l >= 2
    ensures Glued(PiecesOf("", l)) == "" && WrongCuts("", l) == 0
  {}

  lemma RoundWords(s: string, l: nat)
    requires 2 <= l < |s| && IsTrimmed(s)
    ensures var pos := BreakAt(s, l);
            var (f, r) := (s[..pos], s[pos..]);
            var cut := LastSpace(s[..l]) < 0;
            && |f| > 0 && |r| > 0 && !IsSpace(f[0]) && !IsSpace(r[|r| - 1]) && f + r == s && (!cut ==> !GoesOn(f, r))
            && |Trim(r)| > 0
            && PiecesOf(s, l) == [Piece(Trim(f), cut)] + PiecesOf(Trim(r), l)
            && WrongCuts(s, l) == WrongCuts(Trim(r), l) + if cut && !GoesOn(f, r) then 1 else 0
  {
    hide Trim, IsSpace, LastSpace, BreakAt, PiecesOf, WrongCuts, GoesOn;
    BreakIs(s, l);
    PiecesStep(s, l);
    var pos := BreakAt(s, l);
    Cut(s, pos);
    TrimEnds(s[pos..]);
    if LastSpace(s[..l]) >= 0 {
      BlankParts(s[..pos], s[pos..]);
    }
  }

  lemma BlankParts(f: string, r: string)
    requires |r| > 0 && r[0] == ' '
    ensures !GoesOn(f, r)
  {}

  /** A line is broken at the last blank within the width, and where there is none leaves room
      for a hyphen. */
  lemma BreakIs(s: string, l: nat)
    requires 2 <= l < |s| && IsTrimmed(s)
    ensures var pos := BreakAt(s, l);
            && 1 <= pos < l && (LastSpace(s[..l]) < 0 <==> forall i :: 0 <= i < l ==> s[i] != ' ')
            && (if LastSpace(s[..l]) < 0 then pos == l - 1
                else s[pos] == ' ' && forall i :: pos < i < l ==> s[i] != ' ')
  {
    var front := s[..l];
    assert forall i :: 0 <= i < l ==> front[i] == s[i];
    hide IsSpace, LastSpace;
  }

  lemma PiecesStep(s: string, l: nat)
    requires 2 <= l < |s| && IsTrimmed(s)
    ensures var pos := BreakAt(s, l);
            var cut := LastSpace(s[..l]) < 0;
            && PiecesOf(s, l) == [Piece(Trim(s[..pos]), cut)] + PiecesOf(Trim(s[pos..]), l)
            && WrongCuts(s, l)
               == WrongCuts(Trim(s[pos..]), l) + if cut && !GoesOn(s[..pos], s[pos..]) then 1 else 0
  {
    hide IsSpace, LastSpace, Trim, BreakAt, GoesOn;
  }

  /** Each wrong cut costs a word, and without them all words are kept. */
  lemma {:induction false} WordsAndCuts(s: string, l: nat)
    requires l >= 2 && IsTrimmed(s)
    ensures |Words(Glued(PiecesOf(s, l)))| + WrongCuts(s, l) == |Words(s)|
    ensures WrongCuts(s, l) == 0 ==> Words(Glued(PiecesOf(s, l))) == Words(s)
    decreases |s|
  {
    hide Words, Glued, PiecesOf, WrongCuts, BreakAt, LastSpace, Trim, IsSpace, GoesOn;
    NoWords();
    if s == "" {
      GluedNothing(l);
    } else if |s| <= l {
      GluedLast(s);
      PiecesLast(s, l);
      ShortUncut(s, l);
    } else {
      RoundWords(s, l);
      var pos := BreakAt(s, l);
      var f, r, cut := s[..pos], s[pos..], LastSpace(s[..l]) < 0;
      var rest := Trim(r);
      WordsAndCuts(rest, l);
      GluedStarts(rest, l);
      WordsTrim(r);
      GluedNext(Piece(Trim(f), cut), PiecesOf(rest, l));
      WordsOfRound(f, r, cut, Glued(PiecesOf(rest, l)));
    }
  }

  /** The words of the text can be read back from its lines, hyphens joined, exactly when no cut
      fell next to a space. */
  lemma WordsKept(text: string, l: nat)
    requires l >= 2
    ensures Words(Glued(PiecesOf(Trim(text), l))) == Words(text) <==> WrongCuts(Trim(text), l) == 0
  {
    WordsTrim(text);
    WordsAndCuts(Trim(text), l);
  }

  predicate OnlyBlanks(s: string) {
    forall i :: 0 <= i < |s| && IsSpace(s[i]) ==> s[i] == ' '
  }

  lemma OnlyBlanksTrim(s: string)
    requires OnlyBlanks(s)
    ensures OnlyBlanks(Trim(s))
  {
    var t := TrimRight(s);
    assert forall i :: 0 <= i < |t| ==> t[i] == s[i];
    var u := TrimLeft(t);
    assert forall i :: 0 <= i < |u| ==> u[i] == t[|t| - |u| + i];
    hide IsSpace, TrimLeft, TrimRight;
  }

  lemma OnlyBlanksTail(s: string, pos: nat)
    requires OnlyBlanks(s) && pos <= |s|
    ensures OnlyBlanks(s[pos..])
  {
    hide IsSpace;
  }

  lemma CutInWord(s: string, l: nat)
    requires 2 <= l < |s| && IsTrimmed(s) && OnlyBlanks(s)
    ensures var pos := BreakAt(s, l);
            LastSpace(s[..l]) < 0 ==> GoesOn(s[..pos], s[pos..])
  {
    if LastSpace(s[..l]) < 0 {
      assert s[..l][l - 2] == s[l - 2] && s[..l][l - 1] == s[l - 1];
      assert s[l - 2] != ' ' && s[l - 1] != ' ';
    }
    hide LastSpace, IsSpace;
  }

  /** As in every text that has no other space than blanks. */
  lemma {:induction false} BlanksCutRight(s: string, l: nat)
    requires l >= 2 && IsTrimmed(s) && OnlyBlanks(s)
    ensures WrongCuts(s, l) == 0
    decreases |s|
  {
    if |s| > l {
      var pos := BreakAt(s, l);
      RoundWords(s, l);
      CutInWord(s, l);
      OnlyBlanksTail(s, pos);
      hide IsSpace, LastSpace, BreakAt, Trim, PiecesOf, WrongCuts, OnlyBlanks, GoesOn;
      OnlyBlanksTrim(s[pos..]);
      BlanksCutRight(Trim(s[pos..]), l);
    }
  }

  /** A tab makes the difference: two words become one. */
  lemma TabIsJoined()
    ensures WrongCuts("a\tb", 2) == 1
  {
    var s := "a\tb";
    TabIsSpace();
    assert s[..2] == "a\t";
    assert LastSpace(s[..2]) < 0 by { hide IsSpace; }
    hide IsSpace, LastSpace, Trim, BreakAt, PiecesOf, WrongCuts;
    BreakIs(s, 2);
    PiecesStep(s, 2);
    assert s[1..][0] == '\t' && |s[1..]| == 2;
    ShortUncut(Trim(s[1..]), 2);
  }

  lemma TabIsSpace()
    ensures IsSpace('\t') && !IsSpace('a') && !IsSpace('b')
  {}

  lemma ShortUncut(s: string, l: nat)
    requires l >= 2 && IsTrimmed(s) && |s| <= l
    ensures WrongCuts(s, l) == 0
  {}

  // ----- the lines one by one -----

  function Lines(s: string): (lines: seq<string>)
    ensures |lines| > 0
  {
    if |s| == 0 then [""]
    else
      var front, c := Lines(s[..|s| - 1]), s[|s| - 1];
      AppendLine(front, c)
  }

  function AppendLine(lines: seq<string>, c: char): (more: seq<string>)
    requires |lines| > 0
    ensures |more| > 0
  {
    if c == '\n' then lines + [""] else lines[..|lines| - 1] + [lines[|lines| - 1] + [c]]
  }

  lemma LinesNext(s: string, c: char)
    ensures Lines(s + [c]) == AppendLine(Lines(s), c)
  {
    assert (s + [c])[..|s|] == s;
  }

  lemma AppendLineJoined(u: seq<string>, v: seq<string>, c: char)
    requires |v| > 0
    ensures AppendLine(u + v, c) == u + AppendLine(v, c)
  {}

  lemma NoLine(lines: seq<string>)
    requires |lines| > 0
    ensures Lines("") == [""] && AppendLine(lines, '\n') == lines + [""]
  {}

  /** The lines of a piece: a cut one ends in a hyphen and has an empty line behind it. */
  function PieceLines(front: string, piece: Piece): seq<string> {
    if piece.cut then Lines(front + piece.text + "-") + [""] else Lines(front + piece.text)
  }

  function LinesOf(pieces: seq<Piece>, prefix: string): seq<string> {
    if |pieces| == 0 then []
    else
      var n := |pieces| - 1;
      LinesOf(pieces[..n], prefix) + PieceLines(if n == 0 then "" else prefix, pieces[n])
  }

  lemma {:induction false} LinesJoin(a: string, b: string)
    ensures Lines(a + ("\n" + b)) == Lines(a) + Lines(b)
  {
    hide Lines, AppendLine;
    NoLine(Lines(a));
    if |b| == 0 {
      assert a + ("\n" + b) == a + ['\n'];
      LinesNext(a, '\n');
    } else {
      var front, c := b[..|b| - 1], b[|b| - 1];
      LinesJoin(a, front);
      assert a + ("\n" + b) == a + ("\n" + front) + [c] && b == front + [c];
      LinesNext(a + ("\n" + front), c);
      LinesNext(front, c);
      AppendLineJoined(Lines(a), Lines(front), c);
    }
  }

  lemma PieceInLines(front: string, piece: Piece)
    ensures Lines(front + PieceText(piece)) == PieceLines(front, piece)
  {
    if piece.cut {
      LinesJoin(front + piece.text + "-", "");
      assert front + PieceText(piece) == front + piece.text + "-" + ("\n" + "");
      assert Lines("") == [""];
    } else {
      assert PieceText(piece) == piece.text + "" == piece.text;
    }
  }

  /** What comes out are these lines, every one behind the first piece's with the prefix. */
  lemma {:induction false} RenderedLines(pieces: seq<Piece>, prefix: string)
    requires |pieces| > 0
    ensures Lines(Render(pieces, prefix)) == LinesOf(pieces, prefix)
  {
    hide Lines, PieceLines, PieceText;
    var n := |pieces| - 1;
    if n == 0 {
      PieceInLines("", pieces[0]);
      assert "" + PieceText(pieces[0]) == PieceText(pieces[0]);
      assert LinesOf(pieces[..0], prefix) == [];
      assert [] + PieceLines("", pieces[0]) == PieceLines("", pieces[0]);
    } else {
      RenderedLines(pieces[..n], prefix);
      PieceInLines(prefix, pieces[n]);
      LinesJoin(Render(pieces[..n], prefix), prefix + PieceText(pieces[n]));
      assert Render(pieces, prefix) == Render(pieces[..n], prefix) + ("\n" + (prefix + PieceText(pieces[n])));
    }
  }

  /** At any width of two or more every line keeps within the width beyond the prefix, and
      only space is dropped. */
  method WrapKeeps(text: string, l: nat, prefix: string) returns (ret: string)
    requires l >= 2
    ensures LinesWithin(ret, |prefix| + l)
    ensures var pieces := PiecesOf(Trim(text), l);
            && ret == Render(pieces, prefix) && Ink(Texts(pieces)) == Ink(text)
            && (Words(Glued(pieces)) == Words(text) <==> WrongCuts(Trim(text), l) == 0)
  {
    ret := Wrap(text, l, prefix);
    PiecesFit(Trim(text), l);
    RenderWithin(PiecesOf(Trim(text), l), prefix, l);
    PiecesInk(Trim(text), l);
    InkTrim(text);
    WordsKept(text, l);
  }
}
