/** Splitting piped input into chunks (`src/ruxen_repl/src/lib.rs`): lines accumulate until the text is
    balanced, for any tokenizer. */
module Chunks {
  import opened Common
  import opened Text

  /** What the tokenizer and the counting loop find in a piece of text: depths and the number of
      meaningful tokens; or, if it cannot be tokenized, whether that is because a string or a block
      comment is unterminated. */
  datatype Analysis =
    | Lexed(block: int, paren: int, bracket: int, brace: int, meaningful: nat)
    | Unlexed(unclosedString: bool, unclosedComment: bool)

  type Tokenizer = string -> Analysis

  predicate IsBlank(text: string) {
    Trim(text) == ""
  }

  predicate IsCommand(text: string) {
    ":" <= Trim(text)
  }

  /** Nothing is left open. Text that cannot be tokenized has all its counters at zero. */
  predicate Balanced(a: Analysis) {
    match a
    case Lexed(block, paren, bracket, brace, _) => block <= 0 && paren <= 0 && bracket <= 0 && brace <= 0
    case Unlexed(unclosedString, unclosedComment) => !unclosedString && !unclosedComment
  }

  predicate Meaningful(a: Analysis) {
    a.Lexed? && a.meaningful > 0
  }

  /** The line's end: just past its newline, or the end of the text. */
  function LineEnd(s: string): (e: nat)
    requires s != ""
    ensures 0 < e <= |s|
    ensures forall i :: 0 <= i < e - 1 ==> s[i] != '\n'
    ensures e < |s| ==> s[e - 1] == '\n'
  {
    if s[0] == '\n' || |s| == 1 then 1 else 1 + LineEnd(s[1..])
  }

  /** `split_inclusive('\n')`. */
  function Lines(s: string): seq<string>
    decreases |s|
  {
    if s == "" then [] else [s[..LineEnd(s)]] + Lines(s[LineEnd(s)..])
  }

  function Concat(lines: seq<string>): string {
    if lines == [] then "" else Concat(lines[..|lines| - 1]) + lines[|lines| - 1]
  }

  /** A piece of the input, and whether it became a chunk. */
  datatype Piece = Piece(text: string, kept: bool)

  function Kept(pieces: seq<Piece>): seq<string> {
    if pieces == [] then []
    else Kept(pieces[..|pieces| - 1]) + (if pieces[|pieces| - 1].kept then [pieces[|pieces| - 1].text] else [])
  }

  function Texts(pieces: seq<Piece>): seq<string> {
    seq(|pieces|, i requires 0 <= i < |pieces| => pieces[i].text)
  }

  // ---------------------------------------------------------------------------------------
  // The greedy split, said without a loop.
  // ---------------------------------------------------------------------------------------

  /** Accumulation stops at this text: it is a command, or it is balanced. */
  predicate Stops(text: string, tok: Tokenizer) {
    !IsBlank(text) && (IsCommand(text) || Balanced(tok(text)))
  }

  function PieceOf(text: string, tok: Tokenizer): Piece {
    Piece(text, IsCommand(text) || Meaningful(tok(text)))
  }

  /** The first line count at or after `m` where the text from line `a` on stops. */
  function FirstStop(lines: seq<string>, a: nat, m: nat, tok: Tokenizer): (r: Option<nat>)
    requires a < m <= |lines| + 1
    ensures r.Some? ==> m <= r.value <= |lines| && Stops(Concat(lines[a..r.value]), tok)
    ensures forall j :: m <= j < (if r.Some? then r.value else |lines| + 1) ==> !Stops(Concat(lines[a..j]), tok)
    decreases |lines| + 1 - m
  {
    if m > |lines| then None
    else if Stops(Concat(lines[a..m]), tok) then Some(m)
    else FirstStop(lines, a, m + 1, tok)
  }

  /** The pieces from line `a` on, and what is left when no more piece stops. */
  function Greedy(lines: seq<string>, a: nat, tok: Tokenizer): (r: (seq<Piece>, string))
    requires a <= |lines|
    decreases |lines| - a
  {
    match FirstStop(lines, a, a + 1, tok)
    case None => ([], Concat(lines[a..]))
    case Some(m) =>
      var (pieces, rest) := Greedy(lines, m, tok);
      ([PieceOf(Concat(lines[a..m]), tok)] + pieces, rest)
  }

  /** The chunks: the pieces kept, and the rest if there is anything in it. */
  function ChunksOf(input: string, tok: Tokenizer): seq<string> {
    var (pieces, rest) := Greedy(Lines(input), 0, tok);
    Kept(pieces) + (if IsBlank(rest) then [] else [rest])
  }

  // ---------------------------------------------------------------------------------------
  // What a chunk is, said from the text's characters and the tokenizer's findings alone.
  // ---------------------------------------------------------------------------------------

  /** The first character that is not white space is `c`. */
  ghost predicate Begins(text: string, c: char) {
    exists i :: 0 <= i < |text| && text[i] == c && !IsSpace(c) && forall j :: 0 <= j < i ==> IsSpace(text[j])
  }

  /** Some bracket or block, or a string or a comment, goes on after the text. */
  ghost predicate LeftOpen(a: Analysis) {
    if a.Lexed? then a.block > 0 || a.paren > 0 || a.bracket > 0 || a.brace > 0
    else a.unclosedString || a.unclosedComment
  }

  /** Nothing has to follow this text. */
  ghost predicate IsComplete(text: string, tok: Tokenizer) {
    !AllSpace(text) && (Begins(text, ':') || !LeftOpen(tok(text)))
  }

  /** There is something in it to evaluate. */
  ghost predicate IsWanted(text: string, tok: Tokenizer) {
    Begins(text, ':') || (tok(text).Lexed? && tok(text).meaningful >= 1)
  }

  lemma BlankIff(text: string)
    ensures IsBlank(text) <==> AllSpace(text)
  {
    var i, j := TrimCuts(text);
  }

  lemma CommandIff(text: string)
    ensures IsCommand(text) <==> Begins(text, ':')
  {
    hide Trim;
    var i, j := TrimCuts(text);
    if IsCommand(text) { assert text[i] == ':'; }
    if k :| 0 <= k < |text| && text[k] == ':' && !IsSpace(':') && forall j :: 0 <= j < k ==> IsSpace(text[j]) {
      assert k == i;
    }
  }

  /** The code's tests mean that. */
  lemma StopsIff(text: string, tok: Tokenizer)
    ensures Stops(text, tok) <==> IsComplete(text, tok)
    ensures PieceOf(text, tok).kept <==> IsWanted(text, tok)
  {
    hide IsBlank, IsCommand, Begins, AllSpace;
    BlankIff(text);
    CommandIff(text);
  }

  /** The pieces from line `a` on: each is the shortest run of whole lines that is complete, it is kept exactly if
      it is wanted, and what is left at the end has no such beginning. */
  ghost predicate IsSplit(lines: seq<string>, a: nat, pieces: seq<Piece>, rest: string, tok: Tokenizer)
    requires a <= |lines|
    decreases |pieces|
  {
    if pieces == [] then rest == Concat(lines[a..]) && NoneComplete(lines, a, |lines| + 1, tok)
    else exists m ::
      && a < m <= |lines| && NoneComplete(lines, a, m, tok)
      && pieces[0].text == Concat(lines[a..m])
      && IsComplete(pieces[0].text, tok)
      && (pieces[0].kept <==> IsWanted(pieces[0].text, tok))
      && IsSplit(lines, m, pieces[1..], rest, tok)
  }

  ghost predicate NoneComplete(lines: seq<string>, a: nat, m: nat, tok: Tokenizer)
    requires a <= m <= |lines| + 1
  {
    forall j :: a < j < m ==> !IsComplete(Concat(lines[a..j]), tok)
  }

  lemma NoneStopsIff(lines: seq<string>, a: nat, m: nat, tok: Tokenizer)
    requires a <= m <= |lines| + 1
    ensures NoneComplete(lines, a, m, tok) <==> forall j :: a < j < m ==> !Stops(Concat(lines[a..j]), tok)
  {
    hide Stops, IsComplete, Concat;
    forall j | a < j < m ensures Stops(Concat(lines[a..j]), tok) <==> IsComplete(Concat(lines[a..j]), tok) {
      StopsIff(Concat(lines[a..j]), tok);
    }
  }

  /** The lines of a text: not empty, and a newline only at the end of each, and of each but the last. */
  ghost predicate AreLines(s: string, lines: seq<string>) {
    && Concat(lines) == s
    && (forall i :: 0 <= i < |lines| ==> lines[i] != "" && '\n' !in ButLast(lines[i]))
    && (forall i :: 0 <= i < |lines| - 1 ==> Last(lines[i]) == '\n')
  }

  ghost predicate AreChunks(input: string, chunks: seq<string>, tok: Tokenizer) {
    exists lines, pieces, rest ::
      && AreLines(input, lines) && IsSplit(lines, 0, pieces, rest, tok)
      && chunks == Kept(pieces) + (if AllSpace(rest) then [] else [rest])
  }

  lemma {:induction false} LinesAre(s: string)
    ensures forall i :: 0 <= i < |Lines(s)| ==> Lines(s)[i] != "" && '\n' !in ButLast(Lines(s)[i])
    ensures forall i :: 0 <= i < |Lines(s)| - 1 ==> Last(Lines(s)[i]) == '\n'
    decreases |s|
  {
    if s != "" { LinesAre(s[LineEnd(s)..]); }
  }

  lemma {:induction false} GreedyIsSplit(lines: seq<string>, a: nat, tok: Tokenizer)
    requires a <= |lines|
    ensures IsSplit(lines, a, Greedy(lines, a, tok).0, Greedy(lines, a, tok).1, tok)
    decreases |lines| - a
  {
    hide Concat, Stops, IsComplete, IsWanted;
    var r := FirstStop(lines, a, a + 1, tok);
    NoneStopsIff(lines, a, if r.Some? then r.value else |lines| + 1, tok);
    if r.Some? {
      StopsIff(Concat(lines[a..r.value]), tok);
      GreedyIsSplit(lines, r.value, tok);
      var pieces, after := Greedy(lines, a, tok).0, Greedy(lines, r.value, tok).0;
      assert pieces[1..] == after;
    }
  }

  lemma ChunksAreChunks(input: string, tok: Tokenizer)
    ensures AreChunks(input, ChunksOf(input, tok), tok)
  {
    hide Greedy, Lines, IsSplit, Kept, IsBlank, AllSpace;
    LinesConcat(input);
    LinesAre(input);
    GreedyIsSplit(Lines(input), 0, tok);
    BlankIff(Greedy(Lines(input), 0, tok).1);
    assert AreLines(input, Lines(input));
  }

  // ---------------------------------------------------------------------------------------
  // The code.
  // ---------------------------------------------------------------------------------------

  method SplitReplChunks(input: string, tok: Tokenizer) returns (chunks: seq<string>)
    ensures chunks == ChunksOf(input, tok)
    ensures AreChunks(input, chunks, tok)
  {
    hide Greedy, Concat, Trim, Reached, Lines, AreChunks;
    ChunksAreChunks(input, tok);
    var lines := Lines(input);
    Start(lines, tok);
    chunks := [];
    var current := "";
    ghost var a: nat, pieces: seq<Piece> := 0, [];
    for i := 0 to |lines|
      invariant a <= i && current == Concat(lines[a..i]) && chunks == Kept(pieces)
      invariant forall j :: a < j <= i ==> !Stops(Concat(lines[a..j]), tok)
      invariant Reached(lines, a, pieces, tok)
    {
      ConcatSnoc(lines, a, i);
      current := current + lines[i];
      var trimmed := Trim(current);
      if trimmed == "" { continue; }
      if ":" <= trimmed {
        StopHere(lines, a, i + 1, pieces, tok);
        pieces := pieces + [PieceOf(current, tok)];
        chunks := chunks + [current];
        a, current := i + 1, "";
        continue;
      }
      var found := tok(current);
      if Balanced(found) {
        StopHere(lines, a, i + 1, pieces, tok);
        pieces := pieces + [PieceOf(current, tok)];
        a := i + 1;
        if Meaningful(found) { chunks := chunks + [current]; }
        current := "";
      }
    }
    NoMoreStops(lines, a, pieces, tok);
    if Trim(current) != "" {
      chunks := chunks + [current];
    }
  }

  lemma ConcatSnoc(lines: seq<string>, a: nat, i: nat)
    requires a <= i < |lines|
    ensures Concat(lines[a..i + 1]) == Concat(lines[a..i]) + lines[i]
  {
    assert lines[a..i + 1][..i - a] == lines[a..i];
  }

  lemma {:induction false} FirstStopIs(lines: seq<string>, a: nat, m: nat, stop: nat, tok: Tokenizer)
    requires a < m <= stop <= |lines| && Stops(Concat(lines[a..stop]), tok)
    requires forall j :: m <= j < stop ==> !Stops(Concat(lines[a..j]), tok)
    ensures FirstStop(lines, a, m, tok) == Some(stop)
    decreases stop - m
  {
    if m < stop { FirstStopIs(lines, a, m + 1, stop, tok); }
  }

  /** The loop has cut off these pieces and is back at the start of line `a`. */
  ghost predicate Reached(lines: seq<string>, a: nat, pieces: seq<Piece>, tok: Tokenizer) {
    && a <= |lines|
    && Greedy(lines, 0, tok) == (pieces + Greedy(lines, a, tok).0, Greedy(lines, a, tok).1)
  }

  lemma Start(lines: seq<string>, tok: Tokenizer)
    ensures Reached(lines, 0, [], tok) && lines[0..0] == [] && Concat([]) == ""
  {
    assert [] + Greedy(lines, 0, tok).0 == Greedy(lines, 0, tok).0;
  }

  /** Where the loop cuts, so does the greedy split. */
  lemma StopHere(lines: seq<string>, a: nat, m: nat, pieces: seq<Piece>, tok: Tokenizer)
    requires a < m <= |lines| && Stops(Concat(lines[a..m]), tok)
    requires forall j :: a < j < m ==> !Stops(Concat(lines[a..j]), tok)
    requires Reached(lines, a, pieces, tok)
    ensures var more := pieces + [PieceOf(Concat(lines[a..m]), tok)];
            Reached(lines, m, more, tok) && more[..|more| - 1] == pieces
    ensures lines[m..m] == [] && Concat([]) == ""
  {
    FirstStopIs(lines, a, a + 1, m, tok);
    var p := PieceOf(Concat(lines[a..m]), tok);
    var (after, rest) := Greedy(lines, m, tok);
    assert pieces + ([p] + after) == (pieces + [p]) + after;
  }

  lemma NoMoreStops(lines: seq<string>, a: nat, pieces: seq<Piece>, tok: Tokenizer)
    requires Reached(lines, a, pieces, tok) && forall j :: a < j <= |lines| ==> !Stops(Concat(lines[a..j]), tok)
    ensures Greedy(lines, 0, tok) == (pieces, Concat(lines[a..|lines|]))
  {
    hide Concat, Stops;
    assert FirstStop(lines, a, a + 1, tok) == None;
    assert lines[a..|lines|] == lines[a..];
    assert pieces + [] == pieces;
  }

  // ---------------------------------------------------------------------------------------
  // Nothing is lost, and no chunk is longer than it must be.
  // ---------------------------------------------------------------------------------------

  lemma {:induction false} ConcatAppend(a: seq<string>, b: seq<string>)
    ensures Concat(a + b) == Concat(a) + Concat(b)
  {
    if b == [] {
      assert a + b == a;
    } else {
      var front, last := b[..|b| - 1], b[|b| - 1];
      assert (a + b)[..|a + b| - 1] == a + front && (a + b)[|a + b| - 1] == last;
      ConcatAppend(a, front);
      assert (Concat(a) + Concat(front)) + last == Concat(a) + (Concat(front) + last);
    }
  }

  lemma ConcatOne(s: string)
    ensures Concat([s]) == s
  {
    assert Concat([]) == "";
  }

  /** The lines make up the text. */
  lemma {:induction false} LinesConcat(s: string)
    ensures Concat(Lines(s)) == s
    decreases |s|
  {
    hide Concat, LineEnd;
    if s == "" {
      NoTexts();
    } else {
      var e := LineEnd(s);
      LinesConcat(s[e..]);
      ConcatAppend([s[..e]], Lines(s[e..]));
      ConcatOne(s[..e]);
      assert s[..e] + s[e..] == s;
    }
  }

  lemma NoTexts()
    ensures Concat(Texts([])) == "" == Concat([])
  {
  }

  lemma {:induction false} GreedyConserves(lines: seq<string>, a: nat, tok: Tokenizer)
    requires a <= |lines|
    ensures var (pieces, rest) := Greedy(lines, a, tok); Concat(Texts(pieces)) + rest == Concat(lines[a..])
    decreases |lines| - a
  {
    hide Concat, Stops;
    match FirstStop(lines, a, a + 1, tok)
    case None => NoTexts();
    case Some(m) =>
      var (pieces, rest) := Greedy(lines, m, tok);
      var p := PieceOf(Concat(lines[a..m]), tok);
      GreedyConserves(lines, m, tok);
      assert lines[a..] == lines[a..m] + lines[m..];
      ConcatAppend(lines[a..m], lines[m..]);
      assert Texts([p] + pieces) == [p.text] + Texts(pieces);
      ConcatAppend([p.text], Texts(pieces));
      ConcatOne(p.text);
  }

  /** Conservation: the pieces, kept and dropped, and the rest make up the input, and the rest is
      missing from the chunks only if it is blank. */
  lemma SplitConserves(input: string, tok: Tokenizer)
    ensures var (pieces, rest) := Greedy(Lines(input), 0, tok);
            && Concat(Texts(pieces)) + rest == input
            && ChunksOf(input, tok) == Kept(pieces) + (if IsBlank(rest) then [] else [rest])
  {
    GreedyConserves(Lines(input), 0, tok);
    LinesConcat(input);
    assert Lines(input)[0..] == Lines(input);
  }

  /** What is dropped is balanced text without a meaningful token; what is kept is a command or
      balanced text with one. */
  lemma {:induction false} PiecesAreJudged(lines: seq<string>, a: nat, tok: Tokenizer)
    requires a <= |lines|
    ensures forall p :: p in Greedy(lines, a, tok).0 ==>
              IsComplete(p.text, tok) && (p.kept <==> IsWanted(p.text, tok))
    decreases |lines| - a
  {
    hide Stops, IsComplete, IsWanted;
    var r := FirstStop(lines, a, a + 1, tok);
    if r.Some? {
      StopsIff(Concat(lines[a..r.value]), tok);
      PiecesAreJudged(lines, r.value, tok);
    }
  }

  lemma {:induction false} OneLine(line: string)
    requires line != "" && forall i :: 0 <= i < |line| - 1 ==> line[i] != '\n'
    ensures Lines(line) == [line]
  {
    assert LineEnd(line) == |line|;
    assert line[..|line|] == line && Lines(line[|line|..]) == [];
  }

  /** `text` is made of whole lines, and no shorter run of them stopped. */
  ghost predicate IsShortest(lines: seq<string>, text: string, tok: Tokenizer) {
    exists a, m :: 0 <= a <= m <= |lines| && text == Concat(lines[a..m]) && NoneComplete(lines, a, m, tok)
  }

  lemma {:induction false} PiecesAreShortest(lines: seq<string>, a: nat, tok: Tokenizer)
    requires a <= |lines|
    ensures forall p :: p in Greedy(lines, a, tok).0 ==> IsShortest(lines, p.text, tok)
    ensures IsShortest(lines, Greedy(lines, a, tok).1, tok)
    decreases |lines| - a
  {
    hide Stops, IsComplete, Concat, NoneComplete;
    var r := FirstStop(lines, a, a + 1, tok);
    if r.Some? {
      PiecesAreShortest(lines, r.value, tok);
      NoneStopsIff(lines, a, r.value, tok);
      assert IsShortest(lines, Concat(lines[a..r.value]), tok);
    } else {
      NoneStopsIff(lines, a, |lines|, tok);
      assert lines[a..|lines|] == lines[a..];
    }
  }

  lemma {:induction false} KeptAreTexts(pieces: seq<Piece>)
    ensures forall c :: c in Kept(pieces) ==> exists p :: p in pieces && p.text == c
  {
    if pieces != [] {
      var front := pieces[..|pieces| - 1];
      KeptAreTexts(front);
      assert pieces == front + [pieces[|pieces| - 1]];
      forall c | c in Kept(pieces) ensures exists p :: p in pieces && p.text == c {
        if c in Kept(front) {
          var p :| p in front && p.text == c;
          assert p in pieces;
        } else {
          assert pieces[|pieces| - 1] in pieces;
        }
      }
    }
  }

  /** Minimality: every chunk is a run of whole lines, none of whose shorter, non-blank beginnings
      was a command or balanced. */
  lemma ChunksAreShortest(input: string, tok: Tokenizer)
    ensures forall c :: c in ChunksOf(input, tok) ==> IsShortest(Lines(input), c, tok)
  {
    var (pieces, rest) := Greedy(Lines(input), 0, tok);
    PiecesAreShortest(Lines(input), 0, tok);
    KeptAreTexts(pieces);
    forall c | c in ChunksOf(input, tok) ensures IsShortest(Lines(input), c, tok) {
      if c in Kept(pieces) {
        var p :| p in pieces && p.text == c;
      }
    }
  }

  // ---------------------------------------------------------------------------------------
  // Splitting in parts.
  // ---------------------------------------------------------------------------------------

  lemma {:induction false} LinesAppend(s: string, t: string)
    requires s == "" || s[|s| - 1] == '\n'
    ensures Lines(s + t) == Lines(s) + Lines(t)
    decreases |s|
  {
    hide LineEnd;
    if s == "" {
      assert s + t == t;
    } else {
      var e := LineEnd(s);
      LineEndAppend(s, t);
      assert (s + t)[..e] == s[..e] && (s + t)[e..] == s[e..] + t;
      LinesAppend(s[e..], t);
      assert [s[..e]] + (Lines(s[e..]) + Lines(t)) == ([s[..e]] + Lines(s[e..])) + Lines(t);
    }
  }

  lemma {:induction false} LineEndAppend(s: string, t: string)
    requires s != "" && s[|s| - 1] == '\n'
    ensures LineEnd(s + t) == LineEnd(s)
  {
    if s[0] != '\n' {
      assert (s + t)[1..] == s[1..] + t;
      LineEndAppend(s[1..], t);
    }
  }

  /** A stop found in the first lines is found with more lines behind them. */
  lemma StopStays(la: seq<string>, lb: seq<string>, a: nat, tok: Tokenizer)
    requires a < |la| && FirstStop(la, a, a + 1, tok).Some?
    ensures FirstStop(la + lb, a, a + 1, tok) == FirstStop(la, a, a + 1, tok)
    ensures var m := FirstStop(la, a, a + 1, tok).value; (la + lb)[a..m] == la[a..m]
  {
    var m := FirstStop(la, a, a + 1, tok).value;
    assert forall j :: a < j <= m ==> (la + lb)[a..j] == la[a..j];
    FirstStopIs(la + lb, a, a + 1, m, tok);
  }

  /** Lines already split off do not matter to the rest. */
  lemma {:induction false} StopShifts(la: seq<string>, lb: seq<string>, a: nat, m: nat, tok: Tokenizer)
    requires a < m <= |lb| + 1
    ensures FirstStop(la + lb, |la| + a, |la| + m, tok) ==
            match FirstStop(lb, a, m, tok)
            case None => None
            case Some(n) => Some(|la| + n)
    decreases |lb| + 1 - m
  {
    hide Concat, Stops;
    if m <= |lb| {
      assert (la + lb)[|la| + a..|la| + m] == lb[a..m];
      StopShifts(la, lb, a, m + 1, tok);
    }
  }

  lemma {:induction false} GreedyShifts(la: seq<string>, lb: seq<string>, a: nat, tok: Tokenizer)
    requires a <= |lb|
    ensures Greedy(la + lb, |la| + a, tok) == Greedy(lb, a, tok)
    decreases |lb| - a
  {
    hide Concat, Stops, FirstStop, PieceOf;
    StopShifts(la, lb, a, a + 1, tok);
    match FirstStop(lb, a, a + 1, tok)
    case None => assert (la + lb)[|la| + a..] == lb[a..];
    case Some(m) =>
      assert (la + lb)[|la| + a..|la| + m] == lb[a..m];
      GreedyShifts(la, lb, m, tok);
  }

  ghost predicate NoEmptyLine(lines: seq<string>) {
    forall i :: 0 <= i < |lines| ==> lines[i] != ""
  }

  lemma {:induction false} LinesAreNotEmpty(s: string)
    ensures NoEmptyLine(Lines(s))
    decreases |s|
  {
    if s != "" { LinesAreNotEmpty(s[LineEnd(s)..]); }
  }

  lemma {:induction false} GreedyAppend(la: seq<string>, lb: seq<string>, a: nat, tok: Tokenizer)
    requires a <= |la| && NoEmptyLine(la) && Greedy(la, a, tok).1 == ""
    ensures Greedy(la + lb, a, tok) == (Greedy(la, a, tok).0 + Greedy(lb, 0, tok).0, Greedy(lb, 0, tok).1)
    decreases |la| - a
  {
    hide Concat, Stops, PieceOf, FirstStop, NoEmptyLine;
    GreedyShifts(la, lb, 0, tok);
    match FirstStop(la, a, a + 1, tok)
    case None =>
      NothingLeft(la, a);
      assert [] + Greedy(lb, 0, tok).0 == Greedy(lb, 0, tok).0;
    case Some(m) =>
      StopStays(la, lb, a, tok);
      GreedyAppend(la, lb, m, tok);
      var p := PieceOf(Concat(la[a..m]), tok);
      assert ([p] + Greedy(la, m, tok).0) + Greedy(lb, 0, tok).0 == [p] + (Greedy(la, m, tok).0 + Greedy(lb, 0, tok).0);
  }

  lemma NothingLeft(lines: seq<string>, a: nat)
    requires a <= |lines| && NoEmptyLine(lines)
    ensures Concat(lines[a..]) == "" ==> a == |lines|
  {
    if a < |lines| { assert lines[a..][|lines| - a - 1] == lines[|lines| - 1] != ""; }
  }

  lemma {:induction false} KeptAppend(a: seq<Piece>, b: seq<Piece>)
    ensures Kept(a + b) == Kept(a) + Kept(b)
  {
    if b == [] {
      assert a + b == a;
    } else {
      assert (a + b)[..|a + b| - 1] == a + b[..|b| - 1];
      KeptAppend(a, b[..|b| - 1]);
    }
  }

  /** Input that ends a line and leaves nothing pending can be split apart from what follows it. */
  lemma SplitInParts(s: string, t: string, tok: Tokenizer)
    requires (s == "" || s[|s| - 1] == '\n') && Greedy(Lines(s), 0, tok).1 == ""
    ensures ChunksOf(s + t, tok) == ChunksOf(s, tok) + ChunksOf(t, tok)
  {
    hide Greedy, Lines, Kept, IsBlank;
    LinesAppend(s, t);
    LinesAreNotEmpty(s);
    GreedyAppend(Lines(s), Lines(t), 0, tok);
    KeptAppend(Greedy(Lines(s), 0, tok).0, Greedy(Lines(t), 0, tok).0);
    NothingIsBlank();
    var (pieces, rest) := Greedy(Lines(t), 0, tok);
    Regroup(Kept(Greedy(Lines(s), 0, tok).0), Kept(pieces), if IsBlank(rest) then [] else [rest]);
  }

  /** The first piece of some input, with whatever comes after it: it is a chunk exactly if it is wanted. */
  lemma FirstPieceIsJudged(text: string, after: string, tok: Tokenizer)
    requires IsComplete(text, tok) && (after != "" ==> text[|text| - 1] == '\n')
    requires forall j :: 0 < j < |Lines(text)| ==> !IsComplete(Concat(Lines(text)[..j]), tok)
    ensures ChunksOf(text + after, tok) == (if IsWanted(text, tok) then [text] else []) + ChunksOf(after, tok)
  {
    hide Stops, Lines, Concat, IsBlank, Kept, Greedy, FirstStop, IsComplete, IsWanted;
    var lines, piece := Lines(text), PieceOf(text, tok);
    StopsIff(text, tok);
    assert forall j :: 0 < j < |lines| ==> lines[0..j] == lines[..j];
    NoneStopsIff(lines, 0, |lines|, tok);
    OnePiece(text, tok);
    KeptOne(piece);
    NothingIsBlank();
    NoChunks(tok);
    if after == "" {
      assert text + after == text;
    } else {
      SplitInParts(text, after, tok);
    }
  }

  lemma OnePiece(text: string, tok: Tokenizer)
    requires Stops(text, tok) && forall j :: 0 < j < |Lines(text)| ==> !Stops(Concat(Lines(text)[..j]), tok)
    ensures text != "" && Greedy(Lines(text), 0, tok) == ([PieceOf(text, tok)], "")
  {
    hide Stops, Lines, Concat;
    var lines := Lines(text);
    LinesConcat(text);
    SomeLine(text, tok);
    assert lines[0..|lines|] == lines && lines[|lines|..] == [];
    assert forall j :: 0 < j < |lines| ==> lines[0..j] == lines[..j];
    FirstStopIs(lines, 0, 1, |lines|, tok);
    NoTexts();
    assert Greedy(lines, |lines|, tok) == ([], "");
    assert [PieceOf(text, tok)] + [] == [PieceOf(text, tok)];
  }

  lemma SomeLine(text: string, tok: Tokenizer)
    requires Stops(text, tok)
    ensures text != "" && |Lines(text)| > 0
  {
    NothingIsBlank();
  }

  lemma KeptOne(p: Piece)
    ensures Kept([p]) == if p.kept then [p.text] else []
  {
    assert [p][..0] == [] && Kept([]) == [];
  }

  lemma NoChunks(tok: Tokenizer)
    ensures ChunksOf("", tok) == []
  {
    NothingIsBlank();
    NoTexts();
    assert Lines("") == [] && Greedy([], 0, tok) == ([], "");
  }

  /** So text the tokenizer rejects, other than for something unterminated, is dropped without a word, however
      many lines it has and whatever follows, unless its beginning was a piece by itself. */
  lemma RejectedTextIsDropped(text: string, after: string, tok: Tokenizer)
    requires !AllSpace(text) && !Begins(text, ':') && tok(text) == Unlexed(false, false)
    requires forall j :: 0 < j < |Lines(text)| ==> !IsComplete(Concat(Lines(text)[..j]), tok)
    requires after != "" ==> text != "" && text[|text| - 1] == '\n'
    ensures ChunksOf(text + after, tok) == ChunksOf(after, tok)
  {
    hide Lines, Concat, ChunksOf, AllSpace, Begins;
    NothingIsBlank();
    FirstPieceIsJudged(text, after, tok);
  }

  /** A single line, for one. */
  lemma RejectedLineIsDropped(line: string, tok: Tokenizer)
    requires !AllSpace(line) && !Begins(line, ':') && tok(line) == Unlexed(false, false)
    requires forall i :: 0 <= i < |line| - 1 ==> line[i] != '\n'
    ensures ChunksOf(line, tok) == []
  {
    hide ChunksOf, Lines, AllSpace, Begins;
    NothingIsBlank();
    OneLine(line);
    assert line + "" == line;
    NoChunks(tok);
    RejectedTextIsDropped(line, "", tok);
  }

  lemma NothingIsBlank()
    ensures IsBlank("") && AllSpace("")
  {
  }

  lemma Regroup<T>(a: seq<T>, b: seq<T>, c: seq<T>)
    ensures (a + b) + c == (a + []) + (b + c)
  {
  }
}
