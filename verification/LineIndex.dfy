/** Byte offsets against editor positions (`src/ruxen_ide/src/line_index.rs`). A position counts
    UTF-16 code units from the start of its line, as the "Position" heading of LSP 3.17 has it. */
module LineIndex {
  import opened Common
  import opened Utf

  datatype Position = Position(line: nat, character: nat)

  datatype Range = Range(start: Position, end: Position)

  datatype Span = Span(start: nat, end: nat)

  /** The line starts, as byte offsets, and the text. */
  datatype Index = Index(lineStarts: seq<nat>, source: seq<Scalar>)

  /** The order of positions in a document. */
  predicate Before(p: Position, q: Position) {
    p.line < q.line || (p.line == q.line && p.character < q.character)
  }

  function Units(cs: seq<Scalar>): nat {
    if cs == [] then 0 else Units(cs[..|cs| - 1]) + Len16(cs[|cs| - 1])
  }

  // ---------------------------------------------------------------------------------------
  // What a position means: read the text from the start and count.
  // ---------------------------------------------------------------------------------------

  /** The position of the `k`-th character: newlines so far, and code units since the last one. */
  function PositionAt(cs: seq<Scalar>, k: nat): Position
    requires k <= |cs|
  {
    if k == 0 then Position(0, 0)
    else
      var p := PositionAt(cs, k - 1);
      if cs[k - 1] == NEWLINE then Position(p.line + 1, 0) else p.(character := p.character + Len16(cs[k - 1]))
  }

  /** The first character of the line that the `k`-th character is on. */
  function LineStart(cs: seq<Scalar>, k: nat): (s: nat)
    requires k <= |cs|
    ensures s <= k
  {
    if k == 0 then 0 else if cs[k - 1] == NEWLINE then k else LineStart(cs, k - 1)
  }

  /** `p` is the position of the `k`-th character, said without counting along: as many newlines before it as
      `p.line` says, and as many code units in the UTF-16 of what is behind the last of them. */
  ghost predicate IsPositionOf(cs: seq<Scalar>, k: nat, p: Position) {
    && k <= |cs|
    && p.line == Newlines(cs[..k])
    && exists s :: BeginsLine(cs, s, k) && p.character == |Utf16(cs[s..k])|
  }

  function Newlines(cs: seq<Scalar>): nat {
    if cs == [] then 0 else Newlines(cs[..|cs| - 1]) + (if cs[|cs| - 1] == '\n' as int then 1 else 0)
  }

  /** The line that the `k`-th character is on begins with the `s`-th. */
  ghost predicate BeginsLine(cs: seq<Scalar>, s: int, k: nat) {
    && 0 <= s <= k <= |cs|
    && (s == 0 || cs[s - 1] == '\n' as int)
    && forall i :: s <= i < k ==> cs[i] != '\n' as int
  }

  lemma {:induction false} UnitsAreUtf16(cs: seq<Scalar>)
    ensures Units(cs) == |Utf16(cs)|
  {
    if cs != [] {
      UnitsAreUtf16(cs[..|cs| - 1]);
      UnitsOfChar(cs[|cs| - 1]);
    }
  }

  lemma {:induction false} LinesAreNewlines(cs: seq<Scalar>, k: nat)
    requires k <= |cs|
    ensures PositionAt(cs, k).line == Newlines(cs[..k])
  {
    if k > 0 {
      LinesAreNewlines(cs, k - 1);
      assert cs[..k][..k - 1] == cs[..k - 1];
    }
  }

  /** And it is the only one. */
  lemma PositionMeans(cs: seq<Scalar>, k: nat, p: Position)
    requires k <= |cs|
    ensures IsPositionOf(cs, k, p) <==> p == PositionAt(cs, k)
  {
    hide PositionAt, Units, Utf16, Newlines, LineStart;
    var start := LineStart(cs, k);
    LinesAreNewlines(cs, k);
    ColumnIsUnits(cs, k);
    UnitsAreUtf16(cs[start..k]);
    NoNewlineBehind(cs, k);
    LineStartBegins(cs, k);
    assert BeginsLine(cs, start, k);
    assert forall s :: BeginsLine(cs, s, k) ==> s == start;
  }

  lemma {:induction false} LineStartBegins(cs: seq<Scalar>, k: nat)
    requires k <= |cs|
    ensures LineStart(cs, k) == 0 || cs[LineStart(cs, k) - 1] == '\n' as int
  {
    if k > 0 { LineStartBegins(cs, k - 1); }
  }

  /** The position of a byte offset: that of the character it falls in, or of the end. */
  function PositionOfByte(cs: seq<Scalar>, i: nat): Position {
    PositionAt(cs, FloorChar(cs, i))
  }

  /** Some character of the text, or its end, is at this position. */
  ghost predicate Addressable(cs: seq<Scalar>, p: Position) {
    exists k :: 0 <= k <= |cs| && PositionAt(cs, k) == p
  }

  // ---------------------------------------------------------------------------------------
  // The code.
  // ---------------------------------------------------------------------------------------

  /** The entries pushed for the newlines among the first `i` bytes, after the initial 0. */
  function StartsUpTo(bs: seq<Byte>, i: nat): (r: seq<nat>)
    requires i <= |bs|
    ensures r != []
  {
    if i == 0 then [0]
    else StartsUpTo(bs, i - 1) + (if bs[i - 1] == NEWLINE then [i % U32] else [])
  }

  /** The index of a text. */
  function Of(cs: seq<Scalar>): Index {
    Index(StartsUpTo(Encode(cs), |Encode(cs)|), cs)
  }

  /** The line starts are 0 and the offsets just past the newlines, in order. */
  ghost predicate AreLineStarts(bytes: seq<Byte>, starts: seq<nat>) {
    && Sorted(starts)
    && forall i :: i in starts <==> i == 0 || (0 < i <= |bytes| && bytes[i - 1] == '\n' as int)
  }

  method New(source: seq<Scalar>) returns (index: Index)
    ensures index == Of(source)
    ensures |Encode(source)| < U32 ==> AreLineStarts(Encode(source), index.lineStarts)
  {
    var bytes, lineStarts := Encode(source), [0];
    for i := 0 to |bytes|
      invariant lineStarts == StartsUpTo(bytes, i)
    {
      if bytes[i] == NEWLINE {
        lineStarts := lineStarts + [(i + 1) % U32];
      }
    }
    index := Index(lineStarts, source);
    if |bytes| < U32 { StartsAreLineStarts(bytes); }
  }

  lemma StartsAreLineStarts(bs: seq<Byte>)
    requires |bs| < U32
    ensures AreLineStarts(bs, StartsUpTo(bs, |bs|))
  {
    StartsSorted(bs, |bs|);
    StartsFollowNewlines(bs, |bs|);
  }

  lemma {:induction false} StartsFollowNewlines(bs: seq<Byte>, n: nat)
    requires n <= |bs| < U32
    ensures forall i :: i in StartsUpTo(bs, n) <==> i == 0 || (0 < i <= n && bs[i - 1] == '\n' as int)
  {
    if n > 0 { StartsFollowNewlines(bs, n - 1); }
  }

  method FloorCharBoundary(s: seq<Scalar>, index: nat) returns (i: nat)
    ensures i == Off(s, FloorChar(s, index))
  {
    var bytes := Encode(s);
    ghost var k := FloorChar(s, index);
    i := Min(index, |bytes|);
    OffIsMonotone(s, k, |s|);
    OffEnds(s);
    while i > 0 && !IsBoundary(bytes, i)
      invariant Off(s, k) <= i <= |bytes| && (k < |s| ==> i < Off(s, k + 1))
    {
      BoundaryAt(s, k);
      i := i - 1;
    }
    BoundaryOnly(s, k, i);
  }

  lemma BoundaryAt(cs: seq<Scalar>, k: nat)
    requires k <= |cs|
    ensures Off(cs, k) <= |Encode(cs)| && IsBoundary(Encode(cs), Off(cs, k))
  {
    OffEnds(cs);
    if k < |cs| { BytesOfChar(cs, k); }
  }

  lemma BoundaryOnly(cs: seq<Scalar>, k: nat, i: nat)
    requires k <= |cs| && Off(cs, k) <= i <= |Encode(cs)| && (k < |cs| ==> i < Off(cs, k + 1))
    requires IsBoundary(Encode(cs), i)
    ensures i == Off(cs, k)
  {
    OffEnds(cs);
    if k < |cs| { BytesOfChar(cs, k); }
  }

  ghost predicate Sorted(a: seq<nat>) {
    forall i, j :: 0 <= i < j < |a| ==> a[i] < a[j]
  }

  /** `partition_point` for "start is at most `x`": a binary search. */
  method PartitionPoint(a: seq<nat>, x: nat) returns (n: nat)
    requires Sorted(a)
    ensures n <= |a| && (forall i :: 0 <= i < n ==> a[i] <= x) && (forall i :: n <= i < |a| ==> x < a[i])
  {
    n := 0;
    var hi := |a|;
    while n < hi
      invariant n <= hi <= |a|
      invariant forall i :: 0 <= i < n ==> a[i] <= x
      invariant forall i :: hi <= i < |a| ==> x < a[i]
    {
      var mid := (n + hi) / 2;
      if a[mid] <= x { n := mid + 1; } else { hi := mid; }
    }
  }

  /** `position_of`: clamp the offset, search for its line, count code units from the line's start. */
  method PositionOf(index: Index, byteOffset: nat) returns (p: Position)
    requires index == Of(index.source) && |Encode(index.source)| < U32
    ensures p == PositionOfByte(index.source, byteOffset)
    ensures IsPositionOf(index.source, FloorChar(index.source, byteOffset), p)
  {
    hide IsPositionOf, Utf16, Off, Encode, Encode1, StartsUpTo, PositionAt, LineStart, Units, Chars, FloorChar, Sorted;
    var bytes := Encode(index.source);
    var at := Min(byteOffset, |bytes|);
    ghost var k := FloorChar(index.source, byteOffset);
    StartsSorted(bytes, |bytes|);
    var n := PartitionPoint(index.lineStarts, at);
    FindLine(index.source, at, n);
    SameFloor(index.source, byteOffset);
    var line := if n == 0 then 0 else n - 1;
    var end := FloorCharBoundary(index.source, at);
    var lineStart := FloorCharBoundary(index.source, index.lineStarts[line]);
    FloorOfOffset(index.source, LineStart(index.source, k));
    SliceChars(index.source, LineStart(index.source, k), k);
    var lineText := Chars(bytes[lineStart..end]);
    ColumnIsUnits(index.source, k);
    PositionFits(index.source, k);
    UnitsAreUtf16(lineText);
    p := Position(line % U32, |Utf16(lineText)| % U32);
    PositionMeans(index.source, k, p);
  }

  /** The character loop of `byte_offset_of`, from `line`'s first character on. */
  function Walk(line: seq<Scalar>, units: nat, offset: nat, character: nat): nat {
    if line == [] || units >= character then offset
    else Walk(line[1..], units + Len16(line[0]), offset + Len8(line[0]), character)
  }

  /** Where the line numbered `line` starts, and where the next one does. */
  function LineBounds(index: Index, line: nat): (nat, nat)
    requires line < |index.lineStarts|
  {
    (index.lineStarts[line],
     if line + 1 < |index.lineStarts| then index.lineStarts[line + 1] else |Encode(index.source)|)
  }

  /** What `byte_offset_of` answers. */
  function OffsetOf(index: Index, p: Position): nat
    requires index == Of(index.source) && |Encode(index.source)| < U32
  {
    if p.line >= |index.lineStarts| then |Encode(index.source)|
    else
      var (start, end) := LineBounds(index, p.line);
      BoundsAreOffsets(index.source, p.line);
      Walk(Chars(Encode(index.source)[start..end]), 0, start, p.character)
  }

  method ByteOffsetOf(index: Index, p: Position) returns (byteOffset: nat)
    requires index == Of(index.source) && |Encode(index.source)| < U32
    ensures byteOffset == OffsetOf(index, p)
  {
    hide Off, Encode, Encode1, StartsUpTo, Chars, FloorChar, Len8, Len16;
    var bytes := Encode(index.source);
    if p.line >= |index.lineStarts| { return |bytes|; }
    var lineStart := index.lineStarts[p.line];
    var lineEnd := if p.line + 1 < |index.lineStarts| then index.lineStarts[p.line + 1] else |bytes|;
    BoundsAreOffsets(index.source, p.line);
    var lineStartSafe := FloorCharBoundary(index.source, lineStart);
    var lineEndSafe := FloorCharBoundary(index.source, lineEnd);
    var lineText := Chars(bytes[lineStartSafe..lineEndSafe]);
    var units: nat := 0;
    byteOffset := lineStart;
    var i := 0;
    while i < |lineText| && units < p.character
      invariant i <= |lineText|
      invariant Walk(lineText, 0, lineStart, p.character) == Walk(lineText[i..], units, byteOffset, p.character)
    {
      assert lineText[i..][1..] == lineText[i + 1..];
      units := units + Len16(lineText[i]);
      byteOffset := byteOffset + Len8(lineText[i]);
      i := i + 1;
    }
  }

  /** `span_to_range`. */
  method SpanToRange(index: Index, span: Span) returns (r: Range)
    requires index == Of(index.source) && |Encode(index.source)| < U32
    ensures r == Range(PositionOfByte(index.source, span.start), PositionOfByte(index.source, span.end))
  {
    var start := PositionOf(index, span.start);
    var end := PositionOf(index, span.end);
    r := Range(start, end);
  }

  // ---------------------------------------------------------------------------------------
  // Line starts.
  // ---------------------------------------------------------------------------------------

  lemma {:induction false} StartsSorted(bs: seq<Byte>, i: nat)
    requires i <= |bs| < U32
    ensures Sorted(StartsUpTo(bs, i)) && forall l :: 0 <= l < |StartsUpTo(bs, i)| ==> StartsUpTo(bs, i)[l] <= i
  {
    if i > 0 { StartsSorted(bs, i - 1); }
  }

  /** The starts at or before `i` come first, and the others are after `i`. */
  lemma {:induction false} StartsArePrefix(bs: seq<Byte>, i: nat, j: nat)
    requires i <= j <= |bs| < U32
    ensures StartsUpTo(bs, i) <= StartsUpTo(bs, j)
    ensures forall l :: |StartsUpTo(bs, i)| <= l < |StartsUpTo(bs, j)| ==> StartsUpTo(bs, j)[l] > i
    decreases j - i
  {
    if i < j { StartsArePrefix(bs, i, j - 1); }
  }

  lemma {:induction false} NoNewlineNoStart(bs: seq<Byte>, i: nat, j: nat)
    requires i <= j <= |bs| && forall n :: i <= n < j ==> bs[n] != NEWLINE
    ensures StartsUpTo(bs, j) == StartsUpTo(bs, i)
    decreases j - i
  {
    if i < j { NoNewlineNoStart(bs, i, j - 1); }
  }

  /** Within a character, only a newline adds a line start, after it. */
  lemma StartsWithin(cs: seq<Scalar>, k: nat, i: nat)
    requires k < |cs| && Off(cs, k) <= i <= Off(cs, k + 1) && |Encode(cs)| < U32
    ensures Off(cs, k) <= i <= |Encode(cs)|
    ensures i == Off(cs, k) || cs[k] != NEWLINE ==> StartsUpTo(Encode(cs), i) == StartsUpTo(Encode(cs), Off(cs, k))
    ensures i > Off(cs, k) && cs[k] == NEWLINE ==>
            i == Off(cs, k + 1) && StartsUpTo(Encode(cs), i) == StartsUpTo(Encode(cs), Off(cs, k)) + [i]
  {
    hide Off, Encode, Encode1;
    BytesOfChar(cs, k);
    SplitAt(cs, k);
    if cs[k] != NEWLINE { NoNewlineNoStart(Encode(cs), Off(cs, k), i); }
  }

  /** At a character: as many line starts as its line's number says, the last its line's. */
  lemma {:induction false} StartsAtChar(cs: seq<Scalar>, k: nat)
    requires k <= |cs| && |Encode(cs)| < U32
    ensures Off(cs, k) <= |Encode(cs)|
    ensures var starts := StartsUpTo(Encode(cs), Off(cs, k));
            |starts| == PositionAt(cs, k).line + 1 && starts[|starts| - 1] == Off(cs, LineStart(cs, k))
  {
    OffEnds(cs);
    if k > 0 {
      StartsAtChar(cs, k - 1);
      SplitAt(cs, k - 1);
      StartsWithin(cs, k - 1, Off(cs, k));
    }
  }

  lemma FloorOfOffset(cs: seq<Scalar>, k: nat)
    requires k <= |cs|
    ensures FloorChar(cs, Off(cs, k)) == k
  {
    var j := FloorChar(cs, Off(cs, k));
    if j < k { OffIsMonotone(cs, j + 1, k); }
    if k < j { OffIsMonotone(cs, k, j); }
  }

  lemma SameFloor(cs: seq<Scalar>, i: nat)
    ensures FloorChar(cs, Min(i, |Encode(cs)|)) == FloorChar(cs, i)
  {
  }

  lemma CountStarts(bs: seq<Byte>, at: nat, n: nat)
    requires at <= |bs| < U32
    requires var a := StartsUpTo(bs, |bs|);
             n <= |a| && (forall i :: 0 <= i < n ==> a[i] <= at) && (forall i :: n <= i < |a| ==> at < a[i])
    ensures n == |StartsUpTo(bs, at)|
  {
    hide StartsUpTo;
    var a, b := StartsUpTo(bs, |bs|), StartsUpTo(bs, at);
    StartsArePrefix(bs, at, |bs|);
    StartsSorted(bs, at);
    assert forall i :: 0 <= i < |b| ==> a[i] == b[i] <= at;
    assert |b| < |a| ==> at < a[|b|];
    assert n < |a| ==> at < a[n];
  }

  /** The binary search lands on the one line that contains the offset. */
  lemma FindLine(cs: seq<Scalar>, at: nat, n: nat)
    requires at <= |Encode(cs)| < U32
    requires var a := Of(cs).lineStarts;
             n <= |a| && (forall i :: 0 <= i < n ==> a[i] <= at) && (forall i :: n <= i < |a| ==> at < a[i])
    ensures var k := FloorChar(cs, at);
            n == PositionAt(cs, k).line + 1 && n <= |Of(cs).lineStarts|
            && Of(cs).lineStarts[n - 1] == Off(cs, LineStart(cs, k))
  {
    hide Off, Encode, StartsUpTo, PositionAt, LineStart;
    var bs, k := Encode(cs), FloorChar(cs, at);
    CountStarts(bs, at, n);
    StartsArePrefix(bs, at, |bs|);
    OffEnds(cs);
    StartsAtChar(cs, k);
    if k < |cs| { StartsWithin(cs, k, at); }
  }

  lemma {:induction false} ColumnIsUnits(cs: seq<Scalar>, k: nat)
    requires k <= |cs|
    ensures PositionAt(cs, k).character == Units(cs[LineStart(cs, k)..k])
  {
    if k > 0 && cs[k - 1] != NEWLINE {
      ColumnIsUnits(cs, k - 1);
      var line := cs[LineStart(cs, k)..k];
      assert line[..|line| - 1] == cs[LineStart(cs, k)..k - 1];
    }
  }

  /** Neither coordinate overflows a 32-bit counter when the text does not. */
  lemma {:induction false} PositionFits(cs: seq<Scalar>, k: nat)
    requires k <= |cs|
    ensures PositionAt(cs, k).line <= Off(cs, k) <= |Encode(cs)| && PositionAt(cs, k).character <= Off(cs, k)
  {
    OffIsMonotone(cs, k, |cs|);
    if k > 0 {
      PositionFits(cs, k - 1);
      SplitAt(cs, k - 1);
    }
  }

  ghost predicate AllOffsets(cs: seq<Scalar>, starts: seq<nat>) {
    forall l :: 0 <= l < |starts| ==> Off(cs, FloorChar(cs, starts[l])) == starts[l]
  }

  lemma {:induction false} StartsAreOffsets(cs: seq<Scalar>, k: nat)
    requires k <= |cs| && |Encode(cs)| < U32
    ensures Off(cs, k) <= |Encode(cs)| && AllOffsets(cs, StartsUpTo(Encode(cs), Off(cs, k)))
  {
    OffEnds(cs);
    if k == 0 {
      FloorOfOffset(cs, 0);
    } else {
      StartsAreOffsets(cs, k - 1);
      SplitAt(cs, k - 1);
      StartsWithin(cs, k - 1, Off(cs, k));
      FloorOfOffset(cs, k);
    }
  }

  /** A line starts and ends on character boundaries. */
  lemma BoundsAreOffsets(cs: seq<Scalar>, line: nat)
    requires |Encode(cs)| < U32 && line < |Of(cs).lineStarts|
    ensures var (start, end) := LineBounds(Of(cs), line);
            && start <= end <= |Encode(cs)|
            && Off(cs, FloorChar(cs, start)) == start && Off(cs, FloorChar(cs, end)) == end
  {
    OffEnds(cs);
    StartsSorted(Encode(cs), |Encode(cs)|);
    StartsAreOffsets(cs, |cs|);
    FloorOfOffset(cs, |cs|);
  }

  // ---------------------------------------------------------------------------------------
  // Offset to position and back.
  // ---------------------------------------------------------------------------------------

  lemma {:induction false} UnitsGrow(cs: seq<Scalar>, i: nat, j: nat)
    requires i <= j <= |cs|
    ensures Units(cs[..i]) + (j - i) <= Units(cs[..j])
    decreases j - i
  {
    if i < j {
      UnitsGrow(cs, i, j - 1);
      assert cs[..j][..j - 1] == cs[..j - 1];
    }
  }

  /** The walk stops at the first character at or past the column, or at the end of the line. */
  lemma {:induction false} WalkStops(t: seq<Scalar>, i: nat, start: nat, character: nat) returns (m: nat)
    requires i <= |t| && forall j :: 0 <= j < i ==> Units(t[..j]) < character
    ensures m <= |t| && (m == |t| || Units(t[..m]) >= character)
    ensures forall j :: 0 <= j < m ==> Units(t[..j]) < character
    ensures Walk(t[i..], Units(t[..i]), start + Off(t, i), character) == start + Off(t, m)
    decreases |t| - i
  {
    m := i;
    if i < |t| && Units(t[..i]) < character {
      assert t[i..][1..] == t[i + 1..] && t[..i + 1][..i] == t[..i];
      SplitAt(t, i);
      m := WalkStops(t, i + 1, start, character);
    }
  }

  /** The characters of a line, its newline included. */
  function LineText(cs: seq<Scalar>, line: nat): seq<Scalar>
    requires |Encode(cs)| < U32 && line < |Of(cs).lineStarts|
  {
    var (start, end) := LineBounds(Of(cs), line);
    BoundsAreOffsets(cs, line);
    cs[FirstChar(cs, line)..FloorChar(cs, end)]
  }

  function FirstChar(cs: seq<Scalar>, line: nat): (s: nat)
    requires |Encode(cs)| < U32 && line < |Of(cs).lineStarts|
    ensures var (start, end) := LineBounds(Of(cs), line); s <= FloorChar(cs, end) <= |cs| && Off(cs, s) == start
  {
    var (start, end) := LineBounds(Of(cs), line);
    BoundsAreOffsets(cs, line);
    FloorIsMonotone(cs, start, end);
    FloorChar(cs, start)
  }

  lemma FloorIsMonotone(cs: seq<Scalar>, i: nat, j: nat)
    requires i <= j
    ensures FloorChar(cs, i) <= FloorChar(cs, j)
  {
    var k, l := FloorChar(cs, i), FloorChar(cs, j);
    if l < k { OffIsMonotone(cs, l + 1, k); }
  }

  lemma OffWithin(cs: seq<Scalar>, s: nat, e: nat, m: nat)
    requires s <= e <= |cs| && m <= e - s
    ensures Off(cs, s + m) == Off(cs, s) + Off(cs[s..e], m)
  {
    assert cs[..s + m] == cs[..s] + cs[s..e][..m];
    EncodeAppend(cs[..s], cs[s..e][..m]);
  }

  /** What `byte_offset_of` answers, on any position: the end of the text past the last line, and
      otherwise the first boundary of the line at or past the column, or the end of the line. */
  lemma OffsetRoundsUp(cs: seq<Scalar>, p: Position) returns (m: nat)
    requires |Encode(cs)| < U32 && p.line < |Of(cs).lineStarts|
    ensures var t, s := LineText(cs, p.line), FirstChar(cs, p.line);
            && m <= |t| && s + |t| <= |cs|
            && OffsetOf(Of(cs), p) == Off(cs, s + m)
            && (m == |t| || Units(t[..m]) >= p.character)
            && forall j :: 0 <= j < m ==> Units(t[..j]) < p.character
  {
    hide StartsUpTo, Encode, FloorChar, Off, Chars;
    var s := FirstChar(cs, p.line);
    var (start, end) := LineBounds(Of(cs), p.line);
    var e, t := FloorChar(cs, end), LineText(cs, p.line);
    BoundsAreOffsets(cs, p.line);
    SliceChars(cs, s, e);
    m := WalkStops(t, 0, start, p.character);
    OffEnds(t);
    OffWithin(cs, s, e, m);
  }

  /** The line a character is on, found through the index. */
  lemma LineOfChar(cs: seq<Scalar>, k: nat)
    requires k <= |cs| && |Encode(cs)| < U32
    ensures var p := PositionAt(cs, k);
            && p.line < |Of(cs).lineStarts|
            && FirstChar(cs, p.line) == LineStart(cs, k)
            && k - LineStart(cs, k) <= |LineText(cs, p.line)|
            && LineText(cs, p.line)[..k - LineStart(cs, k)] == cs[LineStart(cs, k)..k]
  {
    hide StartsUpTo, Encode, FloorChar, Off;
    var bs, p, s := Encode(cs), PositionAt(cs, k), LineStart(cs, k);
    OffEnds(cs);
    StartsAtChar(cs, k);
    StartsArePrefix(bs, Off(cs, k), |bs|);
    FloorOfOffset(cs, s);
    FloorOfOffset(cs, k);
    var (start, end) := LineBounds(Of(cs), p.line);
    FloorIsMonotone(cs, Off(cs, k), end);
  }

  /** Offset to position and back: the boundary at or before the offset. */
  lemma OffsetThereAndBack(cs: seq<Scalar>, i: nat)
    requires |Encode(cs)| < U32
    ensures OffsetOf(Of(cs), PositionOfByte(cs, i)) == Off(cs, FloorChar(cs, i))
  {
    hide StartsUpTo, Encode, FloorChar, Off, OffsetOf, LineText, FirstChar, Units;
    var k := FloorChar(cs, i);
    var p, s := PositionAt(cs, k), LineStart(cs, k);
    LineOfChar(cs, k);
    ColumnIsUnits(cs, k);
    var t := LineText(cs, p.line);
    var m := OffsetRoundsUp(cs, p);
    UnitsGrow(t, if m < k - s then m else k - s, if m < k - s then k - s else m);
  }

  /** Position to offset and back is the identity on exactly the positions that some character or
      the end of the text has. */
  lemma PositionThereAndBack(cs: seq<Scalar>, p: Position)
    requires |Encode(cs)| < U32
    ensures PositionOfByte(cs, OffsetOf(Of(cs), p)) == p <==> Addressable(cs, p)
  {
    hide StartsUpTo, Encode, FloorChar, Off, OffsetOf, PositionAt;
    if Addressable(cs, p) {
      var k :| 0 <= k <= |cs| && PositionAt(cs, k) == p;
      FloorOfOffset(cs, k);
      OffsetThereAndBack(cs, Off(cs, k));
    }
  }

  /** Characters of a line have its number, and count columns from 0. */
  lemma {:induction false} AlongTheLine(cs: seq<Scalar>, s: nat, k: nat)
    requires s <= k <= |cs| && PositionAt(cs, s).character == 0 && forall i :: s <= i < k ==> cs[i] != NEWLINE
    ensures PositionAt(cs, k) == Position(PositionAt(cs, s).line, Units(cs[s..k]))
    decreases k
  {
    if s < k {
      AlongTheLine(cs, s, k - 1);
      assert cs[s..k][..k - s - 1] == cs[s..k - 1];
    }
  }

  lemma FirstCharIsAtColumnZero(cs: seq<Scalar>, line: nat)
    requires |Encode(cs)| < U32 && line < |Of(cs).lineStarts|
    ensures PositionAt(cs, FirstChar(cs, line)) == Position(line, 0)
  {
    hide StartsUpTo, Encode, FloorChar, Off;
    var s, bs := FirstChar(cs, line), Encode(cs);
    OffEnds(cs);
    OffIsMonotone(cs, s, |cs|);
    StartsAtChar(cs, s);
    StartsSorted(bs, |bs|);
    StartsSorted(bs, Off(cs, s));
    StartsArePrefix(bs, Off(cs, s), |bs|);
    OffIsMonotone(cs, LineStart(cs, s), s);
    ColumnIsUnits(cs, s);
  }

  lemma {:induction false} NoNewlineBehind(cs: seq<Scalar>, k: nat)
    requires k <= |cs|
    ensures forall i :: LineStart(cs, k) <= i < k ==> cs[i] != NEWLINE
  {
    if k > 0 { NoNewlineBehind(cs, k - 1); }
  }

  /** A caller's test for such a position: the line exists, and the column is the width of some
      prefix of it that does not run past its newline, so splits no surrogate pair. */
  ghost predicate OnLine(cs: seq<Scalar>, p: Position)
    requires |Encode(cs)| < U32
  {
    && p.line < |Of(cs).lineStarts|
    && exists j :: 0 <= j <= |LineText(cs, p.line)| && IsColumn(LineText(cs, p.line), j, p.character)
  }

  predicate IsColumn(t: seq<Scalar>, j: nat, character: nat)
    requires j <= |t|
  {
    |Utf16(t[..j])| == character && forall i :: 0 <= i < j ==> t[i] != '\n' as int
  }

  lemma CharIsOnLine(cs: seq<Scalar>, k: nat)
    requires k <= |cs| && |Encode(cs)| < U32
    ensures OnLine(cs, PositionAt(cs, k))
  {
    hide StartsUpTo, Encode, FloorChar, Off, PositionAt, LineStart, Units, Utf16, LineText;
    var p := PositionAt(cs, k);
    LineOfChar(cs, k);
    ColumnIsUnits(cs, k);
    NoNewlineBehind(cs, k);
    var t, j := LineText(cs, p.line), k - LineStart(cs, k);
    UnitsAreUtf16(t[..j]);
    assert forall i :: 0 <= i < j ==> t[i] == t[..j][i];
    assert IsColumn(t, j, p.character);
  }

  lemma ColumnIsPosition(cs: seq<Scalar>, p: Position, j: nat)
    requires |Encode(cs)| < U32 && p.line < |Of(cs).lineStarts|
    requires j <= |LineText(cs, p.line)| && IsColumn(LineText(cs, p.line), j, p.character)
    ensures Addressable(cs, p)
  {
    hide StartsUpTo, Encode, FloorChar, Off, PositionAt, LineStart, Units, Utf16;
    var t, s := LineText(cs, p.line), FirstChar(cs, p.line);
    FirstCharIsAtColumnZero(cs, p.line);
    UnitsAreUtf16(t[..j]);
    assert cs[s..s + j] == t[..j];
    assert forall i :: s <= i < s + j ==> cs[i] == t[i - s];
    AlongTheLine(cs, s, s + j);
    assert PositionAt(cs, s + j) == p;
  }

  lemma AddressableIff(cs: seq<Scalar>, p: Position)
    requires |Encode(cs)| < U32
    ensures Addressable(cs, p) <==> OnLine(cs, p)
  {
    hide StartsUpTo, Encode, PositionAt, IsColumn, LineText;
    if k :| 0 <= k <= |cs| && PositionAt(cs, k) == p { CharIsOnLine(cs, k); }
    if OnLine(cs, p) {
      var j :| 0 <= j <= |LineText(cs, p.line)| && IsColumn(LineText(cs, p.line), j, p.character);
      ColumnIsPosition(cs, p, j);
    }
  }

  // ---------------------------------------------------------------------------------------
  // Order.
  // ---------------------------------------------------------------------------------------

  /** Later characters are at later positions. */
  lemma {:induction false} PositionsIncrease(cs: seq<Scalar>, i: nat, j: nat)
    requires i < j <= |cs|
    ensures Before(PositionAt(cs, i), PositionAt(cs, j))
    decreases j
  {
    if i < j - 1 { PositionsIncrease(cs, i, j - 1); }
  }

  /** The characters of a line have its number, and a line's text is followed by the next line. */
  lemma OnTheLine(cs: seq<Scalar>, line: nat, m: nat)
    requires |Encode(cs)| < U32 && line < |Of(cs).lineStarts| && m <= |LineText(cs, line)|
    ensures var t, k := LineText(cs, line), FirstChar(cs, line) + m;
            && k <= |cs|
            && (m < |t| ==> PositionAt(cs, k) == Position(line, Units(t[..m])))
            && (m == |t| ==> k == |cs| || PositionAt(cs, k) == Position(line + 1, 0))
  {
    hide StartsUpTo, Encode, FloorChar, Off, PositionAt, Units, LineStart;
    var s, t := FirstChar(cs, line), LineText(cs, line);
    var k, last := s + m, line + 1 == |Of(cs).lineStarts|;
    BoundsAreOffsets(cs, line);
    FirstCharIsAtColumnZero(cs, line);
    if last { TextEnds(cs); } else { FirstCharIsAtColumnZero(cs, line + 1); }
    if m < |t| {
      if s < k { PositionsIncrease(cs, s, k); }
      if !last { PositionsIncrease(cs, k, s + |t|); }
      LineOfChar(cs, k);
      ColumnIsUnits(cs, k);
      assert t[..m] == cs[s..k];
    }
  }

  lemma TextEnds(cs: seq<Scalar>)
    ensures FloorChar(cs, |Encode(cs)|) == |cs|
  {
    OffEnds(cs);
    FloorOfOffset(cs, |cs|);
  }

  /** What `byte_offset_of` answers, said without lines: the first character that is not before the position
      asked for, or the end of the text. */
  lemma OffsetIsFirst(cs: seq<Scalar>, p: Position) returns (k: nat)
    requires |Encode(cs)| < U32
    ensures k <= |cs| && OffsetOf(Of(cs), p) == Off(cs, k)
    ensures k == |cs| || !Before(PositionAt(cs, k), p)
    ensures forall j :: 0 <= j < k ==> Before(PositionAt(cs, j), p)
  {
    hide StartsUpTo, Encode, FloorChar, Off, PositionAt, Units, LineStart, LineText, FirstChar;
    if p.line >= |Of(cs).lineStarts| {
      k := |cs|;
      OffEnds(cs);
      forall j | 0 <= j < k ensures Before(PositionAt(cs, j), p) {
        LineOfChar(cs, j);
      }
    } else {
      var s, t := FirstChar(cs, p.line), LineText(cs, p.line);
      var m := OffsetRoundsUp(cs, p);
      k := s + m;
      OnTheLine(cs, p.line, m);
      FirstCharIsAtColumnZero(cs, p.line);
      forall j | 0 <= j < k ensures Before(PositionAt(cs, j), p) {
        if j < s { PositionsIncrease(cs, j, s); } else { OnTheLine(cs, p.line, j - s); }
      }
    }
  }

  /** `position_of` is monotone, strictly so on character boundaries. */
  lemma PositionsMonotone(cs: seq<Scalar>, i: nat, j: nat)
    requires i <= j
    ensures PositionOfByte(cs, i) == PositionOfByte(cs, j) || Before(PositionOfByte(cs, i), PositionOfByte(cs, j))
    ensures i < j <= |Encode(cs)| && IsBoundary(Encode(cs), i) && IsBoundary(Encode(cs), j) ==>
            Before(PositionOfByte(cs, i), PositionOfByte(cs, j))
  {
    hide Encode, Off, FloorChar, PositionAt, IsBoundary;
    FloorIsMonotone(cs, i, j);
    var k, l := FloorChar(cs, i), FloorChar(cs, j);
    if k < l { PositionsIncrease(cs, k, l); }
    if i < j <= |Encode(cs)| {
      BoundaryMeansOffset(cs, i);
      BoundaryMeansOffset(cs, j);
    }
  }

  /** Spans that do not overlap become ranges that do not overlap, and an ordered span an ordered
      range. */
  lemma DisjointSpans(cs: seq<Scalar>, a: Span, b: Span)
    requires a.start <= a.end <= b.start <= b.end
    ensures !Before(PositionOfByte(cs, b.start), PositionOfByte(cs, a.end))
    ensures !Before(PositionOfByte(cs, a.end), PositionOfByte(cs, a.start))
  {
    PositionsMonotone(cs, a.end, b.start);
    PositionsMonotone(cs, a.start, a.end);
  }
}
