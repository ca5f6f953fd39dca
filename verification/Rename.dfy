/** Renaming a symbol (`src/ruxen_ide/src/rename.rs`): narrowing each recorded span to the name in
    it, collecting the edits, and what applying them does to the text. */
module Rename {
  import opened Common
  import opened Utf
  import LineIndex

  type Span = LineIndex.Span

  // ---------------------------------------------------------------------------------------
  // The code.
  // ---------------------------------------------------------------------------------------

  /** `is_ident_byte`: ASCII letters, digits and the underscore. */
  predicate IsIdent(b: Byte) {
    48 <= b <= 57 || 65 <= b <= 90 || 97 <= b <= 122 || b == 95
  }

  predicate IsDigit(b: Byte) {
    48 <= b <= 57
  }

  const LOWER: string := "abcdefghijklmnopqrstuvwxyz"
  const UPPER: string := "ABCDEFGHIJKLMNOPQRSTUVWXYZ"
  const DIGITS: string := "0123456789"

  /** The characters those bytes are. */
  lemma IdentBytes(b: Byte)
    ensures IsDigit(b) <==> b as char in DIGITS
    ensures IsLower(b) <==> b as char in LOWER
    ensures IsUpper(b) <==> b as char in UPPER
    ensures IsIdent(b) <==> b as char in LOWER || b as char in UPPER || b as char in DIGITS || b as char == '_'
  {
    InTable(b as char, DIGITS, '0');
    InTable(b as char, LOWER, 'a');
    InTable(b as char, UPPER, 'A');
  }

  lemma InTable(c: char, table: string, first: char)
    requires first as int + |table| < 0xD800
    requires forall i :: 0 <= i < |table| ==> table[i] as int == first as int + i
    ensures c in table <==> first as int <= c as int < first as int + |table|
  {
    if first as int <= c as int < first as int + |table| {
      assert table[c as int - first as int] == c;
    }
  }

  /** `name` stands at `i` inside `bytes[lo..hi]`, with no identifier byte of that slice on either side. */
  predicate StandsAt(bytes: seq<Byte>, lo: nat, hi: nat, name: seq<Byte>, i: nat)
    requires lo <= hi <= |bytes|
  {
    var j := i + |name|;
    && lo <= i && j <= hi
    && bytes[i..j] == name
    && (i == lo || !IsIdent(bytes[i - 1]))
    && (j == hi || !IsIdent(bytes[j]))
  }

  /** `narrow_to_identifier`: the first place the name stands in the span. */
  method NarrowToIdentifier(bytes: seq<Byte>, host: Span, name: seq<Byte>) returns (r: Option<Span>)
    ensures r == Narrowed(bytes, host, name)
  {
    hide First, IsIdent;
    if name == [] { return None; }
    var start, end := Min(host.start, |bytes|), Min(host.end, |bytes|);
    if start >= end { return None; }
    var slice := bytes[start..end];
    var i: nat := 0;
    while i + |name| <= |slice|
      invariant forall k: nat :: start <= k < start + i ==> !StandsAt(bytes, start, end, name, k)
    {
      SliceWindow(bytes, start, end, i, |name|);
      if slice[i..i + |name|] == name {
        var beforeOk := i == 0 || !IsIdent(slice[i - 1]);
        var afterOk := i + |name| == |slice| || !IsIdent(slice[i + |name|]);
        if beforeOk && afterOk {
          FirstIs(bytes, start, end, name, start + i);
          return Some(LineIndex.Span(start + i, start + i + |name|));
        }
      }
      i := i + 1;
    }
    NoFirst(bytes, start, end, name);
    return None;
  }

  lemma SliceWindow(bytes: seq<Byte>, start: nat, end: nat, i: nat, n: nat)
    requires start <= end <= |bytes| && i + n <= end - start
    ensures bytes[start..end][i..i + n] == bytes[start + i..start + i + n]
    ensures i > 0 ==> bytes[start..end][i - 1] == bytes[start + i - 1]
    ensures i + n < end - start ==> bytes[start..end][i + n] == bytes[start + i + n]
  {
    var a, b := bytes[start..end][i..i + n], bytes[start + i..start + i + n];
    forall k | 0 <= k < n ensures a[k] == b[k] {
    }
  }

  function Narrowed(bytes: seq<Byte>, host: Span, name: seq<Byte>): (r: Option<Span>) {
    var start, end := Min(host.start, |bytes|), Min(host.end, |bytes|);
    if name == [] || start >= end then None
    else
      match First(bytes, start, end, name, start)
      case None => None
      case Some(i) => Some(LineIndex.Span(i, i + |name|))
  }

  function First(bytes: seq<Byte>, lo: nat, hi: nat, name: seq<Byte>, i: nat): (r: Option<nat>)
    requires lo <= i <= hi <= |bytes|
    ensures r.Some? ==> i <= r.value && StandsAt(bytes, lo, hi, name, r.value)
    ensures r.Some? ==> forall k: nat :: i <= k < r.value ==> !StandsAt(bytes, lo, hi, name, k)
    ensures r.None? ==> forall k: nat :: i <= k ==> !StandsAt(bytes, lo, hi, name, k)
    decreases hi - i
  {
    if StandsAt(bytes, lo, hi, name, i) then Some(i)
    else if i < hi then First(bytes, lo, hi, name, i + 1)
    else None
  }

  lemma FirstIs(bytes: seq<Byte>, lo: nat, hi: nat, name: seq<Byte>, i: nat)
    requires lo <= hi <= |bytes| && StandsAt(bytes, lo, hi, name, i)
    requires forall k: nat :: lo <= k < i ==> !StandsAt(bytes, lo, hi, name, k)
    ensures First(bytes, lo, hi, name, lo) == Some(i)
  {
    var r := First(bytes, lo, hi, name, lo);
    assert r.Some? && r.value >= i;
  }

  lemma NoFirst(bytes: seq<Byte>, lo: nat, hi: nat, name: seq<Byte>)
    requires lo <= hi <= |bytes|
    requires forall k: nat :: lo <= k && k + |name| <= hi ==> !StandsAt(bytes, lo, hi, name, k)
    ensures First(bytes, lo, hi, name, lo) == None
  {
  }

  predicate IsSynthetic(s: Span, line: nat) {
    s.start == 0 && s.end == 0 && line == 0
  }

  /** A recorded use: its span, and the line it was recorded with. */
  datatype Use = Use(span: Span, line: nat)

  /** Where a use is renamed, if it is. */
  function Target(bytes: seq<Byte>, use: Use, name: seq<Byte>): Option<Span> {
    if IsSynthetic(use.span, use.line) then None else Narrowed(bytes, use.span, name)
  }

  function Key(s: Span): (nat, nat) {
    (s.start % U32, s.end % U32)
  }

  /** The spans of the edits, in the order of the uses, without repeats. */
  function Collected(bytes: seq<Byte>, uses: seq<Use>, name: seq<Byte>): seq<Span> {
    if uses == [] then []
    else
      var front, t := Collected(bytes, uses[..|uses| - 1], name), Target(bytes, uses[|uses| - 1], name);
      if t.Some? && forall k :: 0 <= k < |front| ==> Key(front[k]) != Key(t.value) then front + [t.value] else front
  }

  /** The edit-collecting loop of `rename`, with its set of ranges already seen. */
  method CollectEdits(bytes: seq<Byte>, uses: seq<Use>, name: seq<Byte>) returns (edits: seq<Span>)
    ensures edits == Collected(bytes, uses, name)
  {
    edits := [];
    var seen: set<(nat, nat)> := {};
    for i := 0 to |uses|
      invariant edits == Collected(bytes, uses[..i], name)
      invariant forall k :: k in seen <==> exists e :: 0 <= e < |edits| && Key(edits[e]) == k
    {
      assert uses[..i + 1][..i] == uses[..i];
      if IsSynthetic(uses[i].span, uses[i].line) { continue; }
      var narrow := NarrowToIdentifier(bytes, uses[i].span, name);
      if narrow.None? { continue; }
      var key := Key(narrow.value);
      if key in seen { continue; }
      ghost var before := edits;
      seen := seen + {key};
      edits := edits + [narrow.value];
      assert forall e :: 0 <= e < |before| ==> edits[e] == before[e];
      assert edits[|before|] == narrow.value;
    }
    assert uses[..|uses|] == uses;
  }

  /** `word_under_cursor`: the identifier the cursor is on or just after. */
  method WordUnderCursor(bytes: seq<Byte>, byteOffset: nat) returns (r: Option<(nat, nat)>)
    requires byteOffset <= |bytes|
    ensures r.Some? <==> exists start: nat, end: nat ::
              IsWordAround(bytes, byteOffset, start, end) && !IsDigit(bytes[start])
    ensures r.Some? ==> IsWordAround(bytes, byteOffset, r.value.0, r.value.1) && !IsDigit(bytes[r.value.0])
  {
    var len := |bytes|;
    if len == 0 { return None; }
    var onIdentHere := byteOffset < len && IsIdent(bytes[byteOffset]);
    var onIdentBefore := byteOffset > 0 && IsIdent(bytes[byteOffset - 1]);
    if !onIdentHere && !onIdentBefore { return None; }
    var start: nat := byteOffset;
    while start > 0 && IsIdent(bytes[start - 1])
      invariant start <= byteOffset && forall i :: start <= i < byteOffset ==> IsIdent(bytes[i])
    {
      start := start - 1;
    }
    var end := byteOffset;
    while end < len && IsIdent(bytes[end])
      invariant byteOffset <= end <= len && forall i :: byteOffset <= i < end ==> IsIdent(bytes[i])
    {
      end := end + 1;
    }
    OneWordAround(bytes, byteOffset, start, end);
    if start == end { return None; }
    if IsDigit(bytes[start]) { return None; }
    assert IsWordAround(bytes, byteOffset, start, end);
    return Some((start, end));
  }

  /** `bytes[start..end]` is a maximal run of identifier bytes, and the cursor touches it. */
  predicate IsWordAround(bytes: seq<Byte>, at: nat, start: nat, end: nat) {
    && start <= at <= end <= |bytes| && start < end
    && (forall i :: start <= i < end ==> IsIdent(bytes[i]))
    && (start == 0 || !IsIdent(bytes[start - 1]))
    && (end == |bytes| || !IsIdent(bytes[end]))
  }

  lemma OneWordAround(bytes: seq<Byte>, at: nat, start: nat, end: nat)
    requires start <= at <= end <= |bytes|
    requires forall i :: start <= i < end ==> IsIdent(bytes[i])
    requires (start == 0 || !IsIdent(bytes[start - 1])) && (end == |bytes| || !IsIdent(bytes[end]))
    ensures forall s: nat, e: nat :: IsWordAround(bytes, at, s, e) ==> s == start && e == end
  {
  }

  // ---------------------------------------------------------------------------------------
  // What the edits are.
  // ---------------------------------------------------------------------------------------

  predicate AllIdent(name: seq<Byte>) {
    forall i :: 0 <= i < |name| ==> IsIdent(name[i])
  }

  /** `s` covers a whole word of the text, spelled `name`. */
  predicate IsWord(bytes: seq<Byte>, s: Span, name: seq<Byte>) {
    && s.start <= s.end <= |bytes|
    && bytes[s.start..s.end] == name
    && (s.start == 0 || !IsIdent(bytes[s.start - 1]))
    && (s.end == |bytes| || !IsIdent(bytes[s.end]))
  }

  /** No word of the text runs across `at`. */
  predicate Cuts(bytes: seq<Byte>, at: nat) {
    at == 0 || at >= |bytes| || !IsIdent(bytes[at - 1]) || !IsIdent(bytes[at])
  }

  /** Narrowing finds a whole word exactly when it did not stop at an end of the span that cuts a
      word in two. */
  lemma NarrowFindsWordIff(bytes: seq<Byte>, host: Span, name: seq<Byte>)
    requires name != [] && AllIdent(name) && Narrowed(bytes, host, name).Some?
    ensures var s := Narrowed(bytes, host, name).value;
            IsWord(bytes, s, name) <==>
            && (s.start == host.start ==> Cuts(bytes, host.start))
            && (s.end == host.end ==> Cuts(bytes, host.end))
  {
    var start, end := Min(host.start, |bytes|), Min(host.end, |bytes|);
    var s := Narrowed(bytes, host, name).value;
    assert StandsAt(bytes, start, end, name, s.start);
    assert bytes[s.start..s.end] == name && name[0] == bytes[s.start] && name[|name| - 1] == bytes[s.end - 1];
  }

  lemma InsideIsIdent(bytes: seq<Byte>, s: Span, name: seq<Byte>, i: int)
    requires AllIdent(name) && IsWord(bytes, s, name)
    ensures |name| == s.end - s.start
    ensures s.start <= i < s.end ==> IsIdent(bytes[i])
  {
    assert |bytes[s.start..s.end]| == s.end - s.start;
    if s.start <= i < s.end { assert bytes[i] == name[i - s.start]; }
  }

  /** Two whole words spelled alike are the same or do not overlap. */
  lemma WordsAreApart(bytes: seq<Byte>, s: Span, t: Span, name: seq<Byte>)
    requires name != [] && AllIdent(name) && IsWord(bytes, s, name) && IsWord(bytes, t, name)
    ensures s == t || s.end <= t.start || t.end <= s.start
  {
    InsideIsIdent(bytes, s, name, t.start - 1);
    InsideIsIdent(bytes, t, name, s.start - 1);
  }

  /** Every recorded span starts and ends between words. */
  ghost predicate OnWordBoundaries(bytes: seq<Byte>, uses: seq<Use>) {
    forall i :: 0 <= i < |uses| ==> Cuts(bytes, uses[i].span.start) && Cuts(bytes, uses[i].span.end)
  }

  ghost predicate AllWords(bytes: seq<Byte>, edits: seq<Span>, name: seq<Byte>) {
    forall i :: 0 <= i < |edits| ==> IsWord(bytes, edits[i], name)
  }

  ghost predicate Apart(edits: seq<Span>) {
    forall i, j :: 0 <= i < j < |edits| ==> edits[i].end <= edits[j].start || edits[j].end <= edits[i].start
  }

  /** The use is renamed at `s`: that is where it narrows to, and the use is a real one. Those that stand for nothing
      in the text are recorded with an empty span at its very start, on line 0. */
  ghost predicate IsRenamedAt(bytes: seq<Byte>, use: Use, name: seq<Byte>, s: Span) {
    use != Use(LineIndex.Span(0, 0), 0) && Narrowed(bytes, use.span, name) == Some(s)
  }

  /** The edits cover whole words spelled with the old name, pairwise disjoint, and they are exactly
      the places the uses narrow to. */
  lemma {:induction false} EditsAreWords(bytes: seq<Byte>, uses: seq<Use>, name: seq<Byte>)
    requires name != [] && AllIdent(name) && OnWordBoundaries(bytes, uses) && |bytes| < U32
    ensures var edits := Collected(bytes, uses, name);
            && AllWords(bytes, edits, name) && Apart(edits)
            && (forall s :: s in edits <==> exists i :: 0 <= i < |uses| && IsRenamedAt(bytes, uses[i], name, s))
  {
    hide Apart, AllWords, IsWord, Narrowed, Key;
    if uses == [] {
      NoEdits(bytes, name);
    } else {
      var n := |uses| - 1;
      var front, t := Collected(bytes, uses[..n], name), Target(bytes, uses[n], name);
      EditsAreWords(bytes, uses[..n], name);
      if t.Some? {
        NarrowedEnds(bytes, uses[n].span, name);
        NarrowFindsWordIff(bytes, uses[n].span, name);
        AddWord(bytes, front, t.value, name);
      }
      var edits := Collected(bytes, uses, name);
      forall s ensures s in edits <==> exists i :: 0 <= i < |uses| && IsRenamedAt(bytes, uses[i], name, s) {
        assert forall i :: 0 <= i < n ==> uses[..n][i] == uses[i];
        assert s in edits <==> s in front || t == Some(s);
      }
    }
  }

  lemma NoEdits(bytes: seq<Byte>, name: seq<Byte>)
    ensures AllWords(bytes, [], name) && Apart([])
  {
  }

  /** The ends of a narrowed span are between words if the recorded span's are. */
  lemma NarrowedEnds(bytes: seq<Byte>, host: Span, name: seq<Byte>)
    requires Narrowed(bytes, host, name).Some? && Cuts(bytes, host.start) && Cuts(bytes, host.end)
    ensures var s := Narrowed(bytes, host, name).value;
            (s.start == host.start ==> Cuts(bytes, host.start)) && (s.end == host.end ==> Cuts(bytes, host.end))
  {
  }

  lemma WordInside(bytes: seq<Byte>, s: Span, name: seq<Byte>)
    requires IsWord(bytes, s, name)
    ensures s.start <= s.end <= |bytes|
  {
  }

  lemma SameKey(s: Span, t: Span)
    requires s.start < U32 && s.end < U32 && t.start < U32 && t.end < U32
    ensures Key(s) == Key(t) <==> s == t
  {
  }

  lemma AddWord(bytes: seq<Byte>, front: seq<Span>, t: Span, name: seq<Byte>)
    requires name != [] && AllIdent(name) && |bytes| < U32
    requires AllWords(bytes, front, name) && Apart(front) && IsWord(bytes, t, name)
    ensures (forall k :: 0 <= k < |front| ==> Key(front[k]) != Key(t)) <==> t !in front
    ensures t !in front ==> AllWords(bytes, front + [t], name) && Apart(front + [t])
  {
    hide IsWord;
    WordInside(bytes, t, name);
    forall k | 0 <= k < |front| ensures Key(front[k]) == Key(t) <==> front[k] == t {
      WordInside(bytes, front[k], name);
      SameKey(front[k], t);
    }
    forall k | 0 <= k < |front| && front[k] != t ensures front[k].end <= t.start || t.end <= front[k].start {
      WordsAreApart(bytes, front[k], t, name);
    }
  }

  // ---------------------------------------------------------------------------------------
  // What applying them does.
  // ---------------------------------------------------------------------------------------

  /** Edits of `n` bytes each, inside the text and pairwise disjoint. */
  ghost predicate AreEdits(bytes: seq<Byte>, edits: seq<Span>, n: nat) {
    && n > 0 && Apart(edits)
    && forall i :: 0 <= i < |edits| ==> edits[i].start + n == edits[i].end <= |bytes|
  }

  function Starts(edits: seq<Span>): set<nat> {
    set i | 0 <= i < |edits| :: edits[i].start
  }

  lemma NoStarts()
    ensures Starts([]) == {}
  {
  }

  /** No edit straddles `m`. */
  ghost predicate Clear(starts: set<nat>, n: nat, m: nat) {
    forall a :: a in starts ==> a + n <= m || m <= a
  }

  /** The text of `bytes[i..j]` with the edits made all at once. */
  ghost function Render(bytes: seq<Byte>, i: nat, j: nat, starts: set<nat>, n: nat, word: seq<Byte>): seq<Byte>
    requires n > 0 && i <= j <= |bytes| && Clear(starts, n, j)
    decreases j - i
  {
    if i == j then []
    else if i in starts then word + Render(bytes, i + n, j, starts, n, word)
    else [bytes[i]] + Render(bytes, i + 1, j, starts, n, word)
  }

  /** How far an offset has moved once these edits are made, each of them changing the length by `d`. */
  function Moved(edits: seq<Span>, at: nat, d: int): int {
    if edits == [] then 0
    else Moved(edits[..|edits| - 1], at, d) + (if edits[|edits| - 1].start < at then d else 0)
  }

  function Splice(text: seq<Byte>, p: int, n: nat, word: seq<Byte>): seq<Byte> {
    if 0 <= p && p + n <= |text| then text[..p] + word + text[p + n..] else text
  }

  /** Making the edits one after another, in the order given, each where earlier ones have moved it. */
  function ApplyAll(bytes: seq<Byte>, edits: seq<Span>, n: nat, word: seq<Byte>): seq<Byte> {
    if edits == [] then bytes
    else
      var front, e := edits[..|edits| - 1], edits[|edits| - 1];
      Splice(ApplyAll(bytes, front, n, word), e.start + Moved(front, e.start, |word| - n), n, word)
  }

  lemma {:induction false} RenderSplit(bytes: seq<Byte>, i: nat, m: nat, j: nat, starts: set<nat>, n: nat,
                                       word: seq<Byte>)
    requires n > 0 && i <= m <= j <= |bytes| && Clear(starts, n, m) && Clear(starts, n, j)
    ensures Render(bytes, i, j, starts, n, word) ==
            Render(bytes, i, m, starts, n, word) + Render(bytes, m, j, starts, n, word)
    decreases m - i
  {
    if i == m {
      assert Render(bytes, i, m, starts, n, word) == [];
    } else if i in starts {
      RenderSplit(bytes, i + n, m, j, starts, n, word);
      assert word + (Render(bytes, i + n, m, starts, n, word) + Render(bytes, m, j, starts, n, word))
          == (word + Render(bytes, i + n, m, starts, n, word)) + Render(bytes, m, j, starts, n, word);
    } else {
      RenderSplit(bytes, i + 1, m, j, starts, n, word);
      assert [bytes[i]] + (Render(bytes, i + 1, m, starts, n, word) + Render(bytes, m, j, starts, n, word))
          == ([bytes[i]] + Render(bytes, i + 1, m, starts, n, word)) + Render(bytes, m, j, starts, n, word);
    }
  }

  lemma {:induction false} RenderPlain(bytes: seq<Byte>, i: nat, j: nat, starts: set<nat>, n: nat, word: seq<Byte>)
    requires n > 0 && i <= j <= |bytes| && Clear(starts, n, j) && forall a :: i <= a < j ==> a !in starts
    ensures Render(bytes, i, j, starts, n, word) == bytes[i..j]
    decreases j - i
  {
    if i < j { RenderPlain(bytes, i + 1, j, starts, n, word); }
  }

  lemma {:induction false} RenderSame(bytes: seq<Byte>, i: nat, j: nat, s: set<nat>, t: set<nat>, n: nat,
                                      word: seq<Byte>)
    requires n > 0 && i <= j <= |bytes| && Clear(s, n, j) && Clear(t, n, j)
    requires forall a :: i <= a < j ==> (a in s <==> a in t)
    ensures Render(bytes, i, j, s, n, word) == Render(bytes, i, j, t, n, word)
    decreases j - i
  {
    if i < j {
      if i in s { RenderSame(bytes, i + n, j, s, t, n, word); } else { RenderSame(bytes, i + 1, j, s, t, n, word); }
    }
  }

  /** One more edit, at `e`: the text before it and after it is as it was. */
  lemma AddEdit(bytes: seq<Byte>, e: nat, m: nat, starts: set<nat>, n: nat, word: seq<Byte>)
    requires n > 0 && e + n <= m <= |bytes| && Clear(starts, n, m) && Clear(starts, n, e) && Clear(starts, n, e + n)
    requires e !in starts && Clear(starts + {e}, n, m)
    ensures var head, tail := Render(bytes, 0, e, starts, n, word), Render(bytes, e + n, m, starts, n, word);
            && Render(bytes, 0, m, starts, n, word) == head + (bytes[e..e + n] + tail)
            && Render(bytes, 0, m, starts + {e}, n, word) == head + (word + tail)
  {
    hide Render, Clear;
    var more := starts + {e};
    StartsHere(starts, e, n, m);
    RenderSplit(bytes, 0, e, m, starts, n, word);
    RenderSplit(bytes, e, e + n, m, starts, n, word);
    RenderPlain(bytes, e, e + n, starts, n, word);
    RenderSplit(bytes, 0, e, m, more, n, word);
    RenderSame(bytes, 0, e, more, starts, n, word);
    RenderSame(bytes, e + n, m, more, starts, n, word);
    RenderHere(bytes, e, m, more, n, word);
  }

  lemma StartsHere(starts: set<nat>, e: nat, n: nat, m: nat)
    requires n > 0 && Clear(starts, n, e) && Clear(starts, n, e + n) && e !in starts && e + n <= m
    ensures forall a :: e <= a < e + n ==> a !in starts
    ensures Clear(starts + {e}, n, e) && Clear(starts + {e}, n, e + n)
  {
  }

  lemma RenderHere(bytes: seq<Byte>, e: nat, m: nat, starts: set<nat>, n: nat, word: seq<Byte>)
    requires n > 0 && e + n <= m <= |bytes| && Clear(starts, n, m) && e in starts
    ensures Render(bytes, e, m, starts, n, word) == word + Render(bytes, e + n, m, starts, n, word)
  {
  }

  lemma EditsFront(bytes: seq<Byte>, edits: seq<Span>, n: nat)
    requires edits != [] && AreEdits(bytes, edits, n)
    ensures var front, e := edits[..|edits| - 1], edits[|edits| - 1].start;
            && AreEdits(bytes, front, n)
            && Starts(edits) == Starts(front) + {e} && e !in Starts(front) && e + n <= |bytes|
            && Clear(Starts(front), n, e) && Clear(Starts(front), n, e + n)
            && Clear(Starts(front), n, |bytes|) && Clear(Starts(edits), n, |bytes|)
  {
    var k := |edits| - 1;
    var front := edits[..k];
    assert forall i :: 0 <= i < k ==> front[i] == edits[i];
    assert edits[k].start in Starts(edits);
  }

  lemma EditsClear(bytes: seq<Byte>, edits: seq<Span>, n: nat)
    requires AreEdits(bytes, edits, n)
    ensures Clear(Starts(edits), n, |bytes|)
  {
  }

  /** Up to any place no edit straddles, the new text is as long as the old one moved. */
  lemma {:induction false} RenderLength(bytes: seq<Byte>, edits: seq<Span>, m: nat, n: nat, word: seq<Byte>)
    requires AreEdits(bytes, edits, n) && m <= |bytes| && Clear(Starts(edits), n, m)
    ensures |Render(bytes, 0, m, Starts(edits), n, word)| == m + Moved(edits, m, |word| - n)
    decreases |edits|
  {
    if edits == [] {
      NoStarts();
      RenderPlain(bytes, 0, m, Starts([]), n, word);
    } else {
      hide Clear, AreEdits, Render;
      var front, e := edits[..|edits| - 1], edits[|edits| - 1].start;
      EditsFront(bytes, edits, n);
      ClearFewer(Starts(front), e, n, m);
      RenderLength(bytes, front, m, n, word);
      if e < m {
        AddEdit(bytes, e, m, Starts(front), n, word);
      } else {
        RenderSame(bytes, 0, m, Starts(edits), Starts(front), n, word);
      }
    }
  }

  lemma ClearFewer(starts: set<nat>, e: nat, n: nat, m: nat)
    requires Clear(starts + {e}, n, m)
    ensures Clear(starts, n, m) && (e + n <= m || m <= e)
  {
    assert e in starts + {e};
  }

  /** In whatever order the edits are made, the result is the text with all of them made at once. */
  lemma {:induction false} AnyOrder(bytes: seq<Byte>, edits: seq<Span>, n: nat, word: seq<Byte>)
    requires AreEdits(bytes, edits, n) && Clear(Starts(edits), n, |bytes|)
    ensures ApplyAll(bytes, edits, n, word) == Render(bytes, 0, |bytes|, Starts(edits), n, word)
    decreases |edits|
  {
    hide Clear, AreEdits, Render, Starts, Splice, Moved;
    if edits == [] {
      RenderOfNone(bytes, n, word);
    } else {
      var front, e := edits[..|edits| - 1], edits[|edits| - 1].start;
      EditsFront(bytes, edits, n);
      AnyOrder(bytes, front, n, word);
      AddEdit(bytes, e, |bytes|, Starts(front), n, word);
      RenderLength(bytes, front, e, n, word);
      SpliceAt(Render(bytes, 0, e, Starts(front), n, word), bytes[e..e + n],
               Render(bytes, e + n, |bytes|, Starts(front), n, word), word);
    }
  }

  lemma RenderOfNone(bytes: seq<Byte>, n: nat, word: seq<Byte>)
    requires AreEdits(bytes, [], n) && Clear(Starts([]), n, |bytes|)
    ensures Render(bytes, 0, |bytes|, Starts([]), n, word) == bytes
  {
    NoStarts();
    RenderPlain(bytes, 0, |bytes|, Starts([]), n, word);
  }

  lemma SpliceAt(head: seq<Byte>, mid: seq<Byte>, tail: seq<Byte>, word: seq<Byte>)
    ensures Splice(head + (mid + tail), |head|, |mid|, word) == head + (word + tail)
  {
  }

  /** The main result: the edits of a rename, made in any order, give one text, which differs from
      the old one only in that the new name replaces each of them, and is longer by their number
      times the difference of the names. */
  lemma RenameIsOneText(bytes: seq<Byte>, uses: seq<Use>, name: seq<Byte>, newName: seq<Byte>, order: seq<Span>)
    requires name != [] && AllIdent(name) && OnWordBoundaries(bytes, uses) && |bytes| < U32
    requires SameOnce(order, Collected(bytes, uses, name))
    ensures var edits := Collected(bytes, uses, name);
            && Clear(Starts(edits), |name|, |bytes|)
            && ApplyAll(bytes, order, |name|, newName) == Render(bytes, 0, |bytes|, Starts(edits), |name|, newName)
            && |ApplyAll(bytes, order, |name|, newName)| == |bytes| + |edits| * (|newName| - |name|)
  {
    hide Collected, Render, ApplyAll, OnWordBoundaries, AllWords, AreEdits, Apart, Moved, SameOnce;
    var edits := Collected(bytes, uses, name);
    EditsAreWords(bytes, uses, name);
    SameEdits(bytes, edits, order, name);
    EditsClear(bytes, edits, |name|);
    EditsClear(bytes, order, |name|);
    AnyOrder(bytes, order, |name|, newName);
    RenderLength(bytes, edits, |bytes|, |name|, newName);
    AllMoved(edits, |bytes|, |name|, |newName| - |name|);
  }

  lemma {:induction false} AllMoved(edits: seq<Span>, len: nat, n: nat, d: int)
    requires n > 0 && forall i :: 0 <= i < |edits| ==> edits[i].start + n <= len
    ensures Moved(edits, len, d) == |edits| * d
  {
    if edits != [] { AllMoved(edits[..|edits| - 1], len, n, d); }
  }

  /** `order` lists the same spans as `edits`, each once. */
  ghost predicate SameOnce(order: seq<Span>, edits: seq<Span>) {
    && (forall s :: s in order <==> s in edits)
    && (forall i, j :: 0 <= i < j < |order| ==> order[i] != order[j])
  }

  lemma SameEdits(bytes: seq<Byte>, edits: seq<Span>, order: seq<Span>, name: seq<Byte>)
    requires name != [] && AllIdent(name) && AllWords(bytes, edits, name) && Apart(edits) && SameOnce(order, edits)
    ensures AreEdits(bytes, edits, |name|) && AreEdits(bytes, order, |name|) && Starts(order) == Starts(edits)
  {
    WordsAreEdits(bytes, edits, name);
    forall i | 0 <= i < |order| ensures order[i].start + |name| == order[i].end <= |bytes| {
      assert order[i] in edits;
      var a :| 0 <= a < |edits| && edits[a] == order[i];
    }
    forall i, j | 0 <= i < j < |order| ensures order[i].end <= order[j].start || order[j].end <= order[i].start {
      assert order[i] in edits && order[j] in edits;
      var a :| 0 <= a < |edits| && edits[a] == order[i];
      var b :| 0 <= b < |edits| && edits[b] == order[j];
    }
    forall x ensures x in Starts(order) <==> x in Starts(edits) {
      if x in Starts(order) {
        var i :| 0 <= i < |order| && order[i].start == x;
        assert order[i] in edits;
      }
      if x in Starts(edits) {
        var a :| 0 <= a < |edits| && edits[a].start == x;
        assert edits[a] in order;
      }
    }
  }

  lemma WordsAreEdits(bytes: seq<Byte>, edits: seq<Span>, name: seq<Byte>)
    requires name != [] && AllIdent(name) && AllWords(bytes, edits, name) && Apart(edits)
    ensures AreEdits(bytes, edits, |name|)
  {
    forall i | 0 <= i < |edits| ensures edits[i].start + |name| == edits[i].end <= |bytes| {
      InsideIsIdent(bytes, edits[i], name, 0);
    }
  }

  // ---------------------------------------------------------------------------------------
  // The new name is a whole word wherever it was put.
  // ---------------------------------------------------------------------------------------

  datatype NameClass = ValueName | TypeName

  predicate IsLower(b: Byte) { 97 <= b <= 122 }

  predicate IsUpper(b: Byte) { 65 <= b <= 90 }

  /** `is_valid_new_name`, given the reserved words. */
  predicate IsValidNewName(name: seq<Byte>, class_: NameClass, reserved: set<seq<Byte>>) {
    && name != []
    && !([95, 95] <= name)
    && name !in reserved
    && (if class_.ValueName? then IsLower(name[0]) || name[0] == 95 else IsUpper(name[0]))
    && AllIdent(name[1..])
  }

  /** The exact names that are accepted. */
  ghost predicate IsNameOf(name: seq<Byte>, class_: NameClass) {
    && name != []
    && (if class_.ValueName? then name[0] as char in LOWER || name[0] as char == '_' else name[0] as char in UPPER)
    && !(|name| > 1 && name[0] as char == name[1] as char == '_')
    && forall i :: 0 < i < |name| ==> var c := name[i] as char; c in LOWER || c in UPPER || c in DIGITS || c == '_'
  }

  lemma ValidNamesAre(name: seq<Byte>, class_: NameClass, reserved: set<seq<Byte>>)
    ensures IsValidNewName(name, class_, reserved) <==> name !in reserved && IsNameOf(name, class_)
  {
    hide IsIdent, IsLower, IsUpper;
    forall i | 0 <= i < |name| {
      IdentBytes(name[i]);
    }
    assert [95, 95] <= name <==> |name| > 1 && name[0] == name[1] == 95;
    assert forall i :: 0 < i < |name| ==> name[1..][i - 1] == name[i];
  }

  lemma ValidNamesAreWords(name: seq<Byte>, class_: NameClass, reserved: set<seq<Byte>>)
    requires IsValidNewName(name, class_, reserved)
    ensures AllIdent(name) && !IsDigit(name[0])
  {
    assert name == [name[0]] + name[1..];
  }

  /** The byte before a clear place is still there after the edits, unless one ends there. */
  lemma LastRendered(bytes: seq<Byte>, m: nat, starts: set<nat>, n: nat, word: seq<Byte>)
    requires n > 0 && 0 < m <= |bytes| && Clear(starts, n, m) && forall a :: a in starts ==> a + n != m
    ensures var r := Render(bytes, 0, m, starts, n, word); r != [] && r[|r| - 1] == bytes[m - 1]
  {
    RenderSplit(bytes, 0, m - 1, m, starts, n, word);
    RenderPlain(bytes, m - 1, m, starts, n, word);
  }

  /** The text around the `k`-th edit, once all are made. */
  lemma AroundEdit(bytes: seq<Byte>, edits: seq<Span>, k: nat, name: seq<Byte>, word: seq<Byte>)
    returns (head: seq<Byte>, tail: seq<Byte>)
    requires name != [] && AllIdent(name) && AllWords(bytes, edits, name) && Apart(edits) && k < |edits|
    ensures AreEdits(bytes, edits, |name|) && Clear(Starts(edits), |name|, |bytes|)
    ensures |head| == edits[k].start + Moved(edits, edits[k].start, |word| - |name|)
    ensures Render(bytes, 0, |bytes|, Starts(edits), |name|, word) == head + (word + tail)
    ensures head == [] || !IsIdent(head[|head| - 1])
    ensures tail == [] || !IsIdent(tail[0])
  {
    hide Render, Clear, AreEdits, Apart, IsWord, IsIdent, Starts, Moved, AllWords, AllIdent;
    var n, e, starts := |name|, edits[k].start, Starts(edits);
    WordsAreEdits(bytes, edits, name);
    EditsClear(bytes, edits, n);
    WordEdges(bytes, edits, k, name);
    PlaceIsClear(bytes, edits, k, name);
    RenderLength(bytes, edits, e, n, word);
    RenderSplit(bytes, 0, e, |bytes|, starts, n, word);
    RenderHere(bytes, e, |bytes|, starts, n, word);
    head, tail := Render(bytes, 0, e, starts, n, word), Render(bytes, e + n, |bytes|, starts, n, word);
    if e > 0 { LastRendered(bytes, e, starts, n, word); } else { RenderNone(bytes, starts, n, word); }
    FirstRendered(bytes, e + n, starts, n, word);
  }

  /** After the rename, the new name stands as a whole word in place of each edit. */
  lemma RenamedPlacesAreWords(bytes: seq<Byte>, edits: seq<Span>, k: nat, name: seq<Byte>, word: seq<Byte>)
    returns (at: nat)
    requires name != [] && AllIdent(name) && AllWords(bytes, edits, name) && Apart(edits) && k < |edits|
    ensures AreEdits(bytes, edits, |name|) && Clear(Starts(edits), |name|, |bytes|)
    ensures at == edits[k].start + Moved(edits, edits[k].start, |word| - |name|)
    ensures IsWord(Render(bytes, 0, |bytes|, Starts(edits), |name|, word), LineIndex.Span(at, at + |word|), word)
  {
    hide Render, Clear, AreEdits, Apart, IsWord, IsIdent, Starts, Moved, AllWords, AllIdent;
    var head, tail := AroundEdit(bytes, edits, k, name, word);
    at := |head|;
    WordBetween(head, word, tail);
  }

  lemma WordEdges(bytes: seq<Byte>, edits: seq<Span>, k: nat, name: seq<Byte>)
    requires AllWords(bytes, edits, name) && k < |edits|
    ensures var s := edits[k];
            && s.start <= s.end <= |bytes|
            && (s.start == 0 || !IsIdent(bytes[s.start - 1]))
            && (s.end == |bytes| || !IsIdent(bytes[s.end]))
  {
  }

  lemma FirstRendered(bytes: seq<Byte>, i: nat, starts: set<nat>, n: nat, word: seq<Byte>)
    requires n > 0 && i <= |bytes| && Clear(starts, n, |bytes|) && i !in starts
    ensures var r := Render(bytes, i, |bytes|, starts, n, word);
            if i == |bytes| then r == [] else r != [] && r[0] == bytes[i]
  {
  }

  lemma RenderNone(bytes: seq<Byte>, starts: set<nat>, n: nat, word: seq<Byte>)
    requires n > 0 && Clear(starts, n, 0)
    ensures Render(bytes, 0, 0, starts, n, word) == []
  {
  }

  lemma WordBetween(head: seq<Byte>, word: seq<Byte>, tail: seq<Byte>)
    requires head == [] || !IsIdent(head[|head| - 1])
    requires tail == [] || !IsIdent(tail[0])
    ensures IsWord(head + (word + tail), LineIndex.Span(|head|, |head| + |word|), word)
  {
  }

  /** No edit ends or begins right at a word's edge, since no word does. */
  lemma PlaceIsClear(bytes: seq<Byte>, edits: seq<Span>, k: nat, name: seq<Byte>)
    requires name != [] && AllIdent(name) && AllWords(bytes, edits, name) && Apart(edits) && k < |edits|
    ensures var n, e, starts := |name|, edits[k].start, Starts(edits);
            && e + n == edits[k].end <= |bytes| && Clear(starts, n, e) && e in starts
            && (forall a :: a in starts ==> a + n != e) && e + n !in starts
  {
    WordsAreEdits(bytes, edits, name);
    var n, e, starts := |name|, edits[k].start, Starts(edits);
    forall a | a in starts ensures (a + n <= e || e <= a) && a + n != e && a != e + n {
      var i :| 0 <= i < |edits| && edits[i].start == a;
      InsideIsIdent(bytes, edits[i], name, e - 1);
      InsideIsIdent(bytes, edits[i], name, e + n);
      assert i < k || i == k || k < i;
    }
  }

  // ---------------------------------------------------------------------------------------
  // As editor ranges.
  // ---------------------------------------------------------------------------------------

  /** The ranges sent to the editor come back to the edits' own bytes, and edits apart in the text
      are apart as ranges. */
  lemma RangesAreExact(source: seq<Scalar>, s: Span, name: seq<Byte>)
    requires |Encode(source)| < U32
    requires name != [] && AllIdent(name) && IsWord(Encode(source), s, name)
    ensures var index := LineIndex.Of(source);
            && LineIndex.OffsetOf(index, LineIndex.PositionOfByte(source, s.start)) == s.start
            && LineIndex.OffsetOf(index, LineIndex.PositionOfByte(source, s.end)) == s.end
  {
    hide Encode, Off, FloorChar;
    InsideIsIdent(Encode(source), s, name, s.start);
    InsideIsIdent(Encode(source), s, name, s.end - 1);
    AsciiByte(source, s.start);
    AsciiByte(source, s.end - 1);
    LineIndex.OffsetThereAndBack(source, s.start);
    LineIndex.OffsetThereAndBack(source, s.end);
  }

  /** An ASCII byte is a character of its own. */
  lemma AsciiByte(source: seq<Scalar>, i: nat)
    requires i < |Encode(source)| && Encode(source)[i] < 0x80
    ensures Off(source, FloorChar(source, i)) == i && Off(source, FloorChar(source, i + 1)) == i + 1
  {
    hide Encode, Encode1, Off, FloorChar;
    var k := FloorChar(source, i);
    OffEnds(source);
    BytesOfChar(source, k);
    SplitAt(source, k);
    LineIndex.FloorOfOffset(source, k + 1);
  }

  /** Where a recorded span ends inside a word, the edit does too: with the span of `bump` in
      `bumper`, renaming `bump` rewrites half of another name. */
  lemma HalfAWord()
    ensures var bumper, bump := [98, 117, 109, 112, 101, 114], [98, 117, 109, 112];
            && Narrowed(bumper, LineIndex.Span(0, 4), bump) == Some(LineIndex.Span(0, 4))
            && !IsWord(bumper, LineIndex.Span(0, 4), bump)
  {
    var bumper: seq<Byte>, bump: seq<Byte> := [98, 117, 109, 112, 101, 114], [98, 117, 109, 112];
    assert bumper[0..4] == bump;
    assert StandsAt(bumper, 0, 4, bump, 0);
  }
}
