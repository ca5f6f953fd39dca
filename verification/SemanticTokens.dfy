/** Semantic tokens (`src/ruxen_ide/src/semantic_tokens.rs`): sorted, stripped of duplicates and sent
    as differences, as the "Semantic Tokens" heading of LSP 3.17 asks. */
module SemanticTokens {
  import opened Common

  type Word = x: nat | x < U32

  datatype RawToken = RawToken(line: Word, startChar: Word, length: Word, tokenType: Word, modifiers: Word)

  datatype SemanticToken =
    SemanticToken(deltaLine: Word, deltaStart: Word, length: Word, tokenType: Word, modifiers: Word)

  /** What a client sees of a token. */
  datatype Placed = Placed(line: Word, startChar: Word, length: Word, tokenType: Word)

  // ---------------------------------------------------------------------------------------
  // Sorting.
  // ---------------------------------------------------------------------------------------

  /** The comparison handed to the sort: line first, then start. */
  predicate AtMost(a: RawToken, b: RawToken) {
    a.line < b.line || (a.line == b.line && a.startChar <= b.startChar)
  }

  predicate SamePlace(a: RawToken, b: RawToken) {
    a.line == b.line && a.startChar == b.startChar
  }

  ghost predicate Sorted(ts: seq<RawToken>) {
    forall i, j :: 0 <= i < j < |ts| ==> AtMost(ts[i], ts[j])
  }

  /** The tokens at the place of `k`, in their order. */
  function At(ts: seq<RawToken>, k: RawToken): seq<RawToken> {
    if ts == [] then [] else At(ButLast(ts), k) + (if SamePlace(Last(ts), k) then [Last(ts)] else [])
  }

  /** Put `t` behind everything that is at most it. */
  function Insert(ts: seq<RawToken>, t: RawToken): seq<RawToken> {
    if ts == [] || AtMost(Last(ts), t) then ts + [t] else Insert(ButLast(ts), t) + [Last(ts)]
  }

  /** A stable sort. */
  function Sort(ts: seq<RawToken>): seq<RawToken> {
    if ts == [] then [] else Insert(Sort(ButLast(ts)), Last(ts))
  }

  lemma {:induction false} AtAppend(a: seq<RawToken>, b: seq<RawToken>, k: RawToken)
    ensures At(a + b, k) == At(a, k) + At(b, k)
  {
    if b == [] {
      assert a + b == a;
    } else {
      assert ButLast(a + b) == a + ButLast(b);
      AtAppend(a, ButLast(b), k);
    }
  }

  lemma {:induction false} InsertSorts(ts: seq<RawToken>, t: RawToken)
    requires Sorted(ts)
    ensures Sorted(Insert(ts, t)) && |Insert(ts, t)| == |ts| + 1
    ensures forall u :: u in Insert(ts, t) <==> u in ts || u == t
  {
    if ts != [] && !AtMost(Last(ts), t) {
      InsertSorts(ButLast(ts), t);
      assert ts == ButLast(ts) + [Last(ts)];
      assert forall u :: u in Insert(ts, t) ==> AtMost(u, Last(ts));
    }
  }

  lemma {:induction false} InsertKeepsOrder(ts: seq<RawToken>, t: RawToken, k: RawToken)
    requires Sorted(ts)
    ensures At(Insert(ts, t), k) == At(ts, k) + (if SamePlace(t, k) then [t] else [])
  {
    if ts == [] || AtMost(Last(ts), t) {
      assert ButLast(ts + [t]) == ts;
    } else {
      var front := Insert(ButLast(ts), t);
      InsertKeepsOrder(ButLast(ts), t, k);
      assert ButLast(front + [Last(ts)]) == front;
    }
  }

  /** The sort sorts, and keeps tokens at one place in their order. */
  lemma {:induction false} SortIsStable(ts: seq<RawToken>, k: RawToken)
    ensures Sorted(Sort(ts)) && |Sort(ts)| == |ts| && At(Sort(ts), k) == At(ts, k)
  {
    if ts != [] {
      SortIsStable(ButLast(ts), k);
      InsertSorts(Sort(ButLast(ts)), Last(ts));
      InsertKeepsOrder(Sort(ButLast(ts)), Last(ts), k);
    }
  }

  /** Nothing is at a place that is after everything. */
  lemma {:induction false} AtNothing(ts: seq<RawToken>, k: RawToken)
    requires forall i :: 0 <= i < |ts| ==> !SamePlace(ts[i], k)
    ensures At(ts, k) == []
  {
    if ts != [] { AtNothing(ButLast(ts), k); }
  }

  lemma {:induction false} AtLast(ts: seq<RawToken>, k: RawToken) returns (i: nat)
    requires At(ts, k) != []
    ensures i < |ts| && SamePlace(ts[i], k)
  {
    if SamePlace(Last(ts), k) { i := |ts| - 1; } else { i := AtLast(ButLast(ts), k); }
  }

  /** There is only one way to sort stably, so it does not matter how the library does it. */
  lemma {:induction false} StableSortIsUnique(a: seq<RawToken>, b: seq<RawToken>)
    requires Sorted(a) && Sorted(b) && forall k :: At(a, k) == At(b, k)
    ensures a == b
    decreases |a| + |b|
  {
    if a != [] { assert At(a, Last(a)) == At(b, Last(a)) != []; }
    if b != [] { assert At(a, Last(b)) == At(b, Last(b)) != []; }
    if a != [] && b != [] {
      SameLast(a, b);
      var front, back, t := ButLast(a), ButLast(b), Last(a);
      forall k ensures At(front, k) == At(back, k) {
        assert At(a, k) == At(b, k);
        Cancel(At(front, k), At(back, k), if SamePlace(t, k) then [t] else []);
      }
      StableSortIsUnique(front, back);
      assert a == front + [t] && b == back + [t];
    }
  }

  lemma Cancel<T>(a: seq<T>, b: seq<T>, tail: seq<T>)
    requires a + tail == b + tail
    ensures a == b
  {
    assert |a| == |b|;
    assert a == (a + tail)[..|a|] && b == (b + tail)[..|a|];
  }

  lemma SameLast(a: seq<RawToken>, b: seq<RawToken>)
    requires a != [] && b != [] && Sorted(a) && Sorted(b) && forall k :: At(a, k) == At(b, k)
    ensures Last(a) == Last(b)
  {
    assert At(a, Last(a)) == At(b, Last(a)) && At(a, Last(b)) == At(b, Last(b));
    var i := AtLast(b, Last(a));
    var j := AtLast(a, Last(b));
    assert SamePlace(Last(a), Last(b));
    assert Last(At(a, Last(a))) == Last(a) && Last(At(b, Last(a))) == Last(b);
  }

  // ---------------------------------------------------------------------------------------
  // Duplicates.
  // ---------------------------------------------------------------------------------------

  predicate SameSpot(a: RawToken, b: RawToken) {
    SamePlace(a, b) && a.length == b.length
  }

  function Dedup(ts: seq<RawToken>): (r: seq<RawToken>)
    ensures |r| <= |ts| && (ts != [] ==> r != [] && SameSpot(Last(r), Last(ts)))
  {
    if ts == [] then []
    else
      var kept := Dedup(ButLast(ts));
      if kept != [] && SameSpot(Last(kept), Last(ts)) then kept else kept + [Last(ts)]
  }

  /** `dedup_tokens`: drop a token that covers the same text as the last one kept. */
  method DedupTokens(tokens: seq<RawToken>) returns (kept: seq<RawToken>)
    ensures kept == Dedup(tokens)
  {
    kept := [];
    for i := 0 to |tokens|
      invariant kept == Dedup(tokens[..i])
    {
      assert ButLast(tokens[..i + 1]) == tokens[..i];
      if !(kept != [] && SameSpot(kept[|kept| - 1], tokens[i])) {
        kept := kept + [tokens[i]];
      }
    }
    assert tokens[..|tokens|] == tokens;
  }

  lemma {:induction false} DedupSorted(ts: seq<RawToken>)
    requires Sorted(ts)
    ensures Sorted(Dedup(ts)) && forall t :: t in Dedup(ts) ==> t in ts
  {
    if ts != [] {
      DedupSorted(ButLast(ts));
      assert ts == ButLast(ts) + [Last(ts)];
      assert forall t :: t in Dedup(ButLast(ts)) ==> AtMost(t, Last(ts));
    }
  }

  /** No two neighbours cover the same text, and every text covered stays covered. */
  lemma {:induction false} DedupApart(ts: seq<RawToken>)
    ensures forall i :: 0 < i < |Dedup(ts)| ==> !SameSpot(Dedup(ts)[i - 1], Dedup(ts)[i])
    ensures forall t :: t in ts ==> exists u :: u in Dedup(ts) && SameSpot(t, u)
  {
    if ts != [] {
      DedupApart(ButLast(ts));
      assert ts == ButLast(ts) + [Last(ts)];
      var kept, r := Dedup(ButLast(ts)), Dedup(ts);
      assert forall u :: u in kept ==> u in r;
      assert Last(r) in r;
    }
  }

  lemma AtSnoc(ts: seq<RawToken>, t: RawToken, k: RawToken)
    ensures At(ts + [t], k) == (if SamePlace(t, k) then At(ts, k) + [t] else At(ts, k))
  {
    assert ButLast(ts + [t]) == ts;
    assert At(ts, k) + [] == At(ts, k);
  }

  lemma DedupSnoc(ts: seq<RawToken>, t: RawToken)
    ensures Dedup(ts + [t]) == if Dedup(ts) != [] && SameSpot(Last(Dedup(ts)), t) then Dedup(ts) else Dedup(ts) + [t]
  {
    assert ButLast(ts + [t]) == ts;
  }

  /** Duplicates are dropped place by place. */
  lemma {:induction false} DedupAt(ts: seq<RawToken>, k: RawToken)
    requires Sorted(ts)
    ensures At(Dedup(ts), k) == Dedup(At(ts, k))
  {
    hide At, Dedup;
    if ts == [] {
      NoTokens(k);
    } else {
      var front, t := ButLast(ts), Last(ts);
      var kept := Dedup(front);
      assert ts == front + [t];
      DedupAt(front, k);
      DedupSorted(front);
      AtSnoc(front, t, k);
      AtSnoc(kept, t, k);
      DedupSnoc(front, t);
      DedupSnoc(At(front, k), t);
      if SamePlace(t, k) {
        if kept != [] && SamePlace(Last(kept), k) { SameTail(kept, k); } else { NoneHere(kept, t, k); }
      }
    }
  }

  lemma NoTokens(k: RawToken)
    ensures Dedup([]) == [] && At([], k) == []
  {
  }

  lemma NoneHere(kept: seq<RawToken>, t: RawToken, k: RawToken)
    requires Sorted(kept) && SamePlace(t, k) && (kept == [] || (AtMost(Last(kept), t) && !SamePlace(Last(kept), k)))
    ensures At(kept, k) == []
  {
    AtNothing(kept, k);
  }

  lemma SameTail(kept: seq<RawToken>, k: RawToken)
    requires kept != [] && SamePlace(Last(kept), k)
    ensures At(kept, k) != [] && Last(At(kept, k)) == Last(kept)
  {
    var r := At(ButLast(kept), k);
    assert At(kept, k) == r + [Last(kept)];
    assert (r + [Last(kept)])[|r|] == Last(kept);
  }

  // ---------------------------------------------------------------------------------------
  // Which of two wins.
  // ---------------------------------------------------------------------------------------

  /** What is encoded: lexical tokens first, then the ones from the program, sorted and deduplicated. */
  function Prepared(lexical: seq<RawToken>, hir: seq<RawToken>): seq<RawToken> {
    Dedup(Sort(lexical + hir))
  }

  lemma {:induction false} DedupKeepsFirst(ts: seq<RawToken>)
    requires ts != []
    ensures Dedup(ts)[0] == ts[0]
  {
    if |ts| > 1 { DedupKeepsFirst(ButLast(ts)); }
  }

  /** The prepared tokens at a place are what deduplication leaves of the lexical ones there followed
      by the others. So wherever there is a lexical token, the first one survives: it is the earlier
      of two equally placed and equally long tokens that is kept, the lexical one. */
  lemma LexicalWins(lexical: seq<RawToken>, hir: seq<RawToken>, k: RawToken)
    ensures At(Prepared(lexical, hir), k) == Dedup(At(lexical, k) + At(hir, k))
    ensures At(lexical, k) != [] ==>
              At(Prepared(lexical, hir), k) != [] && At(Prepared(lexical, hir), k)[0] == At(lexical, k)[0]
  {
    SortIsStable(lexical + hir, k);
    DedupAt(Sort(lexical + hir), k);
    AtAppend(lexical, hir, k);
    if At(lexical, k) != [] { DedupKeepsFirst(At(lexical, k) + At(hir, k)); }
  }

  /** One lexical token and one from the program at a place: the latter survives exactly if it is
      of another length, or the same token. */
  lemma SecondSurvivesIff(lexical: seq<RawToken>, hir: seq<RawToken>, t: RawToken, h: RawToken)
    requires At(lexical, t) == [t] && At(hir, t) == [h]
    ensures h in At(Prepared(lexical, hir), t) <==> t.length != h.length || h == t
  {
    LexicalWins(lexical, hir, t);
    var i := AtLast(hir, t);
    HereIsThere(hir, t);
    assert ButLast([t] + [h]) == [t] && ButLast([t]) == [];
    assert Dedup([t]) == [t];
  }

  lemma {:induction false} HereIsThere(ts: seq<RawToken>, k: RawToken)
    ensures forall t :: t in At(ts, k) ==> t in ts && SamePlace(t, k)
  {
    if ts != [] {
      HereIsThere(ButLast(ts), k);
      assert ts == ButLast(ts) + [Last(ts)];
    }
  }

  /** Two tokens of the list cover the same text as `k`. */
  ghost predicate Twice(ts: seq<RawToken>, k: RawToken) {
    exists i, j :: 0 <= i < j < |ts| && SameSpot(ts[i], k) && SameSpot(ts[j], k)
  }

  /** Between two that do there is one that does not. */
  ghost predicate Parted(ts: seq<RawToken>, k: RawToken) {
    exists i, m, j :: 0 <= i < m < j < |ts| && SameSpot(ts[i], k) && !SameSpot(ts[m], k) && SameSpot(ts[j], k)
  }

  ghost predicate Covered(ts: seq<RawToken>, k: RawToken) {
    exists i :: 0 <= i < |ts| && SameSpot(ts[i], k)
  }

  lemma CoveredSnoc(ts: seq<RawToken>, t: RawToken, k: RawToken)
    ensures Covered(ts + [t], k) <==> Covered(ts, k) || SameSpot(t, k)
  {
    var more := ts + [t];
    assert more[|ts|] == t && forall i :: 0 <= i < |ts| ==> more[i] == ts[i];
    if i :| 0 <= i < |ts| && SameSpot(ts[i], k) { assert SameSpot(more[i], k); }
  }

  lemma LastIsCovered(ts: seq<RawToken>, k: RawToken)
    ensures ts != [] && SameSpot(Last(ts), k) ==> Covered(ts, k)
  {
  }

  /** Deduplication uncovers nothing. */
  lemma {:induction false} CoversTheSame(ts: seq<RawToken>, k: RawToken)
    ensures Covered(Dedup(ts), k) <==> Covered(ts, k)
  {
    hide Covered;
    if ts != [] {
      var front, t := ButLast(ts), Last(ts);
      assert ts == front + [t];
      CoversTheSame(front, k);
      CoveredSnoc(front, t, k);
      CoveredSnoc(Dedup(front), t, k);
      LastIsCovered(Dedup(front), k);
    }
  }

  lemma TwiceSnoc(ts: seq<RawToken>, t: RawToken, k: RawToken)
    ensures Twice(ts + [t], k) <==> Twice(ts, k) || (SameSpot(t, k) && Covered(ts, k))
  {
    var more := ts + [t];
    assert more[|ts|] == t && forall i :: 0 <= i < |ts| ==> more[i] == ts[i];
    if i :| SameSpot(t, k) && 0 <= i < |ts| && SameSpot(ts[i], k) {
      assert SameSpot(more[i], k) && SameSpot(more[|ts|], k);
    }
    if i, j :| 0 <= i < j < |ts| && SameSpot(ts[i], k) && SameSpot(ts[j], k) {
      assert SameSpot(more[i], k) && SameSpot(more[j], k);
    }
  }

  /** After a list that ends in a token for the spot, another one for it parts nothing; after one that does not,
      it parts if there is one before. */
  lemma PartedSnoc(ts: seq<RawToken>, t: RawToken, k: RawToken)
    requires ts != []
    ensures Parted(ts + [t], k) <==>
            || Parted(ts, k)
            || (SameSpot(t, k) && !SameSpot(Last(ts), k) && Covered(ts, k))
  {
    var more, n := ts + [t], |ts|;
    assert more[n] == t && forall i :: 0 <= i < n ==> more[i] == ts[i];
    if i, m, j :| 0 <= i < m < j < n && SameSpot(ts[i], k) && !SameSpot(ts[m], k) && SameSpot(ts[j], k) {
      assert SameSpot(more[i], k) && !SameSpot(more[m], k) && SameSpot(more[j], k);
    }
    if i :| SameSpot(t, k) && !SameSpot(Last(ts), k) && 0 <= i < n && SameSpot(ts[i], k) {
      assert SameSpot(more[i], k) && !SameSpot(more[n - 1], k) && SameSpot(more[n], k);
    }
  }

  /** Deduplication leaves two tokens that cover the same text exactly if, of the tokens it was given, one that
      covers another stood between two that do. */
  lemma {:induction false} DuplicatesStayIff(ts: seq<RawToken>, k: RawToken)
    ensures Twice(Dedup(ts), k) <==> Parted(ts, k)
  {
    hide Twice, Parted, Covered;
    if |ts| <= 1 {
      NoTwo(ts, k);
    } else {
      var front, t := ButLast(ts), Last(ts);
      assert ts == front + [t];
      DuplicatesStayIff(front, k);
      PartedSnoc(front, t, k);
      TwiceSnoc(Dedup(front), t, k);
      CoversTheSame(front, k);
    }
  }

  lemma NoTwo(ts: seq<RawToken>, k: RawToken)
    requires |ts| <= 1
    ensures !Twice(Dedup(ts), k) && !Parted(ts, k)
  {
  }

  /** In a sorted list what stands between is a token of another length at the same place. */
  lemma PartedByLength(ts: seq<RawToken>, i: nat, m: nat, j: nat)
    requires Sorted(ts) && i < m < j < |ts| && SameSpot(ts[i], ts[j])
    ensures SamePlace(ts[m], ts[i])
  {
    assert AtMost(ts[i], ts[m]) && AtMost(ts[m], ts[j]);
  }

  /** So after sorting, text covered twice stays so exactly if one of another length at its place is between. */
  lemma DuplicatesApartStay(ts: seq<RawToken>, k: RawToken)
    requires Sorted(ts)
    ensures Twice(Dedup(ts), k) <==>
            exists i, m, j :: 0 <= i < m < j < |ts| && SameSpot(ts[i], k) && SameSpot(ts[j], k)
              && SamePlace(ts[m], k) && ts[m].length != k.length
  {
    hide Twice, Dedup, Sorted;
    DuplicatesStayIff(ts, k);
    if i, m, j :| 0 <= i < m < j < |ts| && SameSpot(ts[i], k) && !SameSpot(ts[m], k) && SameSpot(ts[j], k) {
      PartedByLength(ts, i, m, j);
      assert SameSpot(ts[i], k) && SameSpot(ts[j], k) && SamePlace(ts[m], k) && ts[m].length != k.length;
    }
  }

  // ---------------------------------------------------------------------------------------
  // Differences.
  // ---------------------------------------------------------------------------------------

  /** Unsigned 32-bit subtraction and addition. */
  function Minus(a: Word, b: Word): Word {
    (a - b) % U32
  }

  function Plus(a: Word, b: Word): Word {
    (a + b) % U32
  }

  function Delta(t: RawToken, prevLine: Word, prevStart: Word): SemanticToken {
    var deltaLine := Minus(t.line, prevLine);
    SemanticToken(deltaLine, if deltaLine == 0 then Minus(t.startChar, prevStart) else t.startChar,
                  t.length, t.tokenType, t.modifiers)
  }

  function Deltas(ts: seq<RawToken>): seq<SemanticToken> {
    if ts == [] then []
    else
      var front := ButLast(ts);
      Deltas(front) +
      [if front == [] then Delta(Last(ts), 0, 0) else Delta(Last(ts), Last(front).line, Last(front).startChar)]
  }

  method EncodeDeltas(tokens: seq<RawToken>) returns (result: seq<SemanticToken>)
    ensures result == Deltas(tokens)
  {
    result := [];
    var prevLine: Word, prevStart: Word := 0, 0;
    for i := 0 to |tokens|
      invariant result == Deltas(tokens[..i])
      invariant i > 0 ==> prevLine == tokens[i - 1].line && prevStart == tokens[i - 1].startChar
      invariant i == 0 ==> prevLine == prevStart == 0
    {
      var token := tokens[i];
      assert ButLast(tokens[..i + 1]) == tokens[..i];
      var deltaLine := Minus(token.line, prevLine);
      var deltaStart := if deltaLine == 0 then Minus(token.startChar, prevStart) else token.startChar;
      result := result + [SemanticToken(deltaLine, deltaStart, token.length, token.tokenType, token.modifiers)];
      prevLine, prevStart := token.line, token.startChar;
    }
    assert tokens[..|tokens|] == tokens;
  }

  /** Where a client that has decoded `deltas` is: the line and start of the last token. */
  function Cursor(deltas: seq<SemanticToken>): (Word, Word) {
    if deltas == [] then (0, 0)
    else
      var (line, start) := Cursor(ButLast(deltas));
      var d := Last(deltas);
      if d.deltaLine == 0 then (line, Plus(start, d.deltaStart)) else (Plus(line, d.deltaLine), d.deltaStart)
  }

  function Expanded(deltas: seq<SemanticToken>): seq<Placed> {
    if deltas == [] then []
    else Expanded(ButLast(deltas)) +
         [Placed(Cursor(deltas).0, Cursor(deltas).1, Last(deltas).length, Last(deltas).tokenType)]
  }

  /** `expand_deltas`, the decoder of the original's tests. */
  method ExpandDeltas(tokens: seq<SemanticToken>) returns (out_: seq<Placed>)
    ensures out_ == Expanded(tokens)
  {
    out_ := [];
    var line: Word, start: Word := 0, 0;
    for i := 0 to |tokens|
      invariant out_ == Expanded(tokens[..i]) && (line, start) == Cursor(tokens[..i])
    {
      var t := tokens[i];
      assert ButLast(tokens[..i + 1]) == tokens[..i];
      if t.deltaLine == 0 {
        start := Plus(start, t.deltaStart);
      } else {
        line := Plus(line, t.deltaLine);
        start := t.deltaStart;
      }
      out_ := out_ + [Placed(line, start, t.length, t.tokenType)];
    }
    assert tokens[..|tokens|] == tokens;
  }

  function Places(ts: seq<RawToken>): seq<Placed> {
    if ts == [] then []
    else Places(ButLast(ts)) + [Placed(Last(ts).line, Last(ts).startChar, Last(ts).length, Last(ts).tokenType)]
  }

  lemma PlusMinus(a: Word, b: Word)
    ensures Plus(b, Minus(a, b)) == a && (Minus(a, b) == 0 <==> a == b)
  {
  }

  /** Decoding gives back every token exactly. */
  lemma {:induction false} DecodeInvertsEncode(ts: seq<RawToken>)
    ensures |Deltas(ts)| == |ts| && Expanded(Deltas(ts)) == Places(ts)
    ensures ts != [] ==> Cursor(Deltas(ts)) == (Last(ts).line, Last(ts).startChar)
  {
    if ts != [] {
      var front, t := ButLast(ts), Last(ts);
      DecodeInvertsEncode(front);
      var line, start := if front == [] then 0 else Last(front).line, if front == [] then 0 else Last(front).startChar;
      var d := Delta(t, line, start);
      assert Deltas(ts) == Deltas(front) + [d];
      assert ButLast(Deltas(ts)) == Deltas(front) && Last(Deltas(ts)) == d;
      PlusMinus(t.line, line);
      PlusMinus(t.startChar, start);
      assert Cursor(Deltas(front)) == (line, start);
    }
  }

  /** The modifiers, which the decoder does not look at, are sent along unchanged. */
  lemma {:induction false} ModifiersAreSent(ts: seq<RawToken>)
    ensures |Deltas(ts)| == |ts| && forall i :: 0 <= i < |ts| ==> Deltas(ts)[i].modifiers == ts[i].modifiers
  {
    if ts != [] {
      var front := ButLast(ts);
      ModifiersAreSent(front);
      forall i | 0 <= i < |ts| ensures Deltas(ts)[i].modifiers == ts[i].modifiers {
        if i < |front| { assert Deltas(ts)[i] == Deltas(front)[i]; }
      }
    }
  }

  /** No subtraction goes below zero. */
  ghost predicate NoUnderflow(ts: seq<RawToken>) {
    forall i :: 0 < i < |ts| ==>
      && ts[i].line >= ts[i - 1].line
      && (ts[i].line == ts[i - 1].line ==> ts[i].startChar >= ts[i - 1].startChar)
  }

  /** Encoding never underflows exactly when the tokens are sorted; what the pipeline encodes is. */
  lemma {:induction false} NoUnderflowIffSorted(ts: seq<RawToken>)
    ensures NoUnderflow(ts) <==> Sorted(ts)
  {
    if ts != [] {
      var front := ButLast(ts);
      NoUnderflowIffSorted(front);
      assert forall i :: 0 <= i < |front| ==> front[i] == ts[i];
      if NoUnderflow(ts) {
        assert NoUnderflow(front);
        forall i, j | 0 <= i < j < |ts| ensures AtMost(ts[i], ts[j]) {
          if j == |front| && i < j - 1 { assert AtMost(front[i], front[j - 1]); }
        }
      }
    }
  }

  /** The whole pipeline: nothing underflows, and a client decodes exactly the prepared tokens, which
      are in order, no two neighbours covering the same text, and cover whatever was collected. */
  lemma PipelineIsExact(lexical: seq<RawToken>, hir: seq<RawToken>)
    ensures var ts := Prepared(lexical, hir);
            && NoUnderflow(ts) && Sorted(ts) && Expanded(Deltas(ts)) == Places(ts)
            && (forall i :: 0 < i < |ts| ==> !SameSpot(ts[i - 1], ts[i]))
            && (forall t :: t in lexical + hir ==> exists u :: u in ts && SameSpot(t, u))
  {
    var all, ts := lexical + hir, Prepared(lexical, hir);
    SortHasAll(all);
    DedupSorted(Sort(all));
    DedupApart(Sort(all));
    NoUnderflowIffSorted(ts);
    DecodeInvertsEncode(ts);
  }

  lemma {:induction false} SortHasAll(ts: seq<RawToken>)
    ensures Sorted(Sort(ts)) && forall t :: t in Sort(ts) <==> t in ts
  {
    if ts != [] {
      SortHasAll(ButLast(ts));
      InsertSorts(Sort(ButLast(ts)), Last(ts));
      assert ts == ButLast(ts) + [Last(ts)];
    }
  }

  /** A token as a client is meant to see it. */
  predicate Shows(p: Placed, t: RawToken) {
    p.line == t.line && p.startChar == t.startChar && p.length == t.length && p.tokenType == t.tokenType
  }

  lemma {:induction false} PlacesShow(ts: seq<RawToken>)
    ensures |Places(ts)| == |ts| && forall i :: 0 <= i < |ts| ==> Shows(Places(ts)[i], ts[i])
  {
    if ts != [] { PlacesShow(ButLast(ts)); }
  }

  lemma {:induction false} DedupIsFrom(ts: seq<RawToken>)
    ensures forall t :: t in Dedup(ts) ==> t in ts
  {
    if ts != [] {
      DedupIsFrom(ButLast(ts));
      assert ts == ButLast(ts) + [Last(ts)];
    }
  }

  /** In the order of the text, and no two neighbours agree in line, start and length. */
  ghost predicate AreApart(seen: seq<Placed>) {
    forall i :: 0 < i < |seen| ==> Follows(seen[i - 1], seen[i])
  }

  predicate Follows(p: Placed, q: Placed) {
    || p.line < q.line
    || (p.line == q.line && p.startChar < q.startChar)
    || (p.line == q.line && p.startChar == q.startChar && p.length != q.length)
  }

  ghost predicate WasCollected(p: Placed, ts: seq<RawToken>) {
    exists t :: t in ts && Shows(p, t)
  }

  ghost predicate IsSeen(t: RawToken, seen: seq<Placed>) {
    exists p :: p in seen && p.line == t.line && p.startChar == t.startChar && p.length == t.length
  }

  /** The same, of what the client sees: it is apart, all of it was collected, and wherever something was collected
      it sees a token. */
  lemma ClientSees(lexical: seq<RawToken>, hir: seq<RawToken>)
    ensures var seen := Expanded(Deltas(Prepared(lexical, hir)));
            && AreApart(seen)
            && (forall p :: p in seen ==> WasCollected(p, lexical + hir))
            && (forall t :: t in lexical + hir ==> IsSeen(t, seen))
  {
    hide Sorted, SameSpot, Deltas, Expanded, Prepared, Places, AreApart, WasCollected, IsSeen, NoUnderflow;
    var all, ts := lexical + hir, Prepared(lexical, hir);
    PipelineIsExact(lexical, hir);
    PreparedIsFrom(lexical, hir);
    ShownApart(ts);
    ShownIsCollected(ts, all);
    forall t | t in all ensures IsSeen(t, Places(ts)) {
      ShownCovers(ts, t);
    }
  }

  lemma ShownApart(ts: seq<RawToken>)
    requires Sorted(ts) && forall i :: 0 < i < |ts| ==> !SameSpot(ts[i - 1], ts[i])
    ensures AreApart(Places(ts))
  {
    hide Places;
    PlacesShow(ts);
    var seen := Places(ts);
    forall i | 0 < i < |seen| ensures Follows(seen[i - 1], seen[i]) {
      assert AtMost(ts[i - 1], ts[i]) && Shows(seen[i - 1], ts[i - 1]) && Shows(seen[i], ts[i]);
    }
  }

  lemma ShownIsCollected(ts: seq<RawToken>, all: seq<RawToken>)
    requires forall t :: t in ts ==> t in all
    ensures forall p :: p in Places(ts) ==> WasCollected(p, all)
  {
    hide Places;
    PlacesShow(ts);
  }

  lemma ShownCovers(ts: seq<RawToken>, t: RawToken)
    requires exists u :: u in ts && SameSpot(t, u)
    ensures IsSeen(t, Places(ts))
  {
    hide Places;
    PlacesShow(ts);
    var u :| u in ts && SameSpot(t, u);
    var i :| 0 <= i < |ts| && ts[i] == u;
    assert Places(ts)[i] in Places(ts) && Shows(Places(ts)[i], ts[i]);
  }

  lemma PreparedIsFrom(lexical: seq<RawToken>, hir: seq<RawToken>)
    ensures forall t :: t in Prepared(lexical, hir) ==> t in lexical + hir
  {
    SortHasAll(lexical + hir);
    DedupIsFrom(Sort(lexical + hir));
  }
}
