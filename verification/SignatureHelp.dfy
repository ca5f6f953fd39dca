/** Which call the cursor is in, and which argument (`src/ruxen_ide/src/signature_help.rs`): a scan
    backward over the text with three depth counters, against a parser that reads it forward. The
    text is its bytes, each written as a character; every delimiter is a single ASCII byte. */
module SignatureHelp {
  import opened Common

  datatype CallContext = CallContext(parenOffset: nat, activeParam: nat)

  predicate IsQuote(b: char) {
    b == '"' || b == '\''
  }

  // ---------------------------------------------------------------------------------------
  // The code.
  // ---------------------------------------------------------------------------------------

  /** The run of backslashes that ends before `at`. */
  function Backslashes(bytes: string, at: nat): nat
    requires at <= |bytes|
  {
    if at > 0 && bytes[at - 1] == '\\' then Backslashes(bytes, at - 1) + 1 else 0
  }

  predicate Escaped(bytes: string, at: nat)
    requires at <= |bytes|
  {
    Backslashes(bytes, at) % 2 == 1
  }

  method IsEscaped(bytes: string, at: nat) returns (escaped: bool)
    requires at <= |bytes|
    ensures escaped == Escaped(bytes, at)
  {
    var backslashes, k: nat := 0, at;
    while k > 0 && bytes[k - 1] == '\\'
      invariant k <= at && Backslashes(bytes, at) == backslashes + Backslashes(bytes, k)
    {
      backslashes := backslashes + 1;
      k := k - 1;
    }
    escaped := backslashes % 2 == 1;
  }

  /** The nearest unescaped `quote` before `close`. */
  function OpenBefore(bytes: string, close: nat, quote: char): (r: Option<nat>)
    requires close <= |bytes|
    ensures r.Some? ==> r.value < close
  {
    if close == 0 then None
    else if bytes[close - 1] == quote && !Escaped(bytes, close - 1) then Some(close - 1)
    else OpenBefore(bytes, close - 1, quote)
  }

  method ScanBackToStringOpen(bytes: string, close: nat, quote: char) returns (open: Option<nat>)
    requires close <= |bytes|
    ensures open == OpenBefore(bytes, close, quote)
  {
    var j: nat := close;
    while j > 0
      invariant j <= close && OpenBefore(bytes, close, quote) == OpenBefore(bytes, j, quote)
    {
      j := j - 1;
      if bytes[j] == quote {
        var escaped := IsEscaped(bytes, j);
        if !escaped { return Some(j); }
      }
    }
    return None;
  }

  /** What is left of the scan at `i`, with the three depths and the commas counted so far. */
  function Scan(bytes: string, i: nat, paren: nat, square: nat, brace: nat, commas: nat): Option<CallContext>
    requires i <= |bytes|
    decreases i
  {
    if i == 0 then None
    else
      var b := bytes[i - 1];
      if IsQuote(b) then
        match OpenBefore(bytes, i - 1, b)
        case Some(open) => Scan(bytes, open, paren, square, brace, commas)
        case None => None
      else if b == ')' then Scan(bytes, i - 1, paren + 1, square, brace, commas)
      else if b == ']' then Scan(bytes, i - 1, paren, square + 1, brace, commas)
      else if b == '}' then Scan(bytes, i - 1, paren, square, brace + 1, commas)
      else if b == '(' then
        if paren == 0 then Some(CallContext(i - 1, commas)) else Scan(bytes, i - 1, paren - 1, square, brace, commas)
      else if b == '[' then
        if square == 0 then None else Scan(bytes, i - 1, paren, square - 1, brace, commas)
      else if b == '{' then
        if brace == 0 then None else Scan(bytes, i - 1, paren, square, brace - 1, commas)
      else if b == ',' && paren == 0 && square == 0 && brace == 0 then
        Scan(bytes, i - 1, paren, square, brace, commas + 1)
      else Scan(bytes, i - 1, paren, square, brace, commas)
  }

  method EnclosingCallContext(source: string, cursor: nat) returns (r: Option<CallContext>)
    ensures r == Scan(source, Min(cursor, |source|), 0, 0, 0, 0)
  {
    var parenDepth, squareDepth, braceDepth, commas: nat := 0, 0, 0, 0;
    var i: nat := Min(cursor, |source|);
    ghost var all := Scan(source, i, 0, 0, 0, 0);
    while i > 0
      invariant i <= |source| && Scan(source, i, parenDepth, squareDepth, braceDepth, commas) == all
    {
      i := i - 1;
      var b := source[i];
      if IsQuote(b) {
        var open := ScanBackToStringOpen(source, i, b);
        match open {
          case Some(o) => i := o; continue;
          case None => return None;
        }
      }
      match b {
        case ')' => parenDepth := parenDepth + 1;
        case ']' => squareDepth := squareDepth + 1;
        case '}' => braceDepth := braceDepth + 1;
        case '(' =>
          if parenDepth == 0 { return Some(CallContext(i, commas)); }
          parenDepth := parenDepth - 1;
        case '[' =>
          if squareDepth == 0 { return None; }
          squareDepth := squareDepth - 1;
        case '{' =>
          if braceDepth == 0 { return None; }
          braceDepth := braceDepth - 1;
        case ',' =>
          if parenDepth == 0 && squareDepth == 0 && braceDepth == 0 { commas := commas + 1; }
        case _ =>
      }
    }
    return None;
  }

  // ---------------------------------------------------------------------------------------
  // The same question answered by reading forward with a stack.
  // ---------------------------------------------------------------------------------------

  datatype Mode = Code | Literal(quote: char, escaped: bool)

  /** An open bracket, and the commas directly inside it so far. */
  datatype Frame = Frame(kind: char, pos: nat, commas: nat)

  datatype State = State(mode: Mode, stack: seq<Frame>)

  function Closing(open: char): char {
    if open == '(' then ')' else if open == '[' then ']' else '}'
  }

  predicate IsOpening(b: char) {
    b == '(' || b == '[' || b == '{'
  }

  predicate IsClosing(b: char) {
    b == ')' || b == ']' || b == '}'
  }

  function Top(stack: seq<Frame>): Frame
    requires stack != []
  {
    stack[|stack| - 1]
  }

  function Below(stack: seq<Frame>): seq<Frame>
    requires stack != []
  {
    stack[..|stack| - 1]
  }

  /** One byte of a literal. */
  function Within(quote: char, escaped: bool, b: char): Mode {
    if escaped then Literal(quote, false)
    else if b == '\\' then Literal(quote, true)
    else if b == quote then Code
    else Literal(quote, false)
  }

  /** The state after the first `n` bytes; `None` if a bracket closes the wrong one or none, or a
      literal would open at an escaped quote. */
  function Parse(bytes: string, n: nat): Option<State>
    requires n <= |bytes|
  {
    if n == 0 then Some(State(Code, []))
    else
      match Parse(bytes, n - 1)
      case None => None
      case Some(State(Literal(q, escaped), stack)) =>
        Some(State(Within(q, escaped, bytes[n - 1]), stack))
      case Some(State(Code, stack)) => Read(bytes, n - 1, stack)
  }

  /** One byte of code. */
  function Read(bytes: string, at: nat, stack: seq<Frame>): Option<State>
    requires at < |bytes|
  {
    var b := bytes[at];
    if IsQuote(b) then
      if Escaped(bytes, at) then None else Some(State(Literal(b, false), stack))
    else if IsOpening(b) then Some(State(Code, stack + [Frame(b, at, 0)]))
    else if IsClosing(b) then
      if stack != [] && Closing(Top(stack).kind) == b then Some(State(Code, Below(stack))) else None
    else if b == ',' && stack != [] then
      Some(State(Code, Below(stack) + [Top(stack).(commas := Top(stack).commas + 1)]))
    else Some(State(Code, stack))
  }

  /** The enclosing call, read off the stack: the innermost open bracket if it is a `(`. */
  function Enclosing(stack: seq<Frame>): Option<CallContext> {
    if stack != [] && Top(stack).kind == '(' then Some(CallContext(Top(stack).pos, Top(stack).commas)) else None
  }

  // ---------------------------------------------------------------------------------------
  // They agree.
  // ---------------------------------------------------------------------------------------

  function Count(stack: seq<Frame>, kind: char): nat {
    if stack == [] then 0 else Count(Below(stack), kind) + (if Top(stack).kind == kind then 1 else 0)
  }

  ghost predicate Bracketed(stack: seq<Frame>) {
    forall k :: 0 <= k < |stack| ==> IsOpening(stack[k].kind)
  }

  /** `stack`, met on the way back, against the stack `target` at the cursor: `target`'s brackets are
      still open, with `commas` of its innermost one's commas still ahead, and the counters say how
      many brackets of each kind are open beyond those. */
  ghost predicate Ahead(stack: seq<Frame>, target: seq<Frame>, paren: nat, square: nat, brace: nat, commas: nat) {
    && |target| <= |stack| && Bracketed(stack)
    && (target != [] ==>
          && Below(target) == stack[..|target| - 1]
          && Top(target) == stack[|target| - 1].(commas := stack[|target| - 1].commas + commas))
    && paren == Count(stack[|target|..], '(')
    && square == Count(stack[|target|..], '[')
    && brace == Count(stack[|target|..], '{')
  }

  lemma {:induction false} CountsOfNothing(stack: seq<Frame>)
    requires Bracketed(stack)
    ensures stack == [] <==> Count(stack, '(') == Count(stack, '[') == Count(stack, '{') == 0
  {
    if stack != [] { assert IsOpening(Top(stack).kind); }
  }

  lemma CountPush(stack: seq<Frame>, f: Frame, n: nat, kind: char)
    requires n <= |stack|
    ensures Count((stack + [f])[n..], kind) == Count(stack[n..], kind) + if f.kind == kind then 1 else 0
  {
    assert (stack + [f])[n..] == stack[n..] + [f];
    assert Below(stack[n..] + [f]) == stack[n..];
  }

  lemma {:induction false} ParseBracketed(bytes: string, n: nat)
    requires n <= |bytes| && Parse(bytes, n).Some?
    ensures Bracketed(Parse(bytes, n).value.stack)
  {
    if n > 0 { ParseBracketed(bytes, n - 1); }
  }

  /** Inside a literal, the parser's flag is the parity of the backslashes before. */
  lemma {:induction false} LiteralStart(bytes: string, n: nat) returns (open: nat)
    requires n <= |bytes| && Parse(bytes, n).Some? && Parse(bytes, n).value.mode.Literal?
    ensures var s := Parse(bytes, n).value;
            && open < n && bytes[open] == s.mode.quote && IsQuote(bytes[open]) && !Escaped(bytes, open)
            && Parse(bytes, open) == Some(State(Code, s.stack))
            && s.mode.escaped == Escaped(bytes, n)
            && (forall j :: open < j < n && bytes[j] == s.mode.quote ==> Escaped(bytes, j))
  {
    var before := Parse(bytes, n - 1).value;
    if before.mode.Code? {
      open := n - 1;
    } else {
      open := LiteralStart(bytes, n - 1);
    }
  }

  /** Going back from the quote that closes a literal, the scan finds the one that opened it. */
  lemma {:induction false} FindsOpening(bytes: string, close: nat, open: nat, quote: char)
    requires open < close <= |bytes| && bytes[open] == quote && !Escaped(bytes, open)
    requires forall j :: open < j < close && bytes[j] == quote ==> Escaped(bytes, j)
    ensures OpenBefore(bytes, close, quote) == Some(open)
  {
    if open < close - 1 { FindsOpening(bytes, close - 1, open, quote); }
  }

  /** Going back over a closing bracket reopens its bracket. */
  lemma BackOverClosing(before: seq<Frame>, f: Frame, target: seq<Frame>, paren: nat, square: nat, brace: nat,
                        commas: nat)
    requires Ahead(before, target, paren, square, brace, commas) && IsOpening(f.kind)
    ensures Ahead(before + [f], target,
                  paren + (if f.kind == '(' then 1 else 0), square + (if f.kind == '[' then 1 else 0),
                  brace + (if f.kind == '{' then 1 else 0), commas)
  {
    CountPush(before, f, |target|, '(');
    CountPush(before, f, |target|, '[');
    CountPush(before, f, |target|, '{');
  }

  /** Going back over an opening bracket: one that has been closed since, and the counters know it;
      or the one the cursor is in, and they are all zero. */
  lemma BackOverOpening(before: seq<Frame>, f: Frame, target: seq<Frame>, paren: nat, square: nat, brace: nat,
                        commas: nat)
    requires Ahead(before + [f], target, paren, square, brace, commas) && Bracketed(before)
    ensures IsOpening(f.kind)
    ensures |target| <= |before| ==>
            && (f.kind == '(' ==> paren > 0 && Ahead(before, target, paren - 1, square, brace, commas))
            && (f.kind == '[' ==> square > 0 && Ahead(before, target, paren, square - 1, brace, commas))
            && (f.kind == '{' ==> brace > 0 && Ahead(before, target, paren, square, brace - 1, commas))
    ensures |target| > |before| ==>
            paren == square == brace == 0 && target != [] && Top(target) == f.(commas := f.commas + commas)
  {
    assert (before + [f])[|before|] == f;
    if |target| <= |before| {
      CountPush(before, f, |target|, '(');
      CountPush(before, f, |target|, '[');
      CountPush(before, f, |target|, '{');
    }
  }

  /** One more comma in the innermost bracket does not change which brackets are open. */
  lemma CountComma(stack: seq<Frame>, f: Frame, n: nat, kind: char)
    requires stack != [] && n < |stack| && f.kind == Top(stack).kind
    ensures Count((Below(stack) + [f])[n..], kind) == Count(stack[n..], kind)
  {
    assert Below(stack) + [Top(stack)] == stack;
    CountPush(Below(stack), Top(stack), n, kind);
    CountPush(Below(stack), f, n, kind);
  }

  /** Going back over a comma: counted exactly when no closed bracket is still open here. */
  lemma BackOverComma(before: seq<Frame>, target: seq<Frame>, paren: nat, square: nat, brace: nat, commas: nat)
    requires before != [] && Bracketed(before)
    requires var f := Top(before).(commas := Top(before).commas + 1);
             Ahead(Below(before) + [f], target, paren, square, brace, commas)
    ensures Ahead(before, target, paren, square, brace, if paren == square == brace == 0 then commas + 1 else commas)
  {
    var f := Top(before).(commas := Top(before).commas + 1);
    var stack := Below(before) + [f];
    CountsOfNothing(stack[|target|..]);
    if |target| < |before| {
      CountComma(before, f, |target|, '(');
      CountComma(before, f, |target|, '[');
      CountComma(before, f, |target|, '{');
      CountsOfNothing(before[|target|..]);
    } else {
      assert before[|target|..] == [] == stack[|target|..];
    }
  }

  /** How the last byte led to code. */
  lemma LastByte(bytes: string, i: nat)
    requires i <= |bytes| && Parse(bytes, i).Some? && Parse(bytes, i).value.mode.Code?
    ensures i == 0 ==> Parse(bytes, i).value.stack == []
    ensures i > 0 ==> Parse(bytes, i - 1).Some?
    ensures i > 0 && Parse(bytes, i - 1).value.mode.Code? ==>
              Parse(bytes, i) == Read(bytes, i - 1, Parse(bytes, i - 1).value.stack)
    ensures i > 0 && Parse(bytes, i - 1).value.mode.Literal? ==>
              && bytes[i - 1] == Parse(bytes, i - 1).value.mode.quote
              && Parse(bytes, i).value.stack == Parse(bytes, i - 1).value.stack
  {
  }

  /** One byte of the scan. */
  lemma ScanStep(bytes: string, i: nat, paren: nat, square: nat, brace: nat, commas: nat)
    requires i <= |bytes|
    ensures i == 0 ==> Scan(bytes, i, paren, square, brace, commas) == None
    ensures i > 0 ==>
      var b, result := bytes[i - 1], Scan(bytes, i, paren, square, brace, commas);
      && (IsQuote(b) && OpenBefore(bytes, i - 1, b).Some? ==>
            result == Scan(bytes, OpenBefore(bytes, i - 1, b).value, paren, square, brace, commas))
      && (b == ')' ==> result == Scan(bytes, i - 1, paren + 1, square, brace, commas))
      && (b == ']' ==> result == Scan(bytes, i - 1, paren, square + 1, brace, commas))
      && (b == '}' ==> result == Scan(bytes, i - 1, paren, square, brace + 1, commas))
      && (b == '(' ==> result == if paren == 0 then Some(CallContext(i - 1, commas))
                                 else Scan(bytes, i - 1, paren - 1, square, brace, commas))
      && (b == '[' ==> result == if square == 0 then None else Scan(bytes, i - 1, paren, square - 1, brace, commas))
      && (b == '{' ==> result == if brace == 0 then None else Scan(bytes, i - 1, paren, square, brace - 1, commas))
      && (b == ',' ==> result == Scan(bytes, i - 1, paren, square, brace,
                                      if paren == 0 && square == 0 && brace == 0 then commas + 1 else commas))
      && (!IsQuote(b) && !IsOpening(b) && !IsClosing(b) && b != ',' ==>
            result == Scan(bytes, i - 1, paren, square, brace, commas))
  {
  }

  lemma BracketIsCode(bytes: string, i: nat)
    requires 0 < i <= |bytes| && Parse(bytes, i).Some? && Parse(bytes, i - 1).Some?
    requires Parse(bytes, i - 1).value.mode.Code? && !IsQuote(bytes[i - 1])
    ensures Parse(bytes, i).value.mode.Code?
  {
  }

  /** Going back over a bracket: the scan ends there with the right answer, or goes on with the counters
      in step. */
  lemma BackOverBracket(bytes: string, i: nat, target: seq<Frame>, paren: nat, square: nat, brace: nat, commas: nat)
    returns (done: bool, paren': nat, square': nat, brace': nat)
    requires 0 < i <= |bytes| && (IsClosing(bytes[i - 1]) || IsOpening(bytes[i - 1]))
    requires Parse(bytes, i).Some? && Parse(bytes, i - 1).Some? && Parse(bytes, i - 1).value.mode.Code?
    requires Ahead(Parse(bytes, i).value.stack, target, paren, square, brace, commas)
    ensures done ==> Scan(bytes, i, paren, square, brace, commas) == Enclosing(target)
    ensures !done ==>
              && Ahead(Parse(bytes, i - 1).value.stack, target, paren', square', brace', commas)
              && Scan(bytes, i, paren, square, brace, commas) == Scan(bytes, i - 1, paren', square', brace', commas)
  {
    hide Ahead, Parse, OpenBefore, Escaped, Enclosing, Count, Bracketed, Scan;
    BracketIsCode(bytes, i);
    LastByte(bytes, i);
    ScanStep(bytes, i, paren, square, brace, commas);
    var b, before := bytes[i - 1], Parse(bytes, i - 1).value.stack;
    ParseBracketed(bytes, i - 1);
    done, paren', square', brace' := false, paren, square, brace;
    if IsClosing(b) {
      var f := Top(before);
      assert Below(before) + [f] == before && IsOpening(f.kind);
      BackOverClosing(Below(before), f, target, paren, square, brace, commas);
      paren', square' := if b == ')' then paren + 1 else paren, if b == ']' then square + 1 else square;
      brace' := if b == '}' then brace + 1 else brace;
    } else {
      BackOverOpening(before, Frame(b, i - 1, 0), target, paren, square, brace, commas);
      if |target| <= |before| {
        paren', square' := if b == '(' then paren - 1 else paren, if b == '[' then square - 1 else square;
        brace' := if b == '{' then brace - 1 else brace;
      } else {
        EnclosingTop(target);
        done := true;
      }
    }
  }

  /** The scan from any point on the way back gives what the parser's stack at the cursor says. */
  lemma {:induction false} ScanAgrees(bytes: string, i: nat, target: seq<Frame>,
                                      paren: nat, square: nat, brace: nat, commas: nat)
    requires i <= |bytes| && Parse(bytes, i).Some? && Parse(bytes, i).value.mode.Code?
    requires Ahead(Parse(bytes, i).value.stack, target, paren, square, brace, commas)
    ensures Scan(bytes, i, paren, square, brace, commas) == Enclosing(target)
    decreases i
  {
    hide Ahead, Parse, OpenBefore, Escaped, Enclosing, Count, Bracketed, Scan;
    LastByte(bytes, i);
    ScanStep(bytes, i, paren, square, brace, commas);
    if i == 0 {
      AheadOfNothing(target, paren, square, brace, commas);
    } else {
      var b := bytes[i - 1];
      if Parse(bytes, i - 1).value.mode.Literal? {
        var open := LiteralStart(bytes, i - 1);
        FindsOpening(bytes, i - 1, open, b);
        ScanAgrees(bytes, open, target, paren, square, brace, commas);
      } else {
        var before := Parse(bytes, i - 1).value.stack;
        ParseBracketed(bytes, i - 1);
        if IsClosing(b) || IsOpening(b) {
          var done, p, q, r := BackOverBracket(bytes, i, target, paren, square, brace, commas);
          if !done { ScanAgrees(bytes, i - 1, target, p, q, r, commas); }
        } else if b == ',' && before != [] {
          BackOverComma(before, target, paren, square, brace, commas);
          ScanAgrees(bytes, i - 1, target, paren, square, brace,
                     if paren == square == brace == 0 then commas + 1 else commas);
        } else if b == ',' {
          AheadOfNothing(target, paren, square, brace, commas);
          ScanAgrees(bytes, i - 1, target, paren, square, brace, commas + 1);
        } else {
          ScanAgrees(bytes, i - 1, target, paren, square, brace, commas);
        }
      }
    }
  }

  lemma EnclosingTop(stack: seq<Frame>)
    requires stack != []
    ensures Enclosing(stack) ==
            if Top(stack).kind == '(' then Some(CallContext(Top(stack).pos, Top(stack).commas)) else None
  {
  }

  /** Where nothing is open, the cursor was in no bracket, and commas do not matter. */
  lemma AheadOfNothing(target: seq<Frame>, paren: nat, square: nat, brace: nat, commas: nat)
    requires Ahead([], target, paren, square, brace, commas)
    ensures target == [] && paren == square == brace == 0 && Enclosing(target) == None
    ensures Ahead([], target, paren, square, brace, commas + 1)
  {
  }

  /** On every prefix of properly nested text that ends outside a literal, the scan with three
      counters finds the innermost open bracket of the stack parser, and its commas, if it is a
      `(`, and nothing otherwise. */
  lemma BackwardMeetsForward(source: string, cursor: nat)
    requires cursor <= |source| && Parse(source, cursor).Some? && Parse(source, cursor).value.mode.Code?
    ensures Scan(source, cursor, 0, 0, 0, 0) == Enclosing(Parse(source, cursor).value.stack)
  {
    var stack := Parse(source, cursor).value.stack;
    ParseBracketed(source, cursor);
    assert stack[|stack|..] == [];
    ScanAgrees(source, cursor, stack, 0, 0, 0, 0);
  }

  // ---------------------------------------------------------------------------------------
  // A cursor inside a literal.
  // ---------------------------------------------------------------------------------------

  /** Between the cursor and the quote that opens the literal it is in, the scan reads text as code; that
      quote it takes for a closing one, and goes on at the one before it of the same kind. */
  lemma {:induction false} ThroughContent(bytes: string, i: nat, open: nat, paren: nat, square: nat, brace: nat,
                                          commas: nat)
    returns (counted: nat)
    requires open < i <= |bytes| && IsQuote(bytes[open])
    requires forall j :: open < j < i ==> !IsQuote(bytes[j]) && !IsOpening(bytes[j]) && !IsClosing(bytes[j])
    ensures Scan(bytes, i, paren, square, brace, commas) ==
            match OpenBefore(bytes, open, bytes[open])
            case None => None
            case Some(p) => Scan(bytes, p, paren, square, brace, counted)
  {
    hide OpenBefore;
    counted := commas;
    if open < i - 1 {
      var zero := paren == 0 && square == 0 && brace == 0;
      counted := ThroughContent(bytes, i - 1, open, paren, square, brace,
                                if bytes[i - 1] == ',' && zero then commas + 1 else commas);
    }
  }

  lemma {:induction false} NearestOpening(bytes: string, close: nat, quote: char)
    requires close <= |bytes| && OpenBefore(bytes, close, quote).Some?
    ensures var p := OpenBefore(bytes, close, quote).value;
            && bytes[p] == quote && !Escaped(bytes, p)
            && forall j :: p < j < close && bytes[j] == quote ==> Escaped(bytes, j)
  {
    if !(bytes[close - 1] == quote && !Escaped(bytes, close - 1)) { NearestOpening(bytes, close - 1, quote); }
  }

  lemma {:induction false} ParsePrefix(bytes: string, j: nat, n: nat)
    requires j <= n <= |bytes| && Parse(bytes, n).Some?
    ensures Parse(bytes, j).Some?
    decreases n
  {
    if j < n { ParsePrefix(bytes, j, n - 1); }
  }

  /** A literal goes on to the next unescaped quote of its kind. */
  lemma {:induction false} LiteralGoesOn(bytes: string, j: nat, n: nat, quote: char)
    requires j <= n <= |bytes| && Parse(bytes, n).Some? && Parse(bytes, j).Some?
    requires Parse(bytes, j).value.mode.Literal? && Parse(bytes, j).value.mode.quote == quote
    requires forall k :: j <= k < n && bytes[k] == quote ==> Escaped(bytes, k)
    ensures Parse(bytes, n).value.mode.Literal? && Parse(bytes, n).value.mode.quote == quote
    decreases n
  {
    if j < n {
      ParsePrefix(bytes, n - 1, n);
      LiteralGoesOn(bytes, j, n - 1, quote);
      var open := LiteralStart(bytes, n - 1);
    }
  }

  /** All literals before `n` have one kind of quote, and inside them there are no brackets and no quotes. */
  ghost predicate PlainLiterals(bytes: string, n: nat, quote: char)
    requires n <= |bytes|
  {
    forall j :: 0 <= j < n && Parse(bytes, j).Some? && Parse(bytes, j).value.mode.Literal? ==>
      && Parse(bytes, j).value.mode.quote == quote
      && !IsOpening(bytes[j]) && !IsClosing(bytes[j])
      && (IsQuote(bytes[j]) ==> bytes[j] == quote && !Escaped(bytes, j))
  }

  lemma {:induction false} ContentIsLiteral(bytes: string, open: nat, i: nat, n: nat)
    requires open < i <= n <= |bytes| && Parse(bytes, n).Some? && Parse(bytes, open).Some?
    requires Parse(bytes, open).value.mode.Code? && IsQuote(bytes[open]) && !Escaped(bytes, open)
    requires forall j :: open < j < n && bytes[j] == bytes[open] ==> Escaped(bytes, j)
    ensures Parse(bytes, i).Some? && Parse(bytes, i).value.mode.Literal?
            && Parse(bytes, i).value.mode.quote == bytes[open]
  {
    ParsePrefix(bytes, open + 1, n);
    ParsePrefix(bytes, i, n);
    assert Parse(bytes, open + 1) == Read(bytes, open, Parse(bytes, open).value.stack);
    LiteralGoesOn(bytes, open + 1, i, bytes[open]);
  }

  /** So inside a literal the scan finds no call, whatever call the literal is an argument of: it pairs
      every opening quote with the closing one before it, and the first has none. */
  lemma {:induction false} InsideALiteral(bytes: string, cursor: nat, quote: char, paren: nat, square: nat, brace: nat,
                                          commas: nat)
    requires cursor <= |bytes| && Parse(bytes, cursor).Some? && Parse(bytes, cursor).value.mode.Literal?
    requires Parse(bytes, cursor).value.mode.quote == quote && PlainLiterals(bytes, cursor, quote)
    ensures Scan(bytes, cursor, paren, square, brace, commas) == None
    decreases cursor
  {
    hide Scan, OpenBefore;
    var open := LiteralStart(bytes, cursor);
    forall j | open < j < cursor ensures !IsQuote(bytes[j]) && !IsOpening(bytes[j]) && !IsClosing(bytes[j]) {
      ContentIsLiteral(bytes, open, j, cursor);
    }
    var counted := ThroughContent(bytes, cursor, open, paren, square, brace, commas);
    var before := OpenBefore(bytes, open, quote);
    if before.Some? {
      var p := before.value;
      NearestOpening(bytes, open, quote);
      ParsePrefix(bytes, p, open);
      if Parse(bytes, p).value.mode.Code? {
        ContentIsLiteral(bytes, p, open, open);
        assert false;
      }
      InsideALiteral(bytes, p, quote, paren, square, brace, counted);
    }
  }

  /** In `f("a` the cursor is in the first argument of a call, and the scan finds none. */
  lemma LiteralArgumentIsMissed()
    ensures var s := "f(\"a";
            && Parse(s, 4) == Some(State(Literal('"', false), [Frame('(', 1, 0)]))
            && Enclosing([Frame('(', 1, 0)]) == Some(CallContext(1, 0))
            && Scan(s, 4, 0, 0, 0, 0) == None
  {
    var s := "f(\"a";
    var open := [Frame('(', 1, 0)];
    assert [] + open == open;
    assert Parse(s, 1) == Some(State(Code, []));
    assert Parse(s, 2) == Some(State(Code, open));
    assert Parse(s, 3) == Some(State(Literal('"', false), open));
    InsideALiteral(s, 4, '"', 0, 0, 0, 0);
  }

  // ---------------------------------------------------------------------------------------
  // Comments.
  // ---------------------------------------------------------------------------------------

  /** The parser's state with comments told apart: they run from a `#` in code to the end of the line. */
  datatype Commented = Commented(state: State, inComment: bool)

  /** The forward parser as it would be if comments were opaque. */
  function ParseCommented(bytes: string, n: nat): Option<Commented>
    requires n <= |bytes|
  {
    if n == 0 then Some(Commented(State(Code, []), false))
    else
      match ParseCommented(bytes, n - 1)
      case None => None
      case Some(Commented(s, true)) => Some(Commented(s, bytes[n - 1] != '\n'))
      case Some(Commented(State(Literal(q, escaped), stack), false)) =>
        Some(Commented(State(Within(q, escaped, bytes[n - 1]), stack), false))
      case Some(Commented(State(Code, stack), false)) =>
        if bytes[n - 1] == '#' then Some(Commented(State(Code, stack), true))
        else
          match Read(bytes, n - 1, stack)
          case None => None
          case Some(s) => Some(Commented(s, false))
  }

  /** No comment before `n` holds a quote or a bracket. */
  ghost predicate PlainComments(bytes: string, n: nat)
    requires n <= |bytes|
  {
    forall i :: 0 <= i < n && ParseCommented(bytes, i).Some? && ParseCommented(bytes, i).value.inComment ==>
      !IsQuote(bytes[i]) && !IsOpening(bytes[i]) && !IsClosing(bytes[i])
  }

  /** At `j` there is a comma in a comment that is directly inside the `depth`-th open bracket. */
  ghost predicate CommaAt(bytes: string, j: nat, depth: nat) {
    && j < |bytes| && bytes[j] == ','
    && ParseCommented(bytes, j).Some? && ParseCommented(bytes, j).value.inComment
    && |ParseCommented(bytes, j).value.state.stack| == depth
  }

  /** A comment directly inside the bracket at `pos`, the `depth`-th that is open, holds a comma. */
  ghost predicate CommentComma(bytes: string, n: nat, pos: nat, depth: nat) {
    exists j :: pos < j < n && CommaAt(bytes, j, depth)
  }

  /** The stack of the parser that takes comments for code against that of the one that knows them: the same
      brackets, with more commas exactly where a comment holds some. */
  ghost predicate Overcounts(bytes: string, n: nat, plain: seq<Frame>, commented: seq<Frame>) {
    && |plain| == |commented|
    && forall i :: 0 <= i < |plain| ==>
         && plain[i].kind == commented[i].kind && plain[i].pos == commented[i].pos < n
         && plain[i].commas >= commented[i].commas
         && (plain[i].commas > commented[i].commas <==> CommentComma(bytes, n, plain[i].pos, i + 1))
  }

  /** One more byte that is no comma in a comment. */
  lemma OneMoreByte(bytes: string, n: nat, pos: nat, depth: nat)
    requires n < |bytes| && pos < n
    ensures CommentComma(bytes, n + 1, pos, depth) <==> CommentComma(bytes, n, pos, depth) || CommaAt(bytes, n, depth)
  {
  }

  /** One byte of code. */
  lemma ReadOvercounts(bytes: string, n: nat, plain: seq<Frame>, commented: seq<Frame>)
    requires n < |bytes| && Overcounts(bytes, n, plain, commented) && forall depth :: !CommaAt(bytes, n, depth)
    ensures Read(bytes, n, commented).Some? ==>
              && Read(bytes, n, plain).Some?
              && Read(bytes, n, plain).value.mode == Read(bytes, n, commented).value.mode
              && Overcounts(bytes, n + 1, Read(bytes, n, plain).value.stack, Read(bytes, n, commented).value.stack)
  {
    hide CommaAt, CommentComma, Escaped;
    forall i | 0 <= i < |plain|
      ensures CommentComma(bytes, n + 1, plain[i].pos, i + 1) <==> CommentComma(bytes, n, plain[i].pos, i + 1)
    {
      OneMoreByte(bytes, n, plain[i].pos, i + 1);
    }
    NoneYet(bytes, n, |plain| + 1);
  }

  lemma NoneYet(bytes: string, n: nat, depth: nat)
    ensures !CommentComma(bytes, n + 1, n, depth)
  {
  }

  /** One byte of a comment. */
  lemma CommentOvercounts(bytes: string, n: nat, plain: seq<Frame>, commented: seq<Frame>)
    requires n < |bytes| && Overcounts(bytes, n, plain, commented)
    requires forall depth: nat :: CommaAt(bytes, n, depth) <==> bytes[n] == ',' && depth == |commented|
    requires !IsQuote(bytes[n]) && !IsOpening(bytes[n]) && !IsClosing(bytes[n])
    ensures Read(bytes, n, plain).Some? && Read(bytes, n, plain).value.mode.Code?
    ensures Overcounts(bytes, n + 1, Read(bytes, n, plain).value.stack, commented)
  {
    hide CommaAt, CommentComma, Escaped;
    forall i | 0 <= i < |plain|
      ensures CommentComma(bytes, n + 1, plain[i].pos, i + 1) <==>
              CommentComma(bytes, n, plain[i].pos, i + 1) || (i + 1 == |plain| && bytes[n] == ',')
    {
      OneMoreByte(bytes, n, plain[i].pos, i + 1);
    }
  }

  lemma CommaHere(bytes: string, n: nat)
    requires n < |bytes| && ParseCommented(bytes, n).Some?
    ensures var c := ParseCommented(bytes, n).value;
            forall depth: nat :: CommaAt(bytes, n, depth) <==>
              c.inComment && bytes[n] == ',' && depth == |c.state.stack|
  {
    hide ParseCommented;
  }

  /** One byte for the parser that knows comments. */
  lemma CommentedStep(bytes: string, n: nat)
    requires n < |bytes| && ParseCommented(bytes, n + 1).Some?
    ensures ParseCommented(bytes, n).Some?
    ensures var c, d := ParseCommented(bytes, n).value, ParseCommented(bytes, n + 1).value;
            && (c.inComment ==> d.state == c.state)
            && (!c.inComment && c.state.mode.Literal? ==>
                  d.state == State(Within(c.state.mode.quote, c.state.mode.escaped, bytes[n]), c.state.stack)
                  && !d.inComment)
            && (!c.inComment && c.state.mode.Code? ==>
                  if bytes[n] == '#' then d == Commented(c.state, true)
                  else Read(bytes, n, c.state.stack) == Some(d.state) && !d.inComment)
  {
    hide Read, Within;
  }

  /** One byte for the parser that takes comments for code. */
  lemma PlainStep(bytes: string, n: nat)
    requires n < |bytes| && Parse(bytes, n).Some?
    ensures var c := Parse(bytes, n).value;
            Parse(bytes, n + 1) == if c.mode.Code? then Read(bytes, n, c.stack)
                                   else Some(State(Within(c.mode.quote, c.mode.escaped, bytes[n]), c.stack))
  {
    hide Read, Within;
  }

  lemma {:induction false} CommentsAreReadAsCode(bytes: string, n: nat)
    requires n <= |bytes| && ParseCommented(bytes, n).Some? && PlainComments(bytes, n)
    ensures var c := ParseCommented(bytes, n).value;
            && Parse(bytes, n).Some? && Parse(bytes, n).value.mode == c.state.mode
            && (c.inComment ==> c.state.mode.Code?)
            && Overcounts(bytes, n, Parse(bytes, n).value.stack, c.state.stack)
  {
    hide CommaAt, CommentComma, Overcounts, Read, Parse, ParseCommented, Within;
    if n == 0 {
      NothingOvercounts(bytes);
    } else {
      CommentedStep(bytes, n - 1);
      CommentsAreReadAsCode(bytes, n - 1);
      PlainStep(bytes, n - 1);
      CommaHere(bytes, n - 1);
      var c, plain := ParseCommented(bytes, n - 1).value, Parse(bytes, n - 1).value.stack;
      if c.inComment {
        CommentOvercounts(bytes, n - 1, plain, c.state.stack);
      } else if c.state.mode.Literal? {
        SameOvercounts(bytes, n - 1, plain, c.state.stack);
      } else {
        ReadOvercounts(bytes, n - 1, plain, c.state.stack);
        if bytes[n - 1] == '#' { PlainByte(bytes, n - 1, plain); }
        SameOvercounts(bytes, n - 1, plain, c.state.stack);
      }
    }
  }

  lemma NothingOvercounts(bytes: string)
    ensures ParseCommented(bytes, 0) == Some(Commented(State(Code, []), false))
    ensures Parse(bytes, 0) == Some(State(Code, []))
    ensures Overcounts(bytes, 0, [], [])
  {
  }

  lemma SameOvercounts(bytes: string, n: nat, plain: seq<Frame>, commented: seq<Frame>)
    requires n < |bytes| && Overcounts(bytes, n, plain, commented) && forall depth :: !CommaAt(bytes, n, depth)
    ensures Overcounts(bytes, n + 1, plain, commented)
  {
    hide CommaAt, CommentComma;
    forall i | 0 <= i < |plain|
      ensures CommentComma(bytes, n + 1, plain[i].pos, i + 1) <==> CommentComma(bytes, n, plain[i].pos, i + 1)
    {
      OneMoreByte(bytes, n, plain[i].pos, i + 1);
    }
  }

  /** If no comment holds a quote or a bracket, the scan is right about text with comments exactly if the cursor
      is in no call's arguments, or no comment directly inside its parentheses holds a comma. */
  lemma CommentsHarmlessIff(source: string, cursor: nat)
    requires cursor <= |source| && ParseCommented(source, cursor).Some? && PlainComments(source, cursor)
    requires ParseCommented(source, cursor).value.state.mode.Code?
    ensures var stack := ParseCommented(source, cursor).value.state.stack;
            Scan(source, cursor, 0, 0, 0, 0) == Enclosing(stack) <==>
            Enclosing(stack).None? || !CommentComma(source, cursor, Top(stack).pos, |stack|)
  {
    hide Scan, Parse, ParseCommented, CommentComma;
    CommentsAreReadAsCode(source, cursor);
    BackwardMeetsForward(source, cursor);
  }

  /** But comments are not opaque to it: after `f(a # b, c` and a newline, the comma in the comment
      counts, where the parser that knows comments has counted none. */
  lemma CommentsAreCounted()
    ensures var s := "f(a # b, c\n";
            && Scan(s, 11, 0, 0, 0, 0) == Some(CallContext(1, 1))
            && ParseCommented(s, 11) == Some(Commented(State(Code, [Frame('(', 1, 0)]), false))
  {
    CommaIsScanned();
    CommaIsCommented();
  }

  lemma CommaIsScanned()
    ensures Scan("f(a # b, c\n", 11, 0, 0, 0, 0) == Some(CallContext(1, 1))
  {
    var s := "f(a # b, c\n";
    assert Scan(s, 7, 0, 0, 0, 1) == Scan(s, 2, 0, 0, 0, 1) by {
      assert Scan(s, 7, 0, 0, 0, 1) == Scan(s, 6, 0, 0, 0, 1) == Scan(s, 5, 0, 0, 0, 1);
      assert Scan(s, 5, 0, 0, 0, 1) == Scan(s, 4, 0, 0, 0, 1) == Scan(s, 3, 0, 0, 0, 1);
    }
    assert Scan(s, 11, 0, 0, 0, 0) == Scan(s, 10, 0, 0, 0, 0) == Scan(s, 9, 0, 0, 0, 0);
    assert Scan(s, 9, 0, 0, 0, 0) == Scan(s, 8, 0, 0, 0, 0) == Scan(s, 7, 0, 0, 0, 1);
  }

  lemma CommaIsCommented()
    ensures ParseCommented("f(a # b, c\n", 11) == Some(Commented(State(Code, [Frame('(', 1, 0)]), false))
  {
    hide Read;
    var s, open := "f(a # b, c\n", [Frame('(', 1, 0)];
    CommaIsRead();
    assert ParseCommented(s, 1) == Some(Commented(State(Code, []), false));
    assert ParseCommented(s, 2) == Some(Commented(State(Code, open), false));
    assert ParseCommented(s, 3) == Some(Commented(State(Code, open), false));
    assert ParseCommented(s, 4) == Some(Commented(State(Code, open), false));
    assert ParseCommented(s, 5) == Some(Commented(State(Code, open), true));
    CommentGoesOn(s, 5, 10);
  }

  lemma CommaIsRead()
    ensures var s, open := "f(a # b, c\n", [Frame('(', 1, 0)];
            && Read(s, 0, []) == Some(State(Code, [])) && Read(s, 1, []) == Some(State(Code, open))
            && Read(s, 2, open) == Some(State(Code, open)) && Read(s, 3, open) == Some(State(Code, open))
  {
    hide Read;
    var s, open := "f(a # b, c\n", [Frame('(', 1, 0)];
    PlainByte(s, 0, []);
    OpeningByte(s, 1);
    PlainByte(s, 2, open);
    PlainByte(s, 3, open);
  }

  lemma PlainByte(bytes: string, at: nat, stack: seq<Frame>)
    requires at < |bytes| && !IsQuote(bytes[at]) && !IsOpening(bytes[at]) && !IsClosing(bytes[at]) && bytes[at] != ','
    ensures Read(bytes, at, stack) == Some(State(Code, stack))
  {
  }

  lemma OpeningByte(bytes: string, at: nat)
    requires at < |bytes| && IsOpening(bytes[at])
    ensures Read(bytes, at, []) == Some(State(Code, [Frame(bytes[at], at, 0)]))
  {
    assert [] + [Frame(bytes[at], at, 0)] == [Frame(bytes[at], at, 0)];
  }

  lemma {:induction false} CommentGoesOn(bytes: string, i: nat, n: nat)
    requires i <= n <= |bytes| && ParseCommented(bytes, i).Some? && ParseCommented(bytes, i).value.inComment
    requires forall j :: i <= j < n ==> bytes[j] != '\n'
    ensures ParseCommented(bytes, n) == ParseCommented(bytes, i)
    decreases n
  {
    hide Read;
    if i < n { CommentGoesOn(bytes, i, n - 1); }
  }
}
