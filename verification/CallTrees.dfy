/** Nested source text by its structure, and what the backward scan of `src/ruxen_ide/src/signature_help.rs`
    finds in it: the call is read off how the text was put together, with no parser in between. */
module CallTrees {
  import opened Common
  import opened SignatureHelp

  datatype Tree =
    | Plain(b: char)
    | Quoted(quote: char, content: string)
    | Round(inner: seq<Tree>)
    | Square(inner: seq<Tree>)
    | Curly(inner: seq<Tree>)

  function ShowTree(t: Tree): string
    decreases t
  {
    match t
    case Plain(b) => [b]
    case Quoted(q, content) => [q] + content + [q]
    case Round(ts) => "(" + Show(ts) + ")"
    case Square(ts) => "[" + Show(ts) + "]"
    case Curly(ts) => "{" + Show(ts) + "}"
  }

  function Show(ts: seq<Tree>): string
    decreases ts
  {
    if ts == [] then "" else ShowTree(ts[0]) + Show(ts[1..])
  }

  /** The inside of a literal: no bare quote of its kind, and every backslash escapes something. */
  predicate IsContent(quote: char, s: string) {
    || s == ""
    || (s[0] == '\\' && |s| >= 2 && IsContent(quote, s[2..]))
    || (s[0] != '\\' && s[0] != quote && IsContent(quote, s[1..]))
  }

  predicate IsWritten(t: Tree)
    decreases t
  {
    match t
    case Plain(b) => b !in "\"'()[]{}\\"
    case Quoted(q, content) => q in "\"'" && IsContent(q, content)
    case Round(ts) => AreWritten(ts)
    case Square(ts) => AreWritten(ts)
    case Curly(ts) => AreWritten(ts)
  }

  predicate AreWritten(ts: seq<Tree>)
    decreases ts
  {
    ts == [] || (IsWritten(ts[0]) && AreWritten(ts[1..]))
  }

  /** The commas between the trees, none of those inside them. */
  function Commas(ts: seq<Tree>): nat {
    if ts == [] then 0 else (if ts[0] == Plain(',') then 1 else 0) + Commas(ts[1..])
  }

  /** Trees, and after them a bracket that is still open. */
  datatype Level = Level(trees: seq<Tree>, open: char)

  function ShowLevels(levels: seq<Level>): string {
    if levels == [] then "" else ShowLevels(ButLast(levels)) + (Show(Last(levels).trees) + [Last(levels).open])
  }

  predicate AreOpen(levels: seq<Level>) {
    forall i :: 0 <= i < |levels| ==> AreWritten(levels[i].trees) && levels[i].open in "([{"
  }

  // ---------------------------------------------------------------------------------------
  // The forward parser reads such text.
  // ---------------------------------------------------------------------------------------

  /** `s` is written at `at`, after something other than a backslash. */
  ghost predicate Stands(bytes: string, at: nat, s: string) {
    at + |s| <= |bytes| && bytes[at..at + |s|] == s && (at == 0 || bytes[at - 1] != '\\')
  }

  function Counted(stack: seq<Frame>, commas: nat): seq<Frame> {
    if stack == [] then [] else Below(stack) + [Top(stack).(commas := Top(stack).commas + commas)]
  }

  ghost predicate Reads(bytes: string, n: nat, stack: seq<Frame>)
    requires n <= |bytes|
  {
    Parse(bytes, n) == Some(State(Code, stack)) && (n == 0 || bytes[n - 1] != '\\')
  }

  lemma {:induction false} ReadsContent(bytes: string, at: nat, quote: char, content: string, stack: seq<Frame>)
    requires at + |content| <= |bytes| && bytes[at..at + |content|] == content && IsContent(quote, content)
    requires Parse(bytes, at) == Some(State(Literal(quote, false), stack)) && quote != '\\'
    ensures Parse(bytes, at + |content|) == Some(State(Literal(quote, false), stack))
    decreases |content|
  {
    if content != "" {
      var n := if content[0] == '\\' then 2 else 1;
      assert content[0] == bytes[at] && (n == 2 ==> content[1] == bytes[at + 1]);
      assert Parse(bytes, at + 1) == Some(State(Literal(quote, n == 2), stack));
      assert Parse(bytes, at + n) == Some(State(Literal(quote, false), stack));
      assert content[n..] == bytes[at + n..at + |content|];
      ReadsContent(bytes, at + n, quote, content[n..], stack);
    }
  }

  /** Where the parts of `a + b` stand. */
  lemma StandsTwice(bytes: string, at: nat, a: string, b: string)
    requires Stands(bytes, at, a + b)
    ensures at + |a| + |b| <= |bytes|
    ensures bytes[at..at + |a|] == a && bytes[at + |a|..at + |a| + |b|] == b
  {
    var ab := a + b;
    assert bytes[at..at + |ab|] == ab && ab[..|a|] == a && ab[|a|..] == b;
  }

  lemma OpensBracket(bytes: string, at: nat, open: char, stack: seq<Frame>)
    requires at < |bytes| && bytes[at] == open && open in "([{" && Reads(bytes, at, stack)
    ensures Reads(bytes, at + 1, stack + [Frame(open, at, 0)])
  {
  }

  lemma {:induction false} ReadsGroup(bytes: string, at: nat, open: char, ts: seq<Tree>, close: char, stack: seq<Frame>)
    requires (open, close) in {('(', ')'), ('[', ']'), ('{', '}')}
    requires AreWritten(ts) && Stands(bytes, at, [open] + Show(ts) + [close]) && Reads(bytes, at, stack)
    ensures Reads(bytes, at + |Show(ts)| + 2, stack)
    decreases ts, 1
  {
    hide Parse, Show, AreWritten;
    var s, inside := Show(ts), stack + [Frame(open, at, 0)];
    assert [open] + s + [close] == [open] + (s + [close]);
    StandsTwice(bytes, at, [open], s + [close]);
    assert bytes[at] == open;
    OpensBracket(bytes, at, open, stack);
    StandsTwice(bytes, at + 1, s, [close]);
    ReadsTrees(bytes, at + 1, ts, inside);
    var n := at + 1 + |s|;
    assert bytes[n] == close;
    ClosesBracket(bytes, n, open, close, inside, Commas(ts), stack);
  }

  lemma ClosesBracket(bytes: string, n: nat, open: char, close: char, inside: seq<Frame>, commas: nat,
                      stack: seq<Frame>)
    requires (open, close) in {('(', ')'), ('[', ']'), ('{', '}')}
    requires n < |bytes| && bytes[n] == close && Reads(bytes, n, Counted(inside, commas))
    requires inside != [] && Below(inside) == stack && Top(inside).kind == open
    ensures Reads(bytes, n + 1, stack)
  {
    assert Below(Counted(inside, commas)) == stack;
  }

  lemma {:induction false} ReadsQuoted(bytes: string, at: nat, quote: char, content: string, stack: seq<Frame>)
    requires quote in "\"'" && IsContent(quote, content)
    requires Stands(bytes, at, [quote] + content + [quote]) && Reads(bytes, at, stack)
    ensures Reads(bytes, at + |content| + 2, stack)
  {
    hide Parse, IsContent;
    assert [quote] + content + [quote] == [quote] + (content + [quote]);
    StandsTwice(bytes, at, [quote], content + [quote]);
    assert bytes[at] == quote;
    OpensLiteral(bytes, at, quote, stack);
    StandsTwice(bytes, at + 1, content, [quote]);
    ReadsContent(bytes, at + 1, quote, content, stack);
    assert bytes[at + 1 + |content|] == quote;
    ClosesLiteral(bytes, at + 1 + |content|, quote, stack);
  }

  lemma OpensLiteral(bytes: string, at: nat, quote: char, stack: seq<Frame>)
    requires quote in "\"'" && at < |bytes| && bytes[at] == quote && Reads(bytes, at, stack)
    ensures Parse(bytes, at + 1) == Some(State(Literal(quote, false), stack))
  {
  }

  lemma ClosesLiteral(bytes: string, at: nat, quote: char, stack: seq<Frame>)
    requires quote in "\"'" && at < |bytes| && bytes[at] == quote
    requires Parse(bytes, at) == Some(State(Literal(quote, false), stack))
    ensures Reads(bytes, at + 1, stack)
  {
  }

  lemma ReadsPlain(bytes: string, at: nat, b: char, stack: seq<Frame>)
    requires b !in "\"'()[]{}\\" && at < |bytes| && bytes[at] == b && Reads(bytes, at, stack)
    ensures Reads(bytes, at + 1, Counted(stack, if b == ',' then 1 else 0))
  {
    if stack != [] { assert Below(stack) + [Top(stack)] == stack; }
  }

  /** The parser comes out of a tree where it went in. */
  lemma {:induction false} ReadsTree(bytes: string, at: nat, t: Tree, stack: seq<Frame>)
    requires IsWritten(t) && Stands(bytes, at, ShowTree(t)) && Reads(bytes, at, stack)
    ensures Reads(bytes, at + |ShowTree(t)|, Counted(stack, if t == Plain(',') then 1 else 0))
    decreases t, 0
  {
    hide Reads, Stands, Show, AreWritten;
    CountedNone(stack);
    match t
    case Plain(b) =>
      PlainStands(bytes, at, b);
      ReadsPlain(bytes, at, b, stack);
    case Quoted(q, content) => ReadsQuoted(bytes, at, q, content, stack);
    case Round(ts) => ReadsGroup(bytes, at, '(', ts, ')', stack);
    case Square(ts) => ReadsGroup(bytes, at, '[', ts, ']', stack);
    case Curly(ts) => ReadsGroup(bytes, at, '{', ts, '}', stack);
  }

  lemma CountedNone(stack: seq<Frame>)
    ensures Counted(stack, 0) == stack
  {
    if stack != [] { assert Below(stack) + [Top(stack)] == stack; }
  }

  lemma PlainStands(bytes: string, at: nat, b: char)
    requires Stands(bytes, at, [b])
    ensures at < |bytes| && bytes[at] == b
  {
  }

  lemma {:induction false} ReadsTrees(bytes: string, at: nat, ts: seq<Tree>, stack: seq<Frame>)
    requires AreWritten(ts) && at + |Show(ts)| <= |bytes| && bytes[at..at + |Show(ts)|] == Show(ts)
    requires Reads(bytes, at, stack)
    ensures Reads(bytes, at + |Show(ts)|, Counted(stack, Commas(ts)))
    decreases ts, 0
  {
    hide Reads, Stands, ShowTree, IsWritten, Counted;
    CountedNone(stack);
    if ts != [] {
      var a, b := ShowTree(ts[0]), Show(ts[1..]);
      var one := if ts[0] == Plain(',') then 1 else 0;
      StandsThere(bytes, at, a, b, stack);
      ReadsTree(bytes, at, ts[0], stack);
      ReadsTrees(bytes, at + |a|, ts[1..], Counted(stack, one));
      CountedTwice(stack, one, Commas(ts[1..]));
    }
  }

  /** What is written where the parser is in code stands there. */
  lemma StandsThere(bytes: string, at: nat, a: string, b: string, stack: seq<Frame>)
    requires at + |a + b| <= |bytes| && bytes[at..at + |a + b|] == a + b && Reads(bytes, at, stack)
    ensures at + |a| + |b| <= |bytes| && Stands(bytes, at, a) && bytes[at + |a|..at + |a| + |b|] == b
  {
    StandsTwice(bytes, at, a, b);
  }

  lemma CountedTwice(stack: seq<Frame>, a: nat, b: nat)
    ensures Counted(Counted(stack, a), b) == Counted(stack, a + b)
  {
  }

  // ---------------------------------------------------------------------------------------
  // So the scan finds the call.
  // ---------------------------------------------------------------------------------------

  lemma {:induction false} ReadsLevels(bytes: string, levels: seq<Level>) returns (stack: seq<Frame>)
    requires AreOpen(levels) && ShowLevels(levels) <= bytes
    ensures Reads(bytes, |ShowLevels(levels)|, stack)
    ensures levels == [] ==> stack == []
    ensures levels != [] ==>
              |ShowLevels(levels)| > 0 && stack != []
              && Top(stack) == Frame(Last(levels).open, |ShowLevels(levels)| - 1, 0)
  {
    stack := [];
    if levels != [] {
      hide Parse, Show, AreWritten;
      var front, l := ButLast(levels), Last(levels);
      var head, s := ShowLevels(front), Show(l.trees);
      assert bytes[..|head|] == head && bytes[|head|..|head| + |s|] == s && bytes[|head| + |s|] == l.open;
      var below := ReadsLevels(bytes, front);
      ReadsTrees(bytes, |head|, l.trees, below);
      var counted := Counted(below, Commas(l.trees));
      OpensBracket(bytes, |head| + |s|, l.open, counted);
      stack := counted + [Frame(l.open, |head| + |s|, 0)];
    }
  }

  /** With the cursor after any number of open brackets and any nested text after the last of them, whatever comes
      behind it, the scan gives that bracket and the commas on its level, if it is a parenthesis; and nothing
      otherwise. */
  lemma ScanFindsTheCall(levels: seq<Level>, args: seq<Tree>, after: string)
    requires AreOpen(levels) && AreWritten(args)
    ensures var before, here := ShowLevels(levels), ShowLevels(levels) + Show(args);
            Scan(here + after, |here|, 0, 0, 0, 0) ==
            if levels != [] && Last(levels).open == '(' then Some(CallContext(|before| - 1, Commas(args))) else None
  {
    hide Parse, Scan, Show, AreWritten, ShowLevels;
    var before, here := ShowLevels(levels), ShowLevels(levels) + Show(args);
    var text := here + after;
    assert text[..|before|] == before && text[|before|..|here|] == Show(args);
    var stack := ReadsLevels(text, levels);
    ReadsTrees(text, |before|, args, stack);
    BackwardMeetsForward(text, |here|);
  }
}
