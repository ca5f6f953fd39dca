/** The fragment of the language that REPL inputs are written in, and the syntactic walkers the
    REPL runs over its recorded history (`src/ruxen_repl/src/eval.rs`). */
module ReplSyntax {
  import opened Common

  const MIN_WORD: int := -0x8000_0000_0000_0000
  const MAX_WORD: int := 0x7FFF_FFFF_FFFF_FFFF

  /** The language's `Int`: a 64-bit two's complement word, which is also what a slot holds. */
  type Word = x: int | MIN_WORD <= x <= MAX_WORD

  datatype BinOp = Add | Sub | Mul | Less | Equal

  datatype Method = Push | RemoveAt | Each

  datatype Lambda = Lambda(param: string, body: seq<Stmt>)

  datatype Expr =
    | IntLit(n: Word)
    | BoolLit(b: bool)
    | UnitLit
    | EmptyArray
    | Range(lo: Word, hi: Word)
    | Ident(name: string)
    | Binary(op: BinOp, left: Expr, right: Expr)
    | Len(receiver: Expr)
    | Assign(target: string, value: Expr)
    | CompoundAssign(target: string, op: BinOp, value: Expr)
    | MethodCall(receiver: Expr, call: Method, arg: Expr, trailing: Option<Lambda>)
    | ClosureCall(callee: Expr, arg: Expr)
    | Puts(arg: Expr)
    | If(cond: Expr, thenBody: seq<Stmt>, elseBody: seq<Stmt>)
    | While(cond: Expr, body: seq<Stmt>)
    | For(x: string, iterable: Expr, body: seq<Stmt>)
    | Block(body: seq<Stmt>)
    | Unsafe(body: seq<Stmt>)
    | Closure(lambda: Lambda)
    | Return

  datatype Stmt =
    | Let(mutable: bool, name: string, e: Expr)
    | Expression(e: Expr)

  /** The code a statement runs: the right-hand side, or the expression itself. */
  function Code(s: Stmt): (e: Expr)
    ensures e == s.e && e < s
  {
    match s
    case Let(_, _, e) => e
    case Expression(e) => e
  }

  // ---------------------------------------------------------------------------------------
  // The REPL's own walkers, arm for arm.
  // ---------------------------------------------------------------------------------------

  /** `replay_region_mutates_slot`, expression part: does `e` name `x` as an assignment target?
      Closure bodies and trailing blocks are entered; `unsafe` blocks, which stand here for every
      form the walker answers "no" for without looking inside, are not. */
  predicate MutatesSlot(e: Expr, x: string)
    decreases e
  {
    match e
    case Assign(t, v) => t == x || MutatesSlot(v, x)
    case CompoundAssign(t, _, v) => t == x || MutatesSlot(v, x)
    case Binary(_, l, r) => MutatesSlot(l, x) || MutatesSlot(r, x)
    case Len(o) => MutatesSlot(o, x)
    case MethodCall(o, _, a, block) =>
      || MutatesSlot(o, x)
      || MutatesSlot(a, x)
      || (block.Some? && BlockMutatesSlot(block.value.body, x))
    case ClosureCall(c, a) => MutatesSlot(c, x) || MutatesSlot(a, x)
    case Puts(a) => MutatesSlot(a, x)
    case If(c, t, f) => MutatesSlot(c, x) || BlockMutatesSlot(t, x) || BlockMutatesSlot(f, x)
    case While(c, b) => MutatesSlot(c, x) || BlockMutatesSlot(b, x)
    case For(_, it, b) => MutatesSlot(it, x) || BlockMutatesSlot(b, x)
    case Block(b) => BlockMutatesSlot(b, x)
    case Closure(l) => BlockMutatesSlot(l.body, x)
    case _ => false
  }

  /** `replay_region_mutates_slot` on a statement list. */
  predicate BlockMutatesSlot(ss: seq<Stmt>, x: string)
    decreases ss
  {
    ss != [] && (MutatesSlot(Code(ss[0]), x) || BlockMutatesSlot(ss[1..], x))
  }

  /** The variable a receiver chain starts from, if it starts from one. */
  function ReceiverRoot(e: Expr): Option<string> {
    match e
    case Ident(x) => Some(x)
    case Len(o) => ReceiverRoot(o)
    case MethodCall(o, _, _, _) => ReceiverRoot(o)
    case _ => None
  }

  /** `rhs_mutates_session_var`: does `e` contain a method call rooted at a session variable? */
  predicate RhsMutates(e: Expr, names: set<string>) {
    match e
    case MethodCall(o, _, a, _) =>
      || (ReceiverRoot(o).Some? && ReceiverRoot(o).value in names)
      || RhsMutates(o, names)
      || RhsMutates(a, names)
    case ClosureCall(c, a) => RhsMutates(c, names) || RhsMutates(a, names)
    case Puts(a) => RhsMutates(a, names)
    case Len(o) => RhsMutates(o, names)
    case Binary(_, l, r) => RhsMutates(l, names) || RhsMutates(r, names)
    case _ => false
  }

  /** `rewrite_for_replay`: what is left of a recorded statement when it is replayed. */
  function RewriteForReplay(s: Stmt, slotNames: set<string>, varNames: set<string>): Option<Stmt> {
    match s
    case Let(_, x, rhs) =>
      if x !in slotNames then Some(s)
      else if RhsMutates(rhs, varNames) then Some(Expression(rhs))
      else None
    case Expression(Assign(x, _)) => if x in slotNames then None else Some(s)
    case Expression(CompoundAssign(x, _, _)) => if x in slotNames then None else Some(s)
    case _ => Some(s)
  }

  /** `is_side_effect_expr`: is an expression input recorded in the history? */
  predicate IsSideEffect(e: Expr) {
    match e
    case Assign(_, _) => true
    case CompoundAssign(_, _, _) => true
    case For(_, _, _) => true
    case While(_, _) => true
    case If(_, _, _) => true
    case Block(_) => true
    case Unsafe(_) => true
    case Puts(_) => true
    case MethodCall(_, _, _, _) => true
    case ClosureCall(_, _) => true
    case Len(_) => true
    case _ => false
  }

  /** `expr_contains_return`: a `return` anywhere outside a closure body. */
  predicate ContainsReturn(e: Expr)
    decreases e
  {
    match e
    case Return => true
    case Binary(_, l, r) => ContainsReturn(l) || ContainsReturn(r)
    case Len(o) => ContainsReturn(o)
    case Assign(_, v) => ContainsReturn(v)
    case CompoundAssign(_, _, v) => ContainsReturn(v)
    case MethodCall(o, _, a, _) => ContainsReturn(o) || ContainsReturn(a)
    case ClosureCall(c, a) => ContainsReturn(c) || ContainsReturn(a)
    case Puts(a) => ContainsReturn(a)
    case If(c, t, f) => ContainsReturn(c) || BlockContainsReturn(t) || BlockContainsReturn(f)
    case While(c, b) => ContainsReturn(c) || BlockContainsReturn(b)
    case For(_, it, b) => ContainsReturn(it) || BlockContainsReturn(b)
    case Block(b) => BlockContainsReturn(b)
    case Unsafe(b) => BlockContainsReturn(b)
    case _ => false
  }

  /** `statements_contain_return`. */
  predicate BlockContainsReturn(ss: seq<Stmt>)
    decreases ss
  {
    ss != [] && (ContainsReturn(Code(ss[0])) || BlockContainsReturn(ss[1..]))
  }

  // ---------------------------------------------------------------------------------------
  // The shape of an expression, and syntactic notions defined along it.
  // ---------------------------------------------------------------------------------------

  /** The subexpressions evaluated, left to right, before `e` itself acts. */
  function Operands(e: Expr): (es: seq<Expr>)
    ensures forall i :: 0 <= i < |es| ==> es[i] < e
  {
    match e
    case Binary(_, l, r) => [l, r]
    case Len(o) => [o]
    case Assign(_, v) => [v]
    case CompoundAssign(_, _, v) => [v]
    case MethodCall(o, _, a, _) => [o, a]
    case ClosureCall(c, a) => [c, a]
    case Puts(a) => [a]
    case If(c, _, _) => [c]
    case While(c, _) => [c]
    case For(_, it, _) => [it]
    case _ => []
  }

  /** The statement lists `e` may run as its action. A closure's body is not one of them. */
  function Bodies(e: Expr): (bs: seq<seq<Stmt>>)
    ensures forall i :: 0 <= i < |bs| ==> (e decreases to bs[i])
  {
    match e
    case MethodCall(_, _, _, Some(l)) => [l.body]
    case If(_, t, f) => [t, f]
    case While(_, b) => [b]
    case For(_, _, b) => [b]
    case Block(b) => [b]
    case Unsafe(b) => [b]
    case _ => []
  }

  /** The variable `e` binds in its bodies. */
  function Binder(e: Expr): Option<string> {
    match e
    case MethodCall(_, _, _, Some(l)) => Some(l.param)
    case For(x, _, _) => Some(x)
    case _ => None
  }

  /** How far each of the walkers looks: for a `return`, for an assignment, for a method call. */
  datatype Scan = Returns | Slots | Calls

  predicate LooksAtOperands(scan: Scan, e: Expr) {
    scan.Calls? ==> e.MethodCall? || e.ClosureCall? || e.Puts? || e.Len? || e.Binary?
  }

  /** A trailing block is a closure: a `return` in it ends only that. */
  predicate LooksAtBodies(scan: Scan, e: Expr) {
    match scan
    case Returns => !e.MethodCall?
    case Slots => !e.Unsafe?
    case Calls => false
  }

  /** `f` is `e`, or is written in it where the walker looks. */
  ghost predicate Reaches(scan: Scan, e: Expr, f: Expr)
    decreases e
  {
    || e == f
    || (LooksAtOperands(scan, e) && exists i :: 0 <= i < |Operands(e)| && Reaches(scan, Operands(e)[i], f))
    || (LooksAtBodies(scan, e) && exists i :: 0 <= i < |Bodies(e)| && BlockReaches(scan, Bodies(e)[i], f))
    || (scan.Slots? && e.Closure? && BlockReaches(scan, e.lambda.body, f))
  }

  ghost predicate BlockReaches(scan: Scan, ss: seq<Stmt>, f: Expr)
    decreases ss
  {
    exists i :: 0 <= i < |ss| && Reaches(scan, Code(ss[i]), f)
  }

  /** Following receivers from `e` leads to the variable `x`. */
  ghost predicate RootedAt(e: Expr, x: string) {
    e == Ident(x) || ((e.Len? || e.MethodCall?) && RootedAt(e.receiver, x))
  }

  /** Ways of touching a variable: assigning it; assigning it or mutating it through a method; that,
      or calling a stored closure, whatever it does; declaring a nested variable of the same name. */
  datatype Touch = Assigning | Mutating | Calling | Declaring

  /** `e` itself, when run, touches `x`. */
  predicate WritesHere(e: Expr, x: string, t: Touch) {
    if t.Declaring? then Binder(e) == Some(x)
    else
      || (e.Assign? && e.target == x)
      || (e.CompoundAssign? && e.target == x)
      || (!t.Assigning? && e.MethodCall? && !e.call.Each? && e.receiver == Ident(x))
      || (t.Calling? && e.ClosureCall?)
  }

  /** Running `e`, or a closure built by `e`, may touch a variable called `x`. Nothing is opaque. */
  predicate Writes(e: Expr, x: string, t: Touch)
    decreases e
  {
    || WritesHere(e, x, t)
    || (e.Closure? && LambdaWrites(e.lambda, x, t))
    || (exists i :: 0 <= i < |Operands(e)| && Writes(Operands(e)[i], x, t))
    || (exists i :: 0 <= i < |Bodies(e)| && BlockWrites(Bodies(e)[i], x, t))
  }

  predicate BlockWrites(ss: seq<Stmt>, x: string, t: Touch)
    decreases ss
  {
    && ss != []
    && (|| (t.Declaring? && ss[0].Let? && ss[0].name == x)
        || Writes(Code(ss[0]), x, t)
        || BlockWrites(ss[1..], x, t))
  }

  predicate LambdaWrites(l: Lambda, x: string, t: Touch) {
    (t.Declaring? && l.param == x) || BlockWrites(l.body, x, t)
  }

  /** `x` occurs free in `e`. */
  predicate Occurs(e: Expr, x: string)
    decreases e
  {
    || e == Ident(x)
    || (e.Assign? && e.target == x)
    || (e.CompoundAssign? && e.target == x)
    || (e.Closure? && e.lambda.param != x && BlockOccurs(e.lambda.body, x))
    || (exists i :: 0 <= i < |Operands(e)| && Occurs(Operands(e)[i], x))
    || (Binder(e) != Some(x) && exists i :: 0 <= i < |Bodies(e)| && BlockOccurs(Bodies(e)[i], x))
  }

  predicate BlockOccurs(ss: seq<Stmt>, x: string)
    decreases ss
  {
    && ss != []
    && (|| Occurs(Code(ss[0]), x)
        || (!(ss[0].Let? && ss[0].name == x) && BlockOccurs(ss[1..], x)))
  }

  /** A closure captures the variables that occur free in it. */
  predicate Captures(l: Lambda, x: string) {
    l.param != x && BlockOccurs(l.body, x)
  }

  /** `l` is a closure literal in `e`, at any depth. */
  predicate IsLit(l: Lambda, e: Expr)
    decreases e
  {
    || (e.Closure? && (e.lambda == l || BlockHasLit(l, e.lambda.body)))
    || (exists i :: 0 <= i < |Operands(e)| && IsLit(l, Operands(e)[i]))
    || (exists i :: 0 <= i < |Bodies(e)| && BlockHasLit(l, Bodies(e)[i]))
  }

  predicate BlockHasLit(l: Lambda, ss: seq<Stmt>)
    decreases ss
  {
    ss != [] && (IsLit(l, Code(ss[0])) || BlockHasLit(l, ss[1..]))
  }

  /** What code run in two states may depend on: the two may differ in the variables `hidden`, their
      closures come from the literals `lits`, and closures are called only if `calls`. */
  datatype Care = Care(hidden: iset<string>, lits: iset<Lambda>, calls: bool)

  /** While it runs, `e` reads no hidden variable, except to update that same variable, and calls a
      closure only if that is allowed. Building a closure that mentions a hidden variable always is. */
  ghost predicate Stable(e: Expr, care: Care)
    decreases e
  {
    && (e.Ident? ==> e.name !in care.hidden)
    && (e.Closure? ==> e.lambda in care.lits)
    && (e.ClosureCall? ==> care.calls)
    && (forall i :: 0 <= i < |Operands(e)| ==> Stable(Operands(e)[i], care))
    && (forall i :: 0 <= i < |Bodies(e)| ==> BlockStable(Bodies(e)[i], care))
  }

  ghost predicate BlockStable(ss: seq<Stmt>, care: Care)
    decreases ss
  {
    ss == [] || (Stable(Code(ss[0]), care) && BlockStable(ss[1..], care))
  }

  /** The closures that may be called are themselves stable. */
  ghost predicate Calm(care: Care) {
    care.calls ==> forall l :: l in care.lits ==> BlockStable(l.body, care)
  }

  /** Nothing is hidden and everything is allowed. */
  ghost function Careless(): Care {
    Care(iset{}, iset l: Lambda | l.Lambda?, true)
  }

  /** No form anywhere in `e` that `MutatesSlot` refuses to look into. */
  predicate Walkable(e: Expr)
    decreases e
  {
    && !e.Unsafe?
    && (e.Closure? ==> BlockWalkable(e.lambda.body))
    && (forall i :: 0 <= i < |Operands(e)| ==> Walkable(Operands(e)[i]))
    && (forall i :: 0 <= i < |Bodies(e)| ==> BlockWalkable(Bodies(e)[i]))
  }

  predicate BlockWalkable(ss: seq<Stmt>)
    decreases ss
  {
    ss == [] || (Walkable(Code(ss[0])) && BlockWalkable(ss[1..]))
  }

  /** The walker looks at `e`'s own target, its operands, its bodies and a closure's body. */
  lemma WalkerUnfolds(e: Expr, x: string)
    ensures MutatesSlot(e, x) <==>
            || WritesHere(e, x, Assigning)
            || (e.Closure? && BlockMutatesSlot(e.lambda.body, x))
            || (exists i :: 0 <= i < |Operands(e)| && MutatesSlot(Operands(e)[i], x))
            || (!e.Unsafe? && exists i :: 0 <= i < |Bodies(e)| && BlockMutatesSlot(Bodies(e)[i], x))
  {
    if |Operands(e)| > 0 { var o := Operands(e)[0]; }
    if |Operands(e)| > 1 { var o := Operands(e)[1]; }
    if |Bodies(e)| > 0 { var b := Bodies(e)[0]; }
    if |Bodies(e)| > 1 { var b := Bodies(e)[1]; }
  }

  /** Where nothing is opaque to it, the walker answers "yes" exactly when there is an assignment. */
  lemma {:induction false} WalkerFindsAssignments(e: Expr, x: string)
    requires Walkable(e)
    ensures MutatesSlot(e, x) <==> Writes(e, x, Assigning)
    decreases e
  {
    WalkerUnfolds(e, x);
    forall i | 0 <= i < |Operands(e)| { WalkerFindsAssignments(Operands(e)[i], x); }
    forall i | 0 <= i < |Bodies(e)| { WalkerFindsAssignmentsInBlock(Bodies(e)[i], x); }
    if e.Closure? { WalkerFindsAssignmentsInBlock(e.lambda.body, x); }
  }

  lemma {:induction false} WalkerFindsAssignmentsInBlock(ss: seq<Stmt>, x: string)
    requires BlockWalkable(ss)
    ensures BlockMutatesSlot(ss, x) <==> BlockWrites(ss, x, Assigning)
    decreases ss
  {
    if ss != [] {
      WalkerFindsAssignments(Code(ss[0]), x);
      WalkerFindsAssignmentsInBlock(ss[1..], x);
    }
  }

  /** Whether or not anything is opaque to it: it says "yes" exactly when an assignment is where it looks. */
  ghost predicate AssignsInSight(e: Expr, x: string) {
    exists f :: Reaches(Slots, e, f) && WritesHere(f, x, Assigning)
  }

  ghost predicate BlockAssignsInSight(ss: seq<Stmt>, x: string) {
    exists f :: BlockReaches(Slots, ss, f) && WritesHere(f, x, Assigning)
  }

  lemma {:induction false} WalkerFindsWhatItReaches(e: Expr, x: string)
    ensures MutatesSlot(e, x) <==> AssignsInSight(e, x)
    decreases e
  {
    hide MutatesSlot, BlockMutatesSlot, WritesHere, Operands, Bodies, BlockReaches;
    WalkerUnfolds(e, x);
    forall i | 0 <= i < |Operands(e)| { WalkerFindsWhatItReaches(Operands(e)[i], x); }
    forall i | 0 <= i < |Bodies(e)| { WalkerFindsWhatItReachesInBlock(Bodies(e)[i], x); }
    if e.Closure? { WalkerFindsWhatItReachesInBlock(e.lambda.body, x); }
  }

  lemma {:induction false} WalkerFindsWhatItReachesInBlock(ss: seq<Stmt>, x: string)
    ensures BlockMutatesSlot(ss, x) <==> BlockAssignsInSight(ss, x)
    decreases ss
  {
    if ss != [] {
      WalkerFindsWhatItReaches(Code(ss[0]), x);
      WalkerFindsWhatItReachesInBlock(ss[1..], x);
    }
  }

  lemma ScanUnfolds(e: Expr)
    ensures ContainsReturn(e) <==>
            || e.Return?
            || (exists i :: 0 <= i < |Operands(e)| && ContainsReturn(Operands(e)[i]))
            || (!e.MethodCall? && exists i :: 0 <= i < |Bodies(e)| && BlockContainsReturn(Bodies(e)[i]))
  {
    if |Operands(e)| > 0 { var o := Operands(e)[0]; }
    if |Operands(e)| > 1 { var o := Operands(e)[1]; }
    if |Bodies(e)| > 0 { var b := Bodies(e)[0]; }
    if |Bodies(e)| > 1 { var b := Bodies(e)[1]; }
  }

  /** The scan for `return` says "yes" exactly when one is written outside closures. */
  lemma {:induction false} ScanFindsReturns(e: Expr)
    ensures ContainsReturn(e) <==> Reaches(Returns, e, Return)
    decreases e
  {
    ScanUnfolds(e);
    forall i | 0 <= i < |Operands(e)| { ScanFindsReturns(Operands(e)[i]); }
    forall i | 0 <= i < |Bodies(e)| { ScanFindsReturnsInBlock(Bodies(e)[i]); }
  }

  lemma {:induction false} ScanFindsReturnsInBlock(ss: seq<Stmt>)
    ensures BlockContainsReturn(ss) <==> BlockReaches(Returns, ss, Return)
    decreases ss
  {
    if ss != [] {
      ScanFindsReturns(Code(ss[0]));
      ScanFindsReturnsInBlock(ss[1..]);
    }
  }

  lemma {:induction false} ReceiversLeadToRoots(e: Expr, x: string)
    ensures ReceiverRoot(e) == Some(x) <==> RootedAt(e, x)
  {
    if e.Len? || e.MethodCall? { ReceiversLeadToRoots(e.receiver, x); }
  }

  /** A method call on something that starts from one of these variables is written where the walker for
      right-hand sides looks. */
  ghost predicate CallsInSight(e: Expr, names: set<string>) {
    exists f :: Reaches(Calls, e, f) && f.MethodCall? && exists x :: x in names && RootedAt(f.receiver, x)
  }

  lemma RhsWalkerUnfolds(e: Expr, names: set<string>)
    ensures RhsMutates(e, names) <==>
            || (e.MethodCall? && ReceiverRoot(e.receiver).Some? && ReceiverRoot(e.receiver).value in names)
            || (LooksAtOperands(Calls, e) && exists i :: 0 <= i < |Operands(e)| && RhsMutates(Operands(e)[i], names))
  {
    if |Operands(e)| > 0 { var o := Operands(e)[0]; }
    if |Operands(e)| > 1 { var o := Operands(e)[1]; }
  }

  lemma RootInNames(e: Expr, names: set<string>)
    ensures ReceiverRoot(e).Some? && ReceiverRoot(e).value in names <==> exists x :: x in names && RootedAt(e, x)
  {
    forall x ensures ReceiverRoot(e) == Some(x) <==> RootedAt(e, x) {
      ReceiversLeadToRoots(e, x);
    }
  }

  /** That walker says "yes" exactly then. */
  lemma {:induction false} RhsWalkerFindsCalls(e: Expr, names: set<string>)
    ensures RhsMutates(e, names) <==> CallsInSight(e, names)
    decreases e
  {
    RhsWalkerUnfolds(e, names);
    forall i | 0 <= i < |Operands(e)| { RhsWalkerFindsCalls(Operands(e)[i], names); }
    if e.MethodCall? { RootInNames(e.receiver, names); }
  }

  /** The statement declares `x` or assigns to it at its top. */
  predicate IsAbout(s: Stmt, x: string) {
    match s
    case Let(_, y, _) => y == x
    case Expression(e) => (e.Assign? || e.CompoundAssign?) && e.target == x
  }

  /** What replaying keeps of a statement: all of one that is not about a slot variable, and of the others the
      right-hand sides of those `let`s that call something on a variable of the session. */
  lemma RewriteKeeps(s: Stmt, slotNames: set<string>, varNames: set<string>)
    ensures RewriteForReplay(s, slotNames, varNames) ==
            if !(exists x :: x in slotNames && IsAbout(s, x)) then Some(s)
            else if s.Let? && CallsInSight(Code(s), varNames) then Some(Expression(Code(s)))
            else None
  {
    hide RhsMutates, CallsInSight;
    RhsWalkerFindsCalls(Code(s), varNames);
    if s.Expression? && (s.e.Assign? || s.e.CompoundAssign?) { assert IsAbout(s, s.e.target); }
    if s.Let? { assert IsAbout(s, s.name); }
  }

  /** The forms that are recorded: those that run statements, assign, print or call, and reading a length, which
      is written like a call. */
  lemma RecordedForms(e: Expr)
    ensures IsSideEffect(e) <==>
            Bodies(e) != [] || e.Assign? || e.CompoundAssign? || e.Puts? || e.MethodCall? || e.ClosureCall? || e.Len?
  {
  }

  /** A closure literal of `e` writes nothing that `e` does not write. */
  lemma {:induction false} LitsWriteLess(l: Lambda, e: Expr, x: string, t: Touch)
    requires IsLit(l, e) && LambdaWrites(l, x, t)
    ensures Writes(e, x, t)
    decreases e
  {
    if i :| 0 <= i < |Operands(e)| && IsLit(l, Operands(e)[i]) {
      LitsWriteLess(l, Operands(e)[i], x, t);
    } else if i :| 0 <= i < |Bodies(e)| && BlockHasLit(l, Bodies(e)[i]) {
      BlockLitsWriteLess(l, Bodies(e)[i], x, t);
    } else if e.lambda != l {
      BlockLitsWriteLess(l, e.lambda.body, x, t);
    }
  }

  lemma {:induction false} BlockLitsWriteLess(l: Lambda, ss: seq<Stmt>, x: string, t: Touch)
    requires BlockHasLit(l, ss) && LambdaWrites(l, x, t)
    ensures BlockWrites(ss, x, t)
    decreases ss
  {
    if IsLit(l, Code(ss[0])) { LitsWriteLess(l, Code(ss[0]), x, t); }
    else { BlockLitsWriteLess(l, ss[1..], x, t); }
  }

  /** The literals inside a literal of `e` are literals of `e`. */
  lemma {:induction false} LitsNest(inner: Lambda, l: Lambda, e: Expr)
    requires IsLit(l, e) && BlockHasLit(inner, l.body)
    ensures IsLit(inner, e)
    decreases e
  {
    if i :| 0 <= i < |Operands(e)| && IsLit(l, Operands(e)[i]) {
      LitsNest(inner, l, Operands(e)[i]);
    } else if i :| 0 <= i < |Bodies(e)| && BlockHasLit(l, Bodies(e)[i]) {
      BlockLitsNest(inner, l, Bodies(e)[i]);
    } else if e.lambda != l {
      BlockLitsNest(inner, l, e.lambda.body);
    }
  }

  lemma {:induction false} BlockLitsNest(inner: Lambda, l: Lambda, ss: seq<Stmt>)
    requires BlockHasLit(l, ss) && BlockHasLit(inner, l.body)
    ensures BlockHasLit(inner, ss)
    decreases ss
  {
    if IsLit(l, Code(ss[0])) { LitsNest(inner, l, Code(ss[0])); }
    else { BlockLitsNest(inner, l, ss[1..]); }
  }

  /** With nothing hidden, every expression is stable. */
  lemma {:induction false} StableForNothing(e: Expr)
    ensures Stable(e, Careless())
    decreases e
  {
    forall i | 0 <= i < |Operands(e)| { StableForNothing(Operands(e)[i]); }
    forall i | 0 <= i < |Bodies(e)| { BlockStableForNothing(Bodies(e)[i]); }
  }

  lemma {:induction false} BlockStableForNothing(ss: seq<Stmt>)
    ensures BlockStable(ss, Careless())
    decreases ss
  {
    if ss != [] {
      StableForNothing(Code(ss[0]));
      BlockStableForNothing(ss[1..]);
    }
  }

  lemma CarelessIsCalm()
    ensures Calm(Careless())
  {
    forall l: Lambda ensures BlockStable(l.body, Careless()) {
      BlockStableForNothing(l.body);
    }
  }

  // ---------------------------------------------------------------------------------------
  // The same notions, passed down to the parts of an expression.
  // ---------------------------------------------------------------------------------------

  lemma WritesParts(e: Expr, x: string, t: Touch)
    requires !Writes(e, x, t)
    ensures !WritesHere(e, x, t)
    ensures e.Closure? ==> !LambdaWrites(e.lambda, x, t)
    ensures forall i :: 0 <= i < |Operands(e)| ==> !Writes(Operands(e)[i], x, t)
    ensures forall i :: 0 <= i < |Bodies(e)| ==> !BlockWrites(Bodies(e)[i], x, t)
  {
  }

  lemma WritesOperand(e: Expr, i: nat, x: string, t: Touch)
    requires !Writes(e, x, t) && i < |Operands(e)|
    ensures !Writes(Operands(e)[i], x, t)
  {
  }

  lemma StableOperand(e: Expr, i: nat, care: Care)
    requires Stable(e, care) && i < |Operands(e)|
    ensures Stable(Operands(e)[i], care)
  {
  }

  lemma StableParts(e: Expr, care: Care)
    requires Stable(e, care)
    ensures forall i :: 0 <= i < |Operands(e)| ==> Stable(Operands(e)[i], care)
    ensures forall i :: 0 <= i < |Bodies(e)| ==> BlockStable(Bodies(e)[i], care)
    ensures e.ClosureCall? ==> care.calls
  {
  }
}
