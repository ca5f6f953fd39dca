/** Big-step semantics of the input fragment: variables live in cells, closures hold the cells of
    the variables they capture. */
module ReplSemantics {
  import opened Common
  import opened ReplSyntax

  type Env = map<string, nat>

  datatype Value =
    | IntV(n: Word)
    | BoolV(b: bool)
    | UnitV
    | ArrV(elems: seq<Word>)
    | CloV(lambda: Lambda, env: Env)

  /** One memory cell, labelled with the name of the variable it was allocated for. */
  datatype Cell = Cell(name: string, value: Value)

  type Store = seq<Cell>

  /** How a run ends: normally, through a `return`, or not at all (a type error, an index error,
      or the fuel that bounds loops and closure calls running out). `out` is what was printed. */
  datatype Outcome =
    | Done(value: Value, store: Store, out: seq<Value>)
    | Returned(store: Store, out: seq<Value>)
    | Fail

  predicate SameKind(v: Value, w: Value) {
    || (v.IntV? && w.IntV?)
    || (v.BoolV? && w.BoolV?)
    || (v.UnitV? && w.UnitV?)
    || (v.ArrV? && w.ArrV?)
    || (v.CloV? && w.CloV?)
  }

  /** Cells are never dropped, renamed, or given a value of another kind. */
  ghost predicate Grows(st: Store, st': Store) {
    && |st| <= |st'|
    && forall c :: 0 <= c < |st| ==> st'[c].name == st[c].name && SameKind(st[c].value, st'[c].value)
  }

  /** The result of evaluating a list of operands. */
  datatype Operated =
    | All(values: seq<Value>, store: Store, out: seq<Value>)
    | Stopped(r: Outcome)

  function Prepend(o: seq<Value>, r: Outcome): Outcome {
    match r
    case Done(v, st, o') => Done(v, st, o + o')
    case Returned(st, o') => Returned(st, o + o')
    case Fail => Fail
  }

  /** One operand's result in front of those of the others. */
  function OperatedWith(r: Outcome, m: Operated): Operated
    requires r.Done?
  {
    match m
    case All(vs, st, o) => All([r.value] + vs, st, r.out + o)
    case Stopped(other) => Stopped(Prepend(r.out, other))
  }

  /** Two's complement wrap-around, as the generated machine code does it. */
  function Wrap(x: int): Word {
    (x - MIN_WORD) % 0x1_0000_0000_0000_0000 + MIN_WORD
  }

  function Compute(op: BinOp, v: Value, w: Value): Option<Value> {
    if v.IntV? && w.IntV? then
      match op
      case Add => Some(IntV(Wrap(v.n + w.n)))
      case Sub => Some(IntV(Wrap(v.n - w.n)))
      case Mul => Some(IntV(Wrap(v.n * w.n)))
      case Less => Some(BoolV(v.n < w.n))
      case Equal => Some(BoolV(v.n == w.n))
    else None
  }

  function Upto(lo: Word, hi: Word): seq<Word>
    decreases if lo < hi then hi - lo else 0
  {
    if lo < hi then [lo] + Upto(lo + 1, hi) else []
  }

  /** Wrapping gives the one word that differs from the number by a multiple of 2^64. */
  lemma WrapIs(x: int, w: Word)
    ensures w == Wrap(x) <==> (x - w) % 0x1_0000_0000_0000_0000 == 0
  {
  }

  lemma WrapAgain(x: int, y: int)
    ensures Wrap(Wrap(x) + y) == Wrap(x + y)
  {
    WrapIs(x, Wrap(x));
    WrapIs(x + y, Wrap(Wrap(x) + y));
    WrapIs(Wrap(x) + y, Wrap(Wrap(x) + y));
  }

  lemma WordsWrapToThemselves(a: Word)
    ensures Wrap(a) == a
  {
    WrapIs(a, a);
  }

  /** What the operators do, by how they relate: adding one is the next word, and the others are made of that. */
  lemma AdditionLaws(a: Word, b: Word)
    ensures Compute(Add, IntV(a), IntV(0)) == Some(IntV(a))
    ensures Compute(Add, IntV(a), IntV(1)) == Some(IntV(if a == MAX_WORD then MIN_WORD else a + 1))
    ensures b < MAX_WORD ==>
              Compute(Add, IntV(a), IntV(b + 1)) == Compute(Add, Compute(Add, IntV(a), IntV(b)).value, IntV(1))
    ensures Compute(Sub, Compute(Add, IntV(a), IntV(b)).value, IntV(b)) == Some(IntV(a))
  {
    hide Wrap;
    WordsWrapToThemselves(a);
    WrapIs(a + 1, if a == MAX_WORD then MIN_WORD else a + 1);
    WrapAgain(a + b, 1);
    var back: int := 0 - b;
    WrapAgain(a + b, back);
  }

  lemma MultiplicationLaws(a: Word, b: Word)
    ensures Compute(Mul, IntV(a), IntV(0)) == Some(IntV(0))
    ensures b < MAX_WORD ==>
              Compute(Mul, IntV(a), IntV(b + 1)) == Compute(Add, Compute(Mul, IntV(a), IntV(b)).value, IntV(a))
  {
    hide Wrap;
    WordsWrapToThemselves(0);
    WrapAgain(a * b, a);
    assert a * (b + 1) == a * b + a;
  }

  lemma ComparisonLaws(a: Word, b: Word)
    ensures Compute(Equal, IntV(a), IntV(b)) == Some(BoolV(a == b))
    ensures Compute(Less, IntV(a), IntV(b)) == Some(BoolV(Upto(a, b) != []))
  {
  }

  lemma {:induction false} UptoIs(lo: Word, hi: Word)
    ensures |Upto(lo, hi)| == (if lo < hi then hi - lo else 0)
    ensures forall i :: 0 <= i < |Upto(lo, hi)| ==> Upto(lo, hi)[i] == lo + i
    decreases if lo < hi then hi - lo else 0
  {
    if lo < hi { UptoIs(lo + 1, hi); }
  }

  function Alloc(st: Store, x: string, v: Value): Store {
    st + [Cell(x, v)]
  }

  /** `x` is in scope and leads to a cell that was allocated for it. */
  predicate Bound(x: string, env: Env, st: Store) {
    x in env && env[x] < |st| && st[env[x]].name == x
  }

  /** Overwrite a variable, if it is bound and the new value is of the same kind. */
  function Put(x: string, v: Value, env: Env, st: Store): (r: Outcome) {
    if Bound(x, env, st) && SameKind(st[env[x]].value, v) then
      Done(UnitV, st[env[x] := Cell(x, v)], [])
    else Fail
  }

  /** `push` and `remove` on an array held by a variable. */
  function CallOnArray(m: Method, x: string, k: Word, env: Env, st: Store): (r: Outcome) {
    if Bound(x, env, st) && st[env[x]].value.ArrV? then
      var a := st[env[x]].value.elems;
      match m
      case Push => Put(x, ArrV(a + [k]), env, st)
      case RemoveAt =>
        if 0 <= k < |a| then
          Done(IntV(a[k]), st[env[x] := Cell(x, ArrV(a[..k] + a[k + 1..]))], [])
        else Fail
      case Each => Fail
    else Fail
  }

  function Capture(l: Lambda, env: Env): Env {
    map x | x in env && Captures(l, x) :: env[x]
  }

  /** The environment after a statement: a `let` binds the newest cell. */
  function EnvAfter(s: Stmt, env: Env, st: Store): Env {
    if s.Let? && st != [] then env[s.name := |st| - 1] else env
  }

  /** The action of a form that runs no statements. */
  function Act(e: Expr, vs: seq<Value>, env: Env, st: Store, quiet: bool): (r: Outcome)
    requires |vs| == |Operands(e)|
    ensures !r.Fail? ==> Grows(st, r.store) && (quiet ==> r.out == [])
  {
    match e
    case IntLit(n) => Done(IntV(n), st, [])
    case BoolLit(b) => Done(BoolV(b), st, [])
    case UnitLit => Done(UnitV, st, [])
    case EmptyArray => Done(ArrV([]), st, [])
    case Range(lo, hi) => Done(ArrV(Upto(lo, hi)), st, [])
    case Ident(x) => if Bound(x, env, st) then Done(st[env[x]].value, st, []) else Fail
    case Closure(l) => Done(CloV(l, Capture(l, env)), st, [])
    case Return => Returned(st, [])
    case Binary(op, _, _) =>
      var u := Compute(op, vs[0], vs[1]);
      if u.Some? then Done(u.value, st, []) else Fail
    case Len(_) => if vs[0].ArrV? then Done(IntV(Wrap(|vs[0].elems|)), st, []) else Fail
    case Assign(x, _) => Put(x, vs[0], env, st)
    case CompoundAssign(x, op, _) =>
      if !Bound(x, env, st) then Fail else
      var u := Compute(op, st[env[x]].value, vs[0]);
      if u.Some? then Put(x, u.value, env, st) else Fail
    case MethodCall(o, m, _, _) =>
      if o.Ident? && vs[1].IntV? then CallOnArray(m, o.name, vs[1].n, env, st) else Fail
    case Puts(_) => if vs[0].CloV? then Fail else Done(UnitV, st, if quiet then [] else [vs[0]])
    case _ => Fail
  }

  /** Operands first, left to right, then the form's own action. With `quiet`, nothing prints. */
  function Eval(e: Expr, env: Env, st: Store, quiet: bool, fuel: nat): (r: Outcome)
    ensures !r.Fail? ==> Grows(st, r.store) && (quiet ==> r.out == [])
    decreases fuel, e, 3
  {
    match EvalAll(e, 0, env, st, quiet, fuel)
    case All(vs, st1, o1) => Prepend(o1, Apply(e, vs, env, st1, quiet, fuel))
    case Stopped(r) => r
  }

  /** The operands of `e` from the `i`-th on. */
  function EvalAll(e: Expr, i: nat, env: Env, st: Store, quiet: bool, fuel: nat): (m: Operated)
    requires i <= |Operands(e)|
    ensures m.All? ==> |m.values| == |Operands(e)| - i && Grows(st, m.store) && (quiet ==> m.out == [])
    ensures m.Stopped? ==> !m.r.Done?
    ensures m.Stopped? && !m.r.Fail? ==> Grows(st, m.r.store) && (quiet ==> m.r.out == [])
    decreases fuel, e, 1, |Operands(e)| - i
  {
    if i == |Operands(e)| then All([], st, [])
    else
      match Eval(Operands(e)[i], env, st, quiet, fuel)
      case Done(v, st1, o1) =>
        (match EvalAll(e, i + 1, env, st1, quiet, fuel)
         case All(vs, st2, o2) => All([v] + vs, st2, o1 + o2)
         case Stopped(r) => Stopped(Prepend(o1, r)))
      case Returned(st1, o1) => Stopped(Returned(st1, o1))
      case Fail => Stopped(Fail)
  }

  function Apply(e: Expr, vs: seq<Value>, env: Env, st: Store, quiet: bool, fuel: nat): (r: Outcome)
    requires |vs| == |Operands(e)|
    ensures !r.Fail? ==> Grows(st, r.store) && (quiet ==> r.out == [])
    decreases fuel, e, 2
  {
    match e
    case If(_, t, f) =>
      if vs[0].BoolV? then ExecBlock(if vs[0].b then t else f, env, st, quiet, fuel) else Fail
    case While(_, b) =>
      if !vs[0].BoolV? then Fail
      else if !vs[0].b then Done(UnitV, st, [])
      else if fuel == 0 then Fail
      else Again(e, b, env, st, quiet, fuel)
    case For(x, _, b) =>
      if vs[0].ArrV? then Iterate(x, vs[0].elems, b, false, env, st, quiet, fuel) else Fail
    case MethodCall(_, Each, _, Some(l)) =>
      if vs[0].ArrV? then Iterate(l.param, vs[0].elems, l.body, true, env, st, quiet, fuel) else Fail
    case Block(b) => ExecBlock(b, env, st, quiet, fuel)
    case Unsafe(b) => ExecBlock(b, env, st, quiet, fuel)
    case ClosureCall(_, _) =>
      if vs[0].CloV? && fuel > 0 then Invoke(vs[0], vs[1], st, quiet, fuel - 1) else Fail
    case _ => Act(e, vs, env, st, quiet)
  }

  /** One more round of the loop `e`, whose body is `b`. */
  function Again(e: Expr, b: seq<Stmt>, env: Env, st: Store, quiet: bool, fuel: nat): (r: Outcome)
    requires fuel > 0
    ensures !r.Fail? ==> Grows(st, r.store) && (quiet ==> r.out == [])
    decreases fuel, b, 1
  {
    match ExecBlock(b, env, st, quiet, fuel)
    case Done(_, st1, o1) => Prepend(o1, Eval(e, env, st1, quiet, fuel - 1))
    case other => other
  }

  /** Calling a closure: a `return` in its body ends the closure only. */
  function Invoke(f: Value, v: Value, st: Store, quiet: bool, fuel: nat): (r: Outcome)
    requires f.CloV?
    ensures !r.Fail? ==> r.Done? && Grows(st, r.store) && (quiet ==> r.out == [])
    decreases fuel, f.lambda.body, 1
  {
    match ExecBlock(f.lambda.body, f.env[f.lambda.param := |st|], Alloc(st, f.lambda.param, v), quiet, fuel)
    case Returned(st2, o) => Done(UnitV, st2, o)
    case other => other
  }

  function ExecStmt(s: Stmt, env: Env, st: Store, quiet: bool, fuel: nat): (r: Outcome)
    ensures !r.Fail? ==> Grows(st, r.store) && (quiet ==> r.out == [])
    decreases fuel, s, 0
  {
    match Eval(Code(s), env, st, quiet, fuel)
    case Done(v, st1, o) =>
      if s.Let? then Done(UnitV, Alloc(st1, s.name, v), o) else Done(v, st1, o)
    case other => other
  }

  /** A statement list; its value is that of a final expression statement. */
  function ExecBlock(ss: seq<Stmt>, env: Env, st: Store, quiet: bool, fuel: nat): (r: Outcome)
    ensures !r.Fail? ==> Grows(st, r.store) && (quiet ==> r.out == [])
    decreases fuel, ss, 0
  {
    if ss == [] then Done(UnitV, st, [])
    else
      match ExecStmt(ss[0], env, st, quiet, fuel)
      case Done(v, st1, o1) =>
        if |ss| == 1 then Done(v, st1, o1)
        else Prepend(o1, ExecBlock(ss[1..], EnvAfter(ss[0], env, st1), st1, quiet, fuel))
      case other => other
  }

  /** A `for` loop, or an iterator method running its trailing block (`asLambda`), over `elems`. */
  function Iterate(x: string, elems: seq<Word>, body: seq<Stmt>, asLambda: bool,
                   env: Env, st: Store, quiet: bool, fuel: nat): (r: Outcome)
    ensures !r.Fail? ==> Grows(st, r.store) && (quiet ==> r.out == [])
    decreases fuel, body, |elems| + 1
  {
    if elems == [] then Done(UnitV, st, [])
    else
      match ExecBlock(body, env[x := |st|], Alloc(st, x, IntV(elems[0])), quiet, fuel)
      case Fail => Fail
      case Returned(st1, o1) =>
        if asLambda then Prepend(o1, Iterate(x, elems[1..], body, asLambda, env, st1, quiet, fuel))
        else Returned(st1, o1)
      case Done(_, st1, o1) => Prepend(o1, Iterate(x, elems[1..], body, asLambda, env, st1, quiet, fuel))
  }
}
