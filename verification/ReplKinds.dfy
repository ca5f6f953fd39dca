/** Code that type checks and has no way to diverge or to leave early runs to its end, whatever values
    its variables hold. */
module ReplKinds {
  import opened Common
  import opened ReplSyntax
  import opened ReplSemantics

  datatype Kind = IntK | BoolK | UnitK | ArrK | CloK

  function KindOf(v: Value): Kind {
    match v
    case IntV(_) => IntK
    case BoolV(_) => BoolK
    case UnitV => UnitK
    case ArrV(_) => ArrK
    case CloV(_, _) => CloK
  }

  /** The kinds of the variables in scope. */
  type Scope = map<string, Kind>

  predicate IsArithmetic(op: BinOp) {
    op.Add? || op.Sub? || op.Mul?
  }

  /** The kind of `e`, if it checks and has no loop but `for`, no closure call, no `remove`, which can
      fail, and no `return`. */
  function Checks(e: Expr, scope: Scope): (k: Option<Kind>)
    decreases e
  {
    match e
    case IntLit(_) => Some(IntK)
    case BoolLit(_) => Some(BoolK)
    case UnitLit => Some(UnitK)
    case EmptyArray => Some(ArrK)
    case Range(_, _) => Some(ArrK)
    case Closure(_) => Some(CloK)
    case Ident(x) => if x in scope then Some(scope[x]) else None
    case Binary(op, l, r) =>
      if Checks(l, scope) == Some(IntK) && Checks(r, scope) == Some(IntK) then
        Some(if IsArithmetic(op) then IntK else BoolK)
      else None
    case Len(o) => if Checks(o, scope) == Some(ArrK) then Some(IntK) else None
    case Assign(x, v) => if x in scope && Checks(v, scope) == Some(scope[x]) then Some(UnitK) else None
    case CompoundAssign(x, op, v) =>
      if x in scope && scope[x] == IntK && IsArithmetic(op) && Checks(v, scope) == Some(IntK) then Some(UnitK) else None
    case MethodCall(o, Each, a, Some(l)) =>
      if && Checks(o, scope) == Some(ArrK)
         && Checks(a, scope).Some?
         && CheckBlock(l.body, scope[l.param := IntK]).Some?
      then Some(UnitK) else None
    case MethodCall(o, Push, a, _) =>
      if o.Ident? && Checks(o, scope) == Some(ArrK) && Checks(a, scope) == Some(IntK) then Some(UnitK) else None
    case Puts(a) => if Checks(a, scope).Some? && Checks(a, scope) != Some(CloK) then Some(UnitK) else None
    case If(c, t, f) =>
      if Checks(c, scope) == Some(BoolK) && CheckBlock(t, scope) == CheckBlock(f, scope) then CheckBlock(t, scope)
      else None
    case For(x, it, b) =>
      if Checks(it, scope) == Some(ArrK) && CheckBlock(b, scope[x := IntK]).Some? then Some(UnitK) else None
    case Block(b) => CheckBlock(b, scope)
    case Unsafe(b) => CheckBlock(b, scope)
    case _ => None
  }

  function CheckBlock(ss: seq<Stmt>, scope: Scope): (k: Option<Kind>)
    decreases ss
  {
    if ss == [] then Some(UnitK)
    else
      match Checks(Code(ss[0]), scope)
      case None => None
      case Some(k) =>
        if |ss| == 1 then Some(if ss[0].Let? then UnitK else k)
        else CheckBlock(ss[1..], if ss[0].Let? then scope[ss[0].name := k] else scope)
  }

  ghost predicate Fits(scope: Scope, env: Env, st: Store) {
    forall x :: x in scope ==> Bound(x, env, st) && KindOf(st[env[x]].value) == scope[x]
  }

  /** Variables keep their kinds. */
  lemma FitsLater(scope: Scope, env: Env, st: Store, st': Store)
    requires Fits(scope, env, st) && Grows(st, st')
    ensures Fits(scope, env, st')
  {
    forall x | x in scope ensures Bound(x, env, st') && KindOf(st'[env[x]].value) == scope[x] {
      assert Bound(x, env, st);
    }
  }

  lemma FitsBind(scope: Scope, env: Env, st: Store, x: string, v: Value)
    requires Fits(scope, env, st)
    ensures Fits(scope[x := KindOf(v)], env[x := |st|], Alloc(st, x, v))
  {
    forall y | y in scope && y != x ensures Bound(y, env[x := |st|], Alloc(st, x, v)) {
      assert Bound(y, env, st);
    }
  }

  ghost predicate Ends(r: Outcome, k: Kind) {
    r.Done? && KindOf(r.value) == k
  }

  /** The kinds of operands, where they are known. */
  ghost predicate Kinded(e: Expr, i: nat, scope: Scope, vs: seq<Value>)
    requires i <= |Operands(e)| == i + |vs|
  {
    forall j :: 0 <= j < |vs| ==> Checks(Operands(e)[i + j], scope) == Some(KindOf(vs[j]))
  }

  lemma OperandChecks(e: Expr, i: nat, scope: Scope)
    requires Checks(e, scope).Some? && i < |Operands(e)|
    ensures Checks(Operands(e)[i], scope).Some?
  {
  }

  lemma KindedNil(e: Expr, scope: Scope)
    ensures Kinded(e, |Operands(e)|, scope, [])
  {
  }

  lemma KindedCons(e: Expr, i: nat, scope: Scope, v: Value, vs: seq<Value>)
    requires i < |Operands(e)| == i + 1 + |vs| && Kinded(e, i + 1, scope, vs)
    requires Checks(Operands(e)[i], scope) == Some(KindOf(v))
    ensures Kinded(e, i, scope, [v] + vs)
  {
    forall j | 0 <= j < |vs| + 1 ensures Checks(Operands(e)[i + j], scope) == Some(KindOf(([v] + vs)[j])) {
      if j > 0 { assert Operands(e)[i + 1 + (j - 1)] == Operands(e)[i + j]; }
    }
  }

  /** Checked code runs to its end, with a value of its kind. */
  lemma {:induction false} CheckedRuns(e: Expr, scope: Scope, env: Env, st: Store, quiet: bool, fuel: nat)
    requires Checks(e, scope).Some? && Fits(scope, env, st)
    ensures Ends(Eval(e, env, st, quiet, fuel), Checks(e, scope).value)
    decreases fuel, e, 3
  {
    hide Fits, Checks, Grows, Apply, Operands, Kinded;
    CheckedOperands(e, 0, scope, env, st, quiet, fuel);
    var m := EvalAll(e, 0, env, st, quiet, fuel);
    FitsLater(scope, env, st, m.store);
    CheckedApplies(e, m.values, scope, env, m.store, quiet, fuel);
  }

  lemma {:induction false} CheckedOperands(e: Expr, i: nat, scope: Scope, env: Env, st: Store, quiet: bool, fuel: nat)
    requires i <= |Operands(e)| && Checks(e, scope).Some? && Fits(scope, env, st)
    ensures var m := EvalAll(e, i, env, st, quiet, fuel); m.All? && Kinded(e, i, scope, m.values)
    decreases fuel, e, 1, |Operands(e)| - i
  {
    hide Fits, Checks, Grows, Eval, Operands, Kinded;
    KindedNil(e, scope);
    if i < |Operands(e)| {
      OperandChecks(e, i, scope);
      CheckedRuns(Operands(e)[i], scope, env, st, quiet, fuel);
      var r := Eval(Operands(e)[i], env, st, quiet, fuel);
      FitsLater(scope, env, st, r.store);
      CheckedOperands(e, i + 1, scope, env, r.store, quiet, fuel);
      KindedCons(e, i, scope, r.value, EvalAll(e, i + 1, env, r.store, quiet, fuel).values);
    }
  }

  lemma {:induction false} CheckedApplies(e: Expr, vs: seq<Value>, scope: Scope, env: Env, st: Store, quiet: bool,
                                          fuel: nat)
    requires Checks(e, scope).Some? && Fits(scope, env, st)
    requires |vs| == |Operands(e)| && Kinded(e, 0, scope, vs)
    ensures Ends(Apply(e, vs, env, st, quiet, fuel), Checks(e, scope).value)
    decreases fuel, e, 2
  {
    hide Grows, ExecBlock, Iterate, Eval, Fits, CheckBlock;
    match e
    case If(c, t, f) =>
      assert Operands(e)[0 + 0] == c;
      CheckedBlockRuns(if vs[0].b then t else f, scope, env, st, quiet, fuel);
    case For(x, it, b) =>
      assert Operands(e)[0 + 0] == it;
      CheckedIterates(x, vs[0].elems, b, false, scope, env, st, quiet, fuel);
    case MethodCall(o, Each, _, Some(l)) =>
      assert Operands(e)[0 + 0] == o;
      CheckedIterates(l.param, vs[0].elems, l.body, true, scope, env, st, quiet, fuel);
    case Block(b) => CheckedBlockRuns(b, scope, env, st, quiet, fuel);
    case Unsafe(b) => CheckedBlockRuns(b, scope, env, st, quiet, fuel);
    case _ => CheckedActs(e, vs, scope, env, st, quiet);
  }

  lemma CheckedAssigns(e: Expr, vs: seq<Value>, scope: Scope, env: Env, st: Store, quiet: bool)
    requires Checks(e, scope).Some? && Fits(scope, env, st) && (e.Assign? || e.CompoundAssign?)
    requires |vs| == |Operands(e)| && Kinded(e, 0, scope, vs)
    ensures Ends(Act(e, vs, env, st, quiet), Checks(e, scope).value)
  {
    assert Operands(e)[0 + 0] == e.value && Bound(e.target, env, st);
  }

  lemma CheckedPushes(x: string, k: Word, scope: Scope, env: Env, st: Store)
    requires Fits(scope, env, st) && x in scope && scope[x] == ArrK
    ensures Ends(CallOnArray(Push, x, k, env, st), UnitK)
  {
    assert Bound(x, env, st);
  }

  lemma CheckedActs(e: Expr, vs: seq<Value>, scope: Scope, env: Env, st: Store, quiet: bool)
    requires Checks(e, scope).Some? && Fits(scope, env, st)
    requires |vs| == |Operands(e)| && Kinded(e, 0, scope, vs)
    requires !e.If? && !e.For? && !e.Block? && !e.Unsafe? && !(e.MethodCall? && e.call.Each?)
    ensures Ends(Act(e, vs, env, st, quiet), Checks(e, scope).value)
  {
    hide CheckBlock, Upto, Capture, Wrap, Put;
    match e
    case Binary(_, l, r) => assert Operands(e)[0 + 0] == l && Operands(e)[0 + 1] == r;
    case Len(o) => assert Operands(e)[0 + 0] == o;
    case Assign(x, v) => CheckedAssigns(e, vs, scope, env, st, quiet);
    case CompoundAssign(x, _, v) => CheckedAssigns(e, vs, scope, env, st, quiet);
    case MethodCall(o, _, a, _) =>
      assert Operands(e)[0 + 0] == o && Operands(e)[0 + 1] == a;
      CheckedPushes(o.name, vs[1].n, scope, env, st);
    case Puts(a) => assert Operands(e)[0 + 0] == a;
    case Ident(x) => assert Bound(x, env, st);
    case _ =>
  }

  lemma {:induction false} CheckedBlockRuns(ss: seq<Stmt>, scope: Scope, env: Env, st: Store, quiet: bool, fuel: nat)
    requires CheckBlock(ss, scope).Some? && Fits(scope, env, st)
    ensures Ends(ExecBlock(ss, env, st, quiet, fuel), CheckBlock(ss, scope).value)
    decreases fuel, ss, 0
  {
    hide Grows, Fits, Checks, Eval;
    if ss != [] {
      CheckedRuns(Code(ss[0]), scope, env, st, quiet, fuel);
      var r := Eval(Code(ss[0]), env, st, quiet, fuel);
      FitsLater(scope, env, st, r.store);
      if |ss| > 1 {
        if ss[0].Let? {
          FitsBind(scope, env, r.store, ss[0].name, r.value);
          CheckedBlockRuns(ss[1..], scope[ss[0].name := KindOf(r.value)], env[ss[0].name := |r.store|],
                           Alloc(r.store, ss[0].name, r.value), quiet, fuel);
        } else {
          CheckedBlockRuns(ss[1..], scope, env, r.store, quiet, fuel);
        }
      }
    }
  }

  lemma {:induction false} CheckedIterates(x: string, elems: seq<Word>, body: seq<Stmt>, asLambda: bool, scope: Scope,
                                           env: Env, st: Store, quiet: bool, fuel: nat)
    requires CheckBlock(body, scope[x := IntK]).Some? && Fits(scope, env, st)
    ensures Ends(Iterate(x, elems, body, asLambda, env, st, quiet, fuel), UnitK)
    decreases fuel, body, |elems| + 1
  {
    hide Grows, Fits, Checks, CheckBlock, ExecBlock;
    if elems != [] {
      var st0 := Alloc(st, x, IntV(elems[0]));
      FitsBind(scope, env, st, x, IntV(elems[0]));
      CheckedBlockRuns(body, scope[x := IntK], env[x := |st|], st0, quiet, fuel);
      var r := ExecBlock(body, env[x := |st|], st0, quiet, fuel);
      GrowsAlloc(st, x, IntV(elems[0]), r.store);
      FitsLater(scope, env, st, r.store);
      CheckedIterates(x, elems[1..], body, asLambda, scope, env, r.store, quiet, fuel);
    }
  }

  lemma GrowsAlloc(st: Store, x: string, v: Value, st': Store)
    requires Grows(Alloc(st, x, v), st')
    ensures Grows(st, st')
  {
    var st0 := Alloc(st, x, v);
    forall c | 0 <= c < |st| ensures st'[c].name == st[c].name && SameKind(st[c].value, st'[c].value) {
      assert st0[c] == st[c];
    }
  }
}
