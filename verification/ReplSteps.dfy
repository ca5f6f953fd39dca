/** Small evaluation steps. */
module ReplSteps {
  import opened Common
  import opened ReplSyntax
  import opened ReplSemantics

  lemma EvalLeaf(e: Expr, env: Env, st: Store, quiet: bool, fuel: nat)
    requires e.IntLit? || e.UnitLit? || e.EmptyArray? || e.Closure? || (e.Ident? && Bound(e.name, env, st))
    ensures Eval(e, env, st, quiet, fuel) == Act(e, [], env, st, quiet)
  {
    assert EvalAll(e, 0, env, st, quiet, fuel) == All([], st, []);
    assert Apply(e, [], env, st, quiet, fuel) == Act(e, [], env, st, quiet);
  }

  /** One operand, then the action. */
  lemma EvalUnary(e: Expr, env: Env, st: Store, quiet: bool, fuel: nat)
    requires |Operands(e)| == 1 && Eval(Operands(e)[0], env, st, quiet, fuel).Done?
    ensures var r := Eval(Operands(e)[0], env, st, quiet, fuel);
            Eval(e, env, st, quiet, fuel) == Prepend(r.out, Apply(e, [r.value], env, r.store, quiet, fuel))
  {
    hide Apply;
    var r := Eval(Operands(e)[0], env, st, quiet, fuel);
    assert EvalAll(e, 1, env, r.store, quiet, fuel) == All([], r.store, []);
    assert [r.value] + [] == [r.value] && r.out + [] == r.out;
  }

  /** Two operands, then the action. */
  lemma EvalBinary(e: Expr, env: Env, st: Store, quiet: bool, fuel: nat)
    requires |Operands(e)| == 2 && Eval(Operands(e)[0], env, st, quiet, fuel).Done?
    requires Eval(Operands(e)[1], env, Eval(Operands(e)[0], env, st, quiet, fuel).store, quiet, fuel).Done?
    ensures var r := Eval(Operands(e)[0], env, st, quiet, fuel);
            var r' := Eval(Operands(e)[1], env, r.store, quiet, fuel);
            Eval(e, env, st, quiet, fuel)
            == Prepend(r.out + r'.out, Apply(e, [r.value, r'.value], env, r'.store, quiet, fuel))
  {
    hide Apply;
    var r := Eval(Operands(e)[0], env, st, quiet, fuel);
    var r' := Eval(Operands(e)[1], env, r.store, quiet, fuel);
    assert EvalAll(e, 2, env, r'.store, quiet, fuel) == All([], r'.store, []);
    assert [r'.value] + [] == [r'.value] && r'.out + [] == r'.out && [r.value] + [r'.value] == [r.value, r'.value];
    assert EvalAll(e, 1, env, r.store, quiet, fuel) == All([r'.value], r'.store, r'.out);
    assert EvalAll(e, 0, env, st, quiet, fuel) == All([r.value, r'.value], r'.store, r.out + r'.out);
  }

  /** Output appears exactly once, behind what the argument printed, unless it is suppressed; and a closure
      cannot be printed. */
  lemma PutsPrints(a: Expr, env: Env, st: Store, quiet: bool, fuel: nat)
    requires Eval(a, env, st, quiet, fuel).Done?
    ensures var r := Eval(a, env, st, quiet, fuel);
            Eval(Puts(a), env, st, quiet, fuel) ==
            if r.value.CloV? then Fail else Done(UnitV, r.store, r.out + if quiet then [] else [r.value])
  {
    EvalUnary(Puts(a), env, st, quiet, fuel);
  }

  /** An expression that runs through has operands that do. */
  lemma UnaryRan(e: Expr, env: Env, st: Store, quiet: bool, fuel: nat)
    requires |Operands(e)| == 1 && Eval(e, env, st, quiet, fuel).Done?
    ensures Eval(Operands(e)[0], env, st, quiet, fuel).Done?
  {
  }

  lemma BinaryRan(e: Expr, env: Env, st: Store, quiet: bool, fuel: nat)
    requires |Operands(e)| == 2 && Eval(e, env, st, quiet, fuel).Done?
    ensures var r := Eval(Operands(e)[0], env, st, quiet, fuel);
            r.Done? && Eval(Operands(e)[1], env, r.store, quiet, fuel).Done?
  {
    var r := Eval(Operands(e)[0], env, st, quiet, fuel);
    var m := EvalAll(e, 1, env, if r.Done? then r.store else st, quiet, fuel);
  }

  /** `x += 1` on a bound `Int`. */
  lemma EvalBump(x: string, k: Word, env: Env, st: Store, quiet: bool, fuel: nat)
    requires Bound(x, env, st) && st[env[x]].value == IntV(k)
    ensures Eval(CompoundAssign(x, Add, IntLit(1)), env, st, quiet, fuel)
            == Done(UnitV, st[env[x] := Cell(x, IntV(Wrap(k + 1)))], [])
  {
    EvalLeaf(IntLit(1), env, st, quiet, fuel);
    EvalUnary(CompoundAssign(x, Add, IntLit(1)), env, st, quiet, fuel);
  }

  /** `v.push(k)` and `v.remove(k)` on a bound array. */
  lemma EvalCall(v: string, m: Method, k: Word, env: Env, st: Store, quiet: bool, fuel: nat)
    requires Bound(v, env, st) && !m.Each?
    ensures Eval(MethodCall(Ident(v), m, IntLit(k), None), env, st, quiet, fuel)
            == Prepend([], CallOnArray(m, v, k, env, st))
  {
    EvalLeaf(Ident(v), env, st, quiet, fuel);
    EvalLeaf(IntLit(k), env, st, quiet, fuel);
    EvalBinary(MethodCall(Ident(v), m, IntLit(k), None), env, st, quiet, fuel);
  }

  lemma BlockOfOne(e: Expr, env: Env, st: Store, quiet: bool, fuel: nat)
    ensures ExecBlock([Expression(e)], env, st, quiet, fuel) == Eval(e, env, st, quiet, fuel)
  {
    var s := Expression(e);
    assert ExecStmt(s, env, st, quiet, fuel) == Eval(e, env, st, quiet, fuel);
  }

  lemma EvalBlockOfOne(e: Expr, env: Env, st: Store, quiet: bool, fuel: nat)
    ensures Eval(e, env, st, quiet, fuel).Done? ==>
            Eval(Unsafe([Expression(e)]), env, st, quiet, fuel) == Eval(e, env, st, quiet, fuel)
  {
    hide ExecBlock;
    var b := Unsafe([Expression(e)]);
    BlockOfOne(e, env, st, quiet, fuel);
    assert EvalAll(b, 0, env, st, quiet, fuel) == All([], st, []);
  }

  // ---------------------------------------------------------------------------------------
  // What small expressions write, and that they build no closures.
  // ---------------------------------------------------------------------------------------

  ghost predicate LitFree(e: Expr) {
    forall l :: !IsLit(l, e)
  }

  lemma LeafIsPlain(e: Expr, x: string, t: Touch)
    requires Operands(e) == [] && Bodies(e) == [] && !e.Closure?
    ensures LitFree(e) && (Writes(e, x, t) <==> WritesHere(e, x, t))
  {
  }

  lemma UnaryIsPlain(e: Expr, x: string, t: Touch)
    requires |Operands(e)| == 1 && Bodies(e) == [] && LitFree(Operands(e)[0])
    ensures LitFree(e) && (Writes(e, x, t) <==> WritesHere(e, x, t) || Writes(Operands(e)[0], x, t))
  {
    assert forall l :: !IsLit(l, Operands(e)[0]);
  }

  lemma BinaryIsPlain(e: Expr, x: string, t: Touch)
    requires |Operands(e)| == 2 && Bodies(e) == [] && LitFree(Operands(e)[0]) && LitFree(Operands(e)[1])
    ensures LitFree(e)
    ensures Writes(e, x, t) <==> WritesHere(e, x, t) || Writes(Operands(e)[0], x, t) || Writes(Operands(e)[1], x, t)
  {
    assert forall l :: !IsLit(l, Operands(e)[0]) && !IsLit(l, Operands(e)[1]);
  }

  /** `v.push(k)` and `v.remove(k)` write `v` and nothing else. */
  lemma CallIsPlain(v: string, m: Method, k: Word, x: string, t: Touch)
    requires !m.Each?
    ensures var e := MethodCall(Ident(v), m, IntLit(k), None);
            LitFree(e) && !ContainsReturn(e) && (Writes(e, x, t) <==> (t.Mutating? || t.Calling?) && x == v)
  {
    var e := MethodCall(Ident(v), m, IntLit(k), None);
    LeafIsPlain(e.receiver, x, t);
    LeafIsPlain(e.arg, x, t);
    BinaryIsPlain(e, x, t);
  }

  /** A closure literal writes what its body writes. */
  lemma ClosureParts(l: Lambda, x: string, t: Touch)
    ensures Writes(Closure(l), x, t) <==> LambdaWrites(l, x, t)
    ensures forall m :: IsLit(m, Closure(l)) <==> m == l || BlockHasLit(m, l.body)
  {
    hide BlockWrites, BlockHasLit, LambdaWrites;
  }

  /** A closure body, or any block, of one expression. */
  lemma OneWrites(e: Expr, x: string, t: Touch)
    ensures BlockWrites([Expression(e)], x, t) <==> Writes(e, x, t)
  {
    hide Writes;
    var body := [Expression(e)];
    assert Code(body[0]) == e && body[1..] == [];
  }

  lemma OneHasLit(e: Expr, l: Lambda)
    ensures BlockHasLit(l, [Expression(e)]) <==> IsLit(l, e)
  {
    hide IsLit;
    var body := [Expression(e)];
    assert Code(body[0]) == e && body[1..] == [];
  }

  lemma OneOccurs(e: Expr, x: string)
    ensures BlockOccurs([Expression(e)], x) <==> Occurs(e, x)
  {
    hide Occurs;
    var body := [Expression(e)];
    assert Code(body[0]) == e && body[1..] == [];
  }

  /** A closure whose body is one expression without closures in it. */
  lemma OneLineClosure(p: string, e: Expr, x: string, t: Touch)
    requires LitFree(e) && !t.Declaring?
    ensures var l := Lambda(p, [Expression(e)]);
            && (Writes(Closure(l), x, t) <==> Writes(e, x, t)) && (LambdaWrites(l, x, t) <==> Writes(e, x, t))
            && (Captures(l, x) <==> p != x && Occurs(e, x))
            && forall m :: IsLit(m, Closure(l)) ==> m == l
  {
    hide Writes, BlockWrites, BlockOccurs, Occurs, IsLit, BlockHasLit;
    var l := Lambda(p, [Expression(e)]);
    ClosureParts(l, x, t);
    OneWrites(e, x, t);
    OneOccurs(e, x);
    forall m ensures !BlockHasLit(m, l.body) {
      OneHasLit(e, m);
    }
  }
}
