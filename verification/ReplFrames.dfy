/** What a single run keeps: the discipline of cells and closures, the variables a piece of code
    does not write, and the absence of `return`. */
module ReplFrames {
  import opened Common
  import opened ReplSyntax
  import opened ReplSemantics

  // ---------------------------------------------------------------------------------------
  // A run never touches a variable it does not name as a target.
  // ---------------------------------------------------------------------------------------

  /** A value whose code, if it is a closure that may be called, does not write `x`. */
  ghost predicate Shy(v: Value, x: string, t: Touch) {
    v.CloV? && !t.Calling? ==> !LambdaWrites(v.lambda, x, t)
  }

  ghost predicate ShyStore(st: Store, x: string, t: Touch) {
    forall c :: 0 <= c < |st| ==> Shy(st[c].value, x, t)
  }

  /** There are no new cells called `x` (`Declaring`); or those there were are as they were, the
      ones holding arrays only if method calls were counted. */
  ghost predicate Untouched(st: Store, st': Store, x: string, t: Touch) {
    && |st| <= |st'|
    && if t.Declaring? then
         forall c :: |st| <= c < |st'| ==> st'[c].name != x
       else
         forall c :: 0 <= c < |st| && st[c].name == x && (!t.Assigning? || !st[c].value.ArrV?) ==> st'[c] == st[c]
  }

  ghost predicate AllShy(vs: seq<Value>, x: string, t: Touch) {
    forall k :: 0 <= k < |vs| ==> Shy(vs[k], x, t)
  }

  lemma UntouchedSelf(st: Store, x: string, t: Touch)
    ensures Untouched(st, st, x, t) && AllShy([], x, t)
  {
  }

  lemma ShyCons(v: Value, vs: seq<Value>, x: string, t: Touch)
    requires Shy(v, x, t) && AllShy(vs, x, t)
    ensures AllShy([v] + vs, x, t)
  {
  }

  ghost predicate Framed(st: Store, r: Outcome, x: string, t: Touch) {
    !r.Fail? ==>
      && ShyStore(r.store, x, t)
      && Untouched(st, r.store, x, t)
      && (r.Done? ==> Shy(r.value, x, t))
  }

  lemma UntouchedTwice(st: Store, st1: Store, st2: Store, x: string, t: Touch)
    requires Untouched(st, st1, x, t) && Untouched(st1, st2, x, t) && Grows(st1, st2)
    ensures Untouched(st, st2, x, t)
  {
    if !t.Declaring? {
      forall c | 0 <= c < |st| && st[c].name == x && (!t.Assigning? || !st[c].value.ArrV?) ensures st2[c] == st[c] {
        assert st1[c] == st[c];
      }
    } else {
      forall c | |st| <= c < |st2| ensures st2[c].name != x {
        assert c < |st1| ==> st1[c].name != x;
      }
    }
  }

  lemma FramedLater(st: Store, st1: Store, o: seq<Value>, r: Outcome, x: string, t: Touch)
    requires Untouched(st, st1, x, t) && Framed(st1, r, x, t) && (!r.Fail? ==> Grows(st1, r.store))
    ensures Framed(st, Prepend(o, r), x, t)
  {
    if !r.Fail? { UntouchedTwice(st, st1, r.store, x, t); }
  }

  /** Soundness of the write analysis: an expression that names no `x` as a target, run where no
      stored closure does, leaves every cell called `x` unchanged. */
  lemma {:induction false} Frame(e: Expr, env: Env, st: Store, quiet: bool, fuel: nat, x: string, t: Touch)
    requires !Writes(e, x, t) && ShyStore(st, x, t)
    ensures Framed(st, Eval(e, env, st, quiet, fuel), x, t)
    decreases fuel, e, 3
  {
    hide Untouched, ShyStore, Shy, AllShy, Writes, Grows, Operands, Apply, EvalAll, Framed, Prepend;
    FrameAll(e, 0, env, st, quiet, fuel, x, t);
    var m := EvalAll(e, 0, env, st, quiet, fuel);
    if m.All? {
      FrameApply(e, m.values, env, m.store, quiet, fuel, x, t);
      FramedLater(st, m.store, m.out, Apply(e, m.values, env, m.store, quiet, fuel), x, t);
    }
  }

  ghost predicate FramedAll(st: Store, m: Operated, x: string, t: Touch) {
    && (m.All? ==> ShyStore(m.store, x, t) && Untouched(st, m.store, x, t) && AllShy(m.values, x, t))
    && (m.Stopped? ==> Framed(st, m.r, x, t))
  }

  lemma FramedCons(st: Store, r: Outcome, m: Operated, x: string, t: Touch)
    requires r.Done? && Framed(st, r, x, t) && FramedAll(r.store, m, x, t)
    requires (m.All? ==> Grows(r.store, m.store)) && (m.Stopped? && !m.r.Fail? ==> Grows(r.store, m.r.store))
    ensures FramedAll(st, OperatedWith(r, m), x, t)
  {
    hide Untouched, ShyStore, Shy, AllShy, Grows;
    if m.All? {
      UntouchedTwice(st, r.store, m.store, x, t);
      ShyCons(r.value, m.values, x, t);
    } else {
      FramedLater(st, r.store, r.out, m.r, x, t);
    }
  }

  lemma FramedNone(st: Store, x: string, t: Touch)
    requires ShyStore(st, x, t)
    ensures FramedAll(st, All([], st, []), x, t)
  {
    UntouchedSelf(st, x, t);
  }

  lemma {:induction false} FrameAll(e: Expr, i: nat, env: Env, st: Store, quiet: bool, fuel: nat, x: string, t: Touch)
    requires i <= |Operands(e)| && !Writes(e, x, t) && ShyStore(st, x, t)
    ensures FramedAll(st, EvalAll(e, i, env, st, quiet, fuel), x, t)
    decreases fuel, e, 1, |Operands(e)| - i
  {
    hide Untouched, ShyStore, Shy, AllShy, Writes, Grows, Operands, Eval, Prepend;
    if i == |Operands(e)| {
      FramedNone(st, x, t);
    } else {
      WritesOperand(e, i, x, t);
      Frame(Operands(e)[i], env, st, quiet, fuel, x, t);
      var r := Eval(Operands(e)[i], env, st, quiet, fuel);
      if r.Done? {
        FrameAll(e, i + 1, env, r.store, quiet, fuel, x, t);
        FramedCons(st, r, EvalAll(e, i + 1, env, r.store, quiet, fuel), x, t);
      }
    }
  }

  lemma {:induction false} FrameApply(e: Expr, vs: seq<Value>, env: Env, st: Store, quiet: bool, fuel: nat, x: string,
                                      t: Touch)
    requires |vs| == |Operands(e)| && !Writes(e, x, t) && ShyStore(st, x, t)
    requires AllShy(vs, x, t)
    ensures Framed(st, Apply(e, vs, env, st, quiet, fuel), x, t)
    decreases fuel, e, 2
  {
    hide Untouched, ShyStore, Writes, Grows, ExecBlock, Iterate, Invoke, Eval, Again, Act;
    WritesParts(e, x, t);
    UntouchedSelf(st, x, t);
    match e
    case If(_, yes, no) =>
      if vs[0].BoolV? {
        assert Bodies(e)[0] == yes && Bodies(e)[1] == no;
        FrameBlock(if vs[0].b then yes else no, env, st, quiet, fuel, x, t);
      }
    case While(_, b) =>
      assert Bodies(e)[0] == b;
      if vs[0].BoolV? && vs[0].b && fuel > 0 { FrameAgain(e, b, env, st, quiet, fuel, x, t); }
    case For(y, _, b) =>
      assert Bodies(e)[0] == b;
      if vs[0].ArrV? { FrameIterate(y, vs[0].elems, b, false, env, st, quiet, fuel, x, t); }
    case MethodCall(_, Each, _, Some(l)) =>
      assert Bodies(e)[0] == l.body;
      if vs[0].ArrV? { FrameIterate(l.param, vs[0].elems, l.body, true, env, st, quiet, fuel, x, t); }
    case Block(b) => assert Bodies(e)[0] == b; FrameBlock(b, env, st, quiet, fuel, x, t);
    case Unsafe(b) => assert Bodies(e)[0] == b; FrameBlock(b, env, st, quiet, fuel, x, t);
    case ClosureCall(_, _) =>
      if vs[0].CloV? && fuel > 0 {
        FrameInvoke(vs[0], vs[1], st, quiet, fuel - 1, x, t);
      }
    case _ => FrameAct(e, vs, env, st, quiet, x, t);
  }

  lemma {:induction false} FrameAgain(e: Expr, b: seq<Stmt>, env: Env, st: Store, quiet: bool, fuel: nat, x: string,
                                      t: Touch)
    requires fuel > 0 && !Writes(e, x, t) && !BlockWrites(b, x, t) && ShyStore(st, x, t)
    ensures Framed(st, Again(e, b, env, st, quiet, fuel), x, t)
    decreases fuel, b, 1
  {
    hide Untouched, ShyStore, Shy, Writes, BlockWrites, Grows, ExecBlock, Eval;
    FrameBlock(b, env, st, quiet, fuel, x, t);
    var r := ExecBlock(b, env, st, quiet, fuel);
    if r.Done? {
      Frame(e, env, r.store, quiet, fuel - 1, x, t);
      var r' := Eval(e, env, r.store, quiet, fuel - 1);
      if !r'.Fail? { UntouchedTwice(st, r.store, r'.store, x, t); }
    }
  }

  lemma {:induction false} FrameInvoke(f: Value, v: Value, st: Store, quiet: bool, fuel: nat, x: string, t: Touch)
    requires f.CloV? && !t.Calling? && Shy(f, x, t) && Shy(v, x, t) && ShyStore(st, x, t)
    ensures Framed(st, Invoke(f, v, st, quiet, fuel), x, t)
    decreases fuel, f.lambda.body, 1
  {
    var l := f.lambda;
    var st0 := Alloc(st, l.param, v);
    FrameBlock(l.body, f.env[l.param := |st|], st0, quiet, fuel, x, t);
  }

  lemma FrameAct(e: Expr, vs: seq<Value>, env: Env, st: Store, quiet: bool, x: string, t: Touch)
    requires |vs| == |Operands(e)| && !Writes(e, x, t) && ShyStore(st, x, t)
    requires AllShy(vs, x, t)
    ensures Framed(st, Act(e, vs, env, st, quiet), x, t)
  {
  }

  lemma {:induction false} FrameStmt(s: Stmt, env: Env, st: Store, quiet: bool, fuel: nat, x: string, t: Touch)
    requires !(t.Declaring? && s.Let? && s.name == x)
    requires !Writes(Code(s), x, t) && ShyStore(st, x, t)
    ensures Framed(st, ExecStmt(s, env, st, quiet, fuel), x, t)
    decreases fuel, s, 0
  {
    Frame(Code(s), env, st, quiet, fuel, x, t);
  }

  lemma {:induction false} FrameBlock(ss: seq<Stmt>, env: Env, st: Store, quiet: bool, fuel: nat, x: string, t: Touch)
    requires !BlockWrites(ss, x, t) && ShyStore(st, x, t)
    ensures Framed(st, ExecBlock(ss, env, st, quiet, fuel), x, t)
    decreases fuel, ss, 0
  {
    if ss != [] {
      FrameStmt(ss[0], env, st, quiet, fuel, x, t);
      var r := ExecStmt(ss[0], env, st, quiet, fuel);
      if r.Done? && |ss| > 1 {
        FrameBlock(ss[1..], EnvAfter(ss[0], env, r.store), r.store, quiet, fuel, x, t);
      }
    }
  }

  lemma FramedAlloc(st: Store, y: string, v: Value, x: string, t: Touch)
    requires ShyStore(st, x, t) && Shy(v, x, t) && !(t.Declaring? && y == x)
    ensures ShyStore(Alloc(st, y, v), x, t) && Untouched(st, Alloc(st, y, v), x, t)
  {
  }

  lemma {:induction false} FrameIterate(y: string, elems: seq<Word>, body: seq<Stmt>, asLambda: bool,
                                        env: Env, st: Store, quiet: bool, fuel: nat, x: string, t: Touch)
    requires !BlockWrites(body, x, t) && ShyStore(st, x, t) && !(t.Declaring? && y == x)
    ensures Framed(st, Iterate(y, elems, body, asLambda, env, st, quiet, fuel), x, t)
    decreases fuel, body, |elems| + 1
  {
    UntouchedSelf(st, x, t);
    hide Untouched, ShyStore, BlockWrites, Grows, ExecBlock, Prepend;
    if elems != [] {
      var st0 := Alloc(st, y, IntV(elems[0]));
      FramedAlloc(st, y, IntV(elems[0]), x, t);
      FrameBlock(body, env[y := |st|], st0, quiet, fuel, x, t);
      var r := ExecBlock(body, env[y := |st|], st0, quiet, fuel);
      if !r.Fail? {
        UntouchedTwice(st, st0, r.store, x, t);
        FrameIterate(y, elems[1..], body, asLambda, env, r.store, quiet, fuel, x, t);
        FramedLater(st, r.store, r.out, Iterate(y, elems[1..], body, asLambda, env, r.store, quiet, fuel), x, t);
      }
    }
  }

  // ---------------------------------------------------------------------------------------
  // Cells and closures stay well formed.
  // ---------------------------------------------------------------------------------------

  ghost predicate TidyEnv(env: Env, st: Store) {
    forall x :: x in env ==> Bound(x, env, st)
  }

  /** A closure comes from one of the known literals and holds exactly variables it captures. */
  ghost predicate TidyValue(v: Value, st: Store, known: iset<Lambda>) {
    v.CloV? ==> v.lambda in known && TidyEnv(v.env, st) && forall x :: x in v.env ==> Captures(v.lambda, x)
  }

  ghost predicate AllTidy(vs: seq<Value>, st: Store, known: iset<Lambda>) {
    forall k :: 0 <= k < |vs| ==> TidyValue(vs[k], st, known)
  }

  lemma AllTidyNil(st: Store, known: iset<Lambda>)
    ensures AllTidy([], st, known)
  {
  }

  lemma TidyCons(v: Value, vs: seq<Value>, st: Store, known: iset<Lambda>)
    requires TidyValue(v, st, known) && AllTidy(vs, st, known)
    ensures AllTidy([v] + vs, st, known)
  {
  }

  ghost predicate TidyStore(st: Store, known: iset<Lambda>) {
    forall c :: 0 <= c < |st| ==> TidyValue(st[c].value, st, known)
  }

  ghost predicate Closed(known: iset<Lambda>) {
    forall l, inner :: l in known && BlockHasLit(inner, l.body) ==> inner in known
  }

  ghost predicate Knows(known: iset<Lambda>, e: Expr) {
    forall l :: IsLit(l, e) ==> l in known
  }

  ghost predicate BlockKnows(known: iset<Lambda>, ss: seq<Stmt>) {
    forall l :: BlockHasLit(l, ss) ==> l in known
  }

  ghost predicate TidyOutcome(r: Outcome, known: iset<Lambda>) {
    !r.Fail? ==> TidyStore(r.store, known) && (r.Done? ==> TidyValue(r.value, r.store, known))
  }

  lemma KnowsParts(known: iset<Lambda>, e: Expr)
    requires Knows(known, e)
    ensures e.Closure? ==> e.lambda in known
    ensures forall i :: 0 <= i < |Operands(e)| ==> Knows(known, Operands(e)[i])
    ensures forall i :: 0 <= i < |Bodies(e)| ==> BlockKnows(known, Bodies(e)[i])
  {
    forall i, l | 0 <= i < |Bodies(e)| && BlockHasLit(l, Bodies(e)[i]) ensures l in known {
      assert IsLit(l, e);
    }
    forall i, l | 0 <= i < |Operands(e)| && IsLit(l, Operands(e)[i]) ensures l in known {
      assert IsLit(l, e);
    }
    if e.Closure? { assert IsLit(e.lambda, e); }
  }

  lemma KnowsOperand(known: iset<Lambda>, e: Expr, i: nat)
    requires Knows(known, e) && i < |Operands(e)|
    ensures Knows(known, Operands(e)[i])
  {
    KnowsParts(known, e);
  }

  lemma TidyGrows(v: Value, env: Env, st: Store, st': Store, known: iset<Lambda>)
    requires Grows(st, st')
    ensures TidyEnv(env, st) ==> TidyEnv(env, st')
    ensures TidyValue(v, st, known) ==> TidyValue(v, st', known)
  {
  }

  lemma TidyAlloc(st: Store, x: string, v: Value, known: iset<Lambda>)
    requires TidyStore(st, known) && TidyValue(v, st, known)
    ensures TidyStore(Alloc(st, x, v), known)
  {
    var st' := Alloc(st, x, v);
    forall c | 0 <= c < |st'| ensures TidyValue(st'[c].value, st', known) {
      TidyGrows(if c < |st| then st[c].value else v, map[], st, st', known);
    }
  }

  lemma TidyBind(env: Env, st: Store, x: string, v: Value)
    requires TidyEnv(env, st)
    ensures TidyEnv(env[x := |st|], Alloc(st, x, v))
    ensures TidyValue(UnitV, Alloc(st, x, v), iset{})
  {
  }

  lemma {:induction false} Tidy(e: Expr, env: Env, st: Store, quiet: bool, fuel: nat, known: iset<Lambda>)
    requires Closed(known) && Knows(known, e) && TidyEnv(env, st) && TidyStore(st, known)
    ensures TidyOutcome(Eval(e, env, st, quiet, fuel), known)
    decreases fuel, e, 3
  {
    hide TidyStore, TidyEnv, TidyValue, AllTidy, Knows, Closed, Grows, Operands, Apply;
    TidyAll(e, 0, env, st, quiet, fuel, known);
    match EvalAll(e, 0, env, st, quiet, fuel)
    case All(vs, st1, _) => TidyApply(e, vs, env, st1, quiet, fuel, known);
    case Stopped(_) =>
  }

  lemma {:induction false} TidyAll(e: Expr, i: nat, env: Env, st: Store, quiet: bool, fuel: nat, known: iset<Lambda>)
    requires i <= |Operands(e)|
    requires Closed(known) && Knows(known, e) && TidyEnv(env, st) && TidyStore(st, known)
    ensures var m := EvalAll(e, i, env, st, quiet, fuel);
            && (m.All? ==>
                  && TidyStore(m.store, known)
                  && TidyEnv(env, m.store)
                  && AllTidy(m.values, m.store, known))
            && (m.Stopped? ==> TidyOutcome(m.r, known))
    decreases fuel, e, 1, |Operands(e)| - i
  {
    hide TidyStore, TidyEnv, TidyValue, AllTidy, Knows, Closed, Grows, Operands, Eval;
    AllTidyNil(st, known);
    if i < |Operands(e)| {
      KnowsOperand(known, e, i);
      Tidy(Operands(e)[i], env, st, quiet, fuel, known);
      var r := Eval(Operands(e)[i], env, st, quiet, fuel);
      if r.Done? {
        TidyGrows(r.value, env, st, r.store, known);
        TidyAll(e, i + 1, env, r.store, quiet, fuel, known);
        var m := EvalAll(e, i + 1, env, r.store, quiet, fuel);
        if m.All? {
          TidyGrows(r.value, env, r.store, m.store, known);
          TidyCons(r.value, m.values, m.store, known);
        }
      }
    }
  }

  lemma {:induction false} TidyApply(e: Expr, vs: seq<Value>, env: Env, st: Store, quiet: bool, fuel: nat,
                                     known: iset<Lambda>)
    requires |vs| == |Operands(e)|
    requires Closed(known) && Knows(known, e) && TidyEnv(env, st) && TidyStore(st, known)
    requires AllTidy(vs, st, known)
    ensures TidyOutcome(Apply(e, vs, env, st, quiet, fuel), known)
    decreases fuel, e, 2
  {
    KnowsParts(known, e);
    hide TidyStore, TidyEnv, Knows, BlockKnows, Closed, Grows, ExecBlock, Iterate, Invoke, Eval;
    match e
    case If(_, yes, no) =>
      if vs[0].BoolV? {
        assert Bodies(e)[0] == yes && Bodies(e)[1] == no;
        TidyBlock(if vs[0].b then yes else no, env, st, quiet, fuel, known);
      }
    case While(_, b) =>
      assert Bodies(e)[0] == b;
      if vs[0].BoolV? && vs[0].b && fuel > 0 { TidyAgain(e, b, env, st, quiet, fuel, known); }
    case For(y, _, b) =>
      assert Bodies(e)[0] == b;
      if vs[0].ArrV? { TidyIterate(y, vs[0].elems, b, false, env, st, quiet, fuel, known); }
    case MethodCall(_, Each, _, Some(l)) =>
      assert Bodies(e)[0] == l.body;
      if vs[0].ArrV? { TidyIterate(l.param, vs[0].elems, l.body, true, env, st, quiet, fuel, known); }
    case Block(b) => assert Bodies(e)[0] == b; TidyBlock(b, env, st, quiet, fuel, known);
    case Unsafe(b) => assert Bodies(e)[0] == b; TidyBlock(b, env, st, quiet, fuel, known);
    case ClosureCall(_, _) =>
      if vs[0].CloV? && fuel > 0 {
        TidyInvoke(vs[0], vs[1], st, quiet, fuel - 1, known);
      }
    case _ => TidyAct(e, vs, env, st, quiet, known);
  }

  lemma {:induction false} TidyAgain(e: Expr, b: seq<Stmt>, env: Env, st: Store, quiet: bool, fuel: nat,
                                     known: iset<Lambda>)
    requires fuel > 0 && Closed(known) && Knows(known, e) && BlockKnows(known, b)
    requires TidyEnv(env, st) && TidyStore(st, known)
    ensures TidyOutcome(Again(e, b, env, st, quiet, fuel), known)
    decreases fuel, b, 1
  {
    hide TidyStore, TidyEnv, TidyValue, Knows, BlockKnows, Closed, Grows, ExecBlock, Eval;
    TidyBlock(b, env, st, quiet, fuel, known);
    var r := ExecBlock(b, env, st, quiet, fuel);
    if r.Done? {
      TidyGrows(r.value, env, st, r.store, known);
      Tidy(e, env, r.store, quiet, fuel - 1, known);
    }
  }

  lemma {:induction false} TidyInvoke(f: Value, v: Value, st: Store, quiet: bool, fuel: nat, known: iset<Lambda>)
    requires Closed(known) && f.CloV? && TidyStore(st, known) && TidyValue(f, st, known) && TidyValue(v, st, known)
    ensures TidyOutcome(Invoke(f, v, st, quiet, fuel), known)
    decreases fuel, f.lambda.body, 1
  {
    var l := f.lambda;
    var st0 := Alloc(st, l.param, v);
    TidyAlloc(st, l.param, v, known);
    TidyGrows(v, f.env, st, st0, known);
    TidyBlock(l.body, f.env[l.param := |st|], st0, quiet, fuel, known);
  }

  lemma TidyAct(e: Expr, vs: seq<Value>, env: Env, st: Store, quiet: bool, known: iset<Lambda>)
    requires |vs| == |Operands(e)|
    requires Knows(known, e) && TidyEnv(env, st) && TidyStore(st, known)
    requires AllTidy(vs, st, known)
    ensures TidyOutcome(Act(e, vs, env, st, quiet), known)
  {
    var r := Act(e, vs, env, st, quiet);
    if e.Closure? {
      assert IsLit(e.lambda, e);
    }
    if !r.Fail? {
      forall c | 0 <= c < |r.store| ensures TidyValue(r.store[c].value, r.store, known) {
        assert TidyValue(st[c].value, st, known);
        assert r.store[c].value == st[c].value || !r.store[c].value.CloV? || r.store[c].value == vs[0];
      }
    }
  }

  lemma {:induction false} TidyStmt(s: Stmt, env: Env, st: Store, quiet: bool, fuel: nat, known: iset<Lambda>)
    requires Closed(known) && Knows(known, Code(s)) && TidyEnv(env, st) && TidyStore(st, known)
    ensures var r := ExecStmt(s, env, st, quiet, fuel);
            TidyOutcome(r, known) && (r.Done? ==> TidyEnv(EnvAfter(s, env, r.store), r.store))
    decreases fuel, s, 0
  {
    hide TidyStore, Knows, Closed, Grows, Eval;
    Tidy(Code(s), env, st, quiet, fuel, known);
    var r := Eval(Code(s), env, st, quiet, fuel);
    if r.Done? {
      TidyGrows(r.value, env, st, r.store, known);
      if s.Let? {
        TidyAlloc(r.store, s.name, r.value, known);
        TidyBind(env, r.store, s.name, r.value);
      }
    }
  }

  lemma {:induction false} TidyBlock(ss: seq<Stmt>, env: Env, st: Store, quiet: bool, fuel: nat, known: iset<Lambda>)
    requires Closed(known) && BlockKnows(known, ss) && TidyEnv(env, st) && TidyStore(st, known)
    ensures TidyOutcome(ExecBlock(ss, env, st, quiet, fuel), known)
    decreases fuel, ss, 0
  {
    if ss != [] {
      TidyStmt(ss[0], env, st, quiet, fuel, known);
      var r := ExecStmt(ss[0], env, st, quiet, fuel);
      if r.Done? && |ss| > 1 {
        TidyBlock(ss[1..], EnvAfter(ss[0], env, r.store), r.store, quiet, fuel, known);
      }
    }
  }

  lemma {:induction false} TidyIterate(y: string, elems: seq<Word>, body: seq<Stmt>, asLambda: bool,
                                       env: Env, st: Store, quiet: bool, fuel: nat, known: iset<Lambda>)
    requires Closed(known) && BlockKnows(known, body) && TidyEnv(env, st) && TidyStore(st, known)
    ensures TidyOutcome(Iterate(y, elems, body, asLambda, env, st, quiet, fuel), known)
    decreases fuel, body, |elems| + 1
  {
    if elems != [] {
      var st0 := Alloc(st, y, IntV(elems[0]));
      TidyAlloc(st, y, IntV(elems[0]), known);
      TidyGrows(UnitV, env, st, st0, known);
      TidyBlock(body, env[y := |st|], st0, quiet, fuel, known);
      var r := ExecBlock(body, env[y := |st|], st0, quiet, fuel);
      if !r.Fail? {
        TidyGrows(UnitV, env, st, r.store, known);
        TidyIterate(y, elems[1..], body, asLambda, env, r.store, quiet, fuel, known);
      }
    }
  }

  // ---------------------------------------------------------------------------------------
  // Code without a `return` outside closures does not return.
  // ---------------------------------------------------------------------------------------

  /** Code is left early only through a `return` that is written in it outside closures. */
  lemma ReturnsAreWritten(e: Expr, env: Env, st: Store, quiet: bool, fuel: nat)
    ensures Eval(e, env, st, quiet, fuel).Returned? ==> Reaches(Returns, e, Return)
  {
    hide Eval, ContainsReturn, Reaches;
    ScanFindsReturns(e);
    if !ContainsReturn(e) { ScanSeesReturns(e, env, st, quiet, fuel); }
  }

  /** The scan for `return` sees every place a `return` can fire from. */
  lemma {:induction false} ScanSeesReturns(e: Expr, env: Env, st: Store, quiet: bool, fuel: nat)
    requires !ContainsReturn(e)
    ensures !Eval(e, env, st, quiet, fuel).Returned?
    decreases fuel, e, 3
  {
    hide EvalAll, Apply, ContainsReturn, Grows, Operands;
    ScanOperands(e, 0, env, st, quiet, fuel);
    match EvalAll(e, 0, env, st, quiet, fuel)
    case All(vs, st1, _) => ScanApply(e, vs, env, st1, quiet, fuel);
    case Stopped(_) =>
  }

  lemma {:induction false} ScanApply(e: Expr, vs: seq<Value>, env: Env, st: Store, quiet: bool, fuel: nat)
    requires |vs| == |Operands(e)| && !ContainsReturn(e)
    ensures !Apply(e, vs, env, st, quiet, fuel).Returned?
    decreases fuel, e, 2
  {
    match e
    case If(_, yes, no) =>
      if vs[0].BoolV? { ScanSeesReturnsInBlock(if vs[0].b then yes else no, env, st, quiet, fuel); }
    case While(_, b) =>
      if vs[0].BoolV? && vs[0].b && fuel > 0 {
        ScanSeesReturnsInBlock(b, env, st, quiet, fuel);
        var r := ExecBlock(b, env, st, quiet, fuel);
        if r.Done? { ScanSeesReturns(e, env, r.store, quiet, fuel - 1); }
      }
    case For(y, _, b) =>
      if vs[0].ArrV? { ScanIterate(y, vs[0].elems, b, false, env, st, quiet, fuel); }
    case MethodCall(_, Each, _, Some(l)) =>
      if vs[0].ArrV? { ScanIterate(l.param, vs[0].elems, l.body, true, env, st, quiet, fuel); }
    case Block(b) => ScanSeesReturnsInBlock(b, env, st, quiet, fuel);
    case Unsafe(b) => ScanSeesReturnsInBlock(b, env, st, quiet, fuel);
    case _ =>
  }

  lemma OperandReturnless(e: Expr, i: nat)
    requires i < |Operands(e)| && !ContainsReturn(e)
    ensures !ContainsReturn(Operands(e)[i])
  {
  }

  lemma {:induction false} ScanOperands(e: Expr, i: nat, env: Env, st: Store, quiet: bool, fuel: nat)
    requires i <= |Operands(e)| && !ContainsReturn(e)
    ensures var m := EvalAll(e, i, env, st, quiet, fuel); m.Stopped? ==> !m.r.Returned?
    decreases fuel, e, 1, |Operands(e)| - i
  {
    hide Eval, ContainsReturn;
    if i < |Operands(e)| {
      OperandReturnless(e, i);
      ScanSeesReturns(Operands(e)[i], env, st, quiet, fuel);
      var r := Eval(Operands(e)[i], env, st, quiet, fuel);
      if r.Done? { ScanOperands(e, i + 1, env, r.store, quiet, fuel); }
    }
  }

  lemma {:induction false} ScanSeesReturnsInBlock(ss: seq<Stmt>, env: Env, st: Store, quiet: bool, fuel: nat)
    requires !BlockContainsReturn(ss)
    ensures !ExecBlock(ss, env, st, quiet, fuel).Returned?
    decreases fuel, ss, 0
  {
    if ss != [] {
      ScanSeesReturns(Code(ss[0]), env, st, quiet, fuel);
      var r := ExecStmt(ss[0], env, st, quiet, fuel);
      if r.Done? && |ss| > 1 {
        ScanSeesReturnsInBlock(ss[1..], EnvAfter(ss[0], env, r.store), r.store, quiet, fuel);
      }
    }
  }

  lemma {:induction false} ScanIterate(y: string, elems: seq<Word>, body: seq<Stmt>, asLambda: bool,
                                       env: Env, st: Store, quiet: bool, fuel: nat)
    requires asLambda || !BlockContainsReturn(body)
    ensures !Iterate(y, elems, body, asLambda, env, st, quiet, fuel).Returned?
    decreases fuel, body, |elems| + 1
  {
    if elems != [] {
      var st0 := Alloc(st, y, IntV(elems[0]));
      if !asLambda { ScanSeesReturnsInBlock(body, env[y := |st|], st0, quiet, fuel); }
      var r := ExecBlock(body, env[y := |st|], st0, quiet, fuel);
      if !r.Fail? { ScanIterate(y, elems[1..], body, asLambda, env, r.store, quiet, fuel); }
    }
  }
}
