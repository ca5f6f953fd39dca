/** Two runs of the same code from corresponding states stay in correspondence, whatever cells the
    two happen to use. This is what lets a REPL wrapper be compared with the once-through program. */
module ReplSimulation {
  import opened Common
  import opened ReplSyntax
  import opened ReplSemantics

  /** Which cell of the second run plays the part of a cell of the first. */
  type Link = map<nat, nat>

  ghost predicate EnvRel(env1: Env, env2: Env, link: Link) {
    forall x :: x in env1 ==> x in env2 && env1[x] in link && link[env1[x]] == env2[x]
  }

  ghost predicate ValRel(v1: Value, v2: Value, link: Link, care: Care) {
    if v1.CloV? then v2.CloV? && v1.lambda == v2.lambda && v1.lambda in care.lits && EnvRel(v1.env, v2.env, link)
    else v1 == v2
  }

  ghost predicate AllRel(vs1: seq<Value>, vs2: seq<Value>, link: Link, care: Care) {
    |vs1| == |vs2| && forall k :: 0 <= k < |vs1| ==> ValRel(vs1[k], vs2[k], link, care)
  }

  ghost predicate OneToOne(link: Link) {
    forall c, d :: c in link && d in link && link[c] == link[d] ==> c == d
  }

  ghost predicate CellRel(c: nat, st1: Store, st2: Store, link: Link, care: Care)
    requires c in link
  {
    && c < |st1|
    && link[c] < |st2|
    && st1[c].name == st2[link[c]].name
    && SameKind(st1[c].value, st2[link[c]].value)
    && (st1[c].name !in care.hidden ==> ValRel(st1[c].value, st2[link[c]].value, link, care))
  }

  /** Linked cells have one name and kind, and corresponding values unless the name is hidden. */
  ghost predicate StoreRel(st1: Store, st2: Store, link: Link, care: Care) {
    && OneToOne(link)
    && forall c :: c in link ==> CellRel(c, st1, st2, link, care)
  }

  /** `link'` adds to `link` only cells allocated since. */
  ghost predicate Extends(link: Link, link': Link, st1: Store, st2: Store) {
    && (forall c :: c in link ==> c in link' && link'[c] == link[c])
    && (forall c :: c in link' && c !in link ==> c >= |st1| && link'[c] >= |st2|)
  }

  ghost predicate OutcomeRel(r1: Outcome, r2: Outcome, link: Link, care: Care, quiet: bool) {
    && (r1.Done? ==> r2.Done? && ValRel(r1.value, r2.value, link, care))
    && (r1.Returned? ==> r2.Returned?)
    && (!r1.Fail? ==> StoreRel(r1.store, r2.store, link, care) && r2.out == if quiet then [] else r1.out)
  }

  /** The same for operand lists. */
  ghost predicate OperatedRel(m1: Operated, m2: Operated, link: Link, care: Care, quiet: bool) {
    && (m1.All? ==>
          && m2.All?
          && StoreRel(m1.store, m2.store, link, care)
          && AllRel(m1.values, m2.values, link, care)
          && m2.out == if quiet then [] else m1.out)
    && (m1.Stopped? && !m1.r.Fail? ==> m2.Stopped? && OutcomeRel(m1.r, m2.r, link, care, quiet))
  }

  lemma EnvRelExtends(env1: Env, env2: Env, link: Link, link': Link)
    requires EnvRel(env1, env2, link)
    requires forall c :: c in link ==> c in link' && link'[c] == link[c]
    ensures EnvRel(env1, env2, link')
  {
  }

  lemma AllRelCons(v1: Value, v2: Value, vs1: seq<Value>, vs2: seq<Value>, link: Link, care: Care)
    requires ValRel(v1, v2, link, care) && AllRel(vs1, vs2, link, care)
    ensures AllRel([v1] + vs1, [v2] + vs2, link, care)
  {
  }

  lemma EnvRelBind(env1: Env, env2: Env, link: Link, x: string, c: nat)
    requires EnvRel(env1, env2, link) && c in link
    ensures EnvRel(env1[x := c], env2[x := link[c]], link)
  {
  }

  lemma ExtendsSelf(link: Link, st1: Store, st2: Store)
    ensures Extends(link, link, st1, st2)
  {
  }

  lemma AllRelNil(link: Link, care: Care)
    ensures AllRel([], [], link, care)
  {
  }

  lemma PrependRel(o1: seq<Value>, o2: seq<Value>, r1: Outcome, r2: Outcome, link: Link, care: Care, quiet: bool)
    requires OutcomeRel(r1, r2, link, care, quiet) && o2 == if quiet then [] else o1
    ensures OutcomeRel(Prepend(o1, r1), Prepend(o2, r2), link, care, quiet)
  {
  }

  lemma FailRel(r: Outcome, link: Link, care: Care, quiet: bool)
    ensures OutcomeRel(Fail, r, link, care, quiet)
  {
  }

  lemma OperatedCons(r1: Outcome, r2: Outcome, m1: Operated, m2: Operated, link: Link, care: Care, quiet: bool)
    requires r1.Done? && r2.Done? && ValRel(r1.value, r2.value, link, care) && r2.out == if quiet then [] else r1.out
    requires OperatedRel(m1, m2, link, care, quiet)
    ensures OperatedRel(OperatedWith(r1, m1), OperatedWith(r2, m2), link, care, quiet)
  {
    if m1.All? { AllRelCons(r1.value, r2.value, m1.values, m2.values, link, care); }
  }

  lemma DoneRel(v: Value, st1: Store, st2: Store, link: Link, care: Care, quiet: bool)
    requires !v.CloV? && StoreRel(st1, st2, link, care)
    ensures OutcomeRel(Done(v, st1, []), Done(v, st2, []), link, care, quiet)
  {
  }

  lemma EnvRelLater(env1: Env, env2: Env, link: Link, link': Link, st1: Store, st2: Store)
    requires EnvRel(env1, env2, link) && Extends(link, link', st1, st2)
    ensures EnvRel(env1, env2, link')
  {
  }

  lemma StoresGrow(st1: Store, st1': Store, st2: Store, st2': Store)
    requires Grows(st1, st1') && Grows(st2, st2')
    ensures |st1| <= |st1'| && |st2| <= |st2'|
  {
  }

  lemma ValRelLater(v1: Value, v2: Value, link: Link, link': Link, care: Care, st1: Store, st2: Store)
    requires ValRel(v1, v2, link, care) && Extends(link, link', st1, st2)
    ensures ValRel(v1, v2, link', care)
  {
  }

  lemma ExtendsTrans(l1: Link, l2: Link, l3: Link, st1: Store, st2: Store, st1': Store, st2': Store)
    requires Extends(l1, l2, st1, st2) && Extends(l2, l3, st1', st2')
    requires |st1| <= |st1'| && |st2| <= |st2'|
    ensures Extends(l1, l3, st1, st2)
  {
  }

  /** Allocating on both sides keeps the correspondence. */
  lemma LinkAlloc(st1: Store, st2: Store, link: Link, care: Care, x: string, v1: Value, v2: Value)
    requires StoreRel(st1, st2, link, care) && ValRel(v1, v2, link, care)
    ensures StoreRel(Alloc(st1, x, v1), Alloc(st2, x, v2), link[|st1| := |st2|], care)
    ensures Extends(link, link[|st1| := |st2|], st1, st2)
  {
    var link' := link[|st1| := |st2|];
    assert forall c :: c in link ==> CellRel(c, st1, st2, link, care);
    forall c | c in link' ensures CellRel(c, Alloc(st1, x, v1), Alloc(st2, x, v2), link', care) {
      if c in link {
        assert CellRel(c, st1, st2, link, care);
      }
    }
  }

  /** Writing corresponding values to linked cells keeps the correspondence. */
  lemma LinkWrite(st1: Store, st2: Store, link: Link, care: Care, c: nat, v1: Value, v2: Value)
    requires StoreRel(st1, st2, link, care) && c in link && ValRel(v1, v2, link, care)
    requires CellRel(c, st1, st2, link, care)
    ensures StoreRel(st1[c := Cell(st1[c].name, v1)], st2[link[c] := Cell(st1[c].name, v2)], link, care)
  {
    forall d | d in link
      ensures CellRel(d, st1[c := Cell(st1[c].name, v1)], st2[link[c] := Cell(st1[c].name, v2)], link, care)
    {
      assert CellRel(d, st1, st2, link, care);
    }
  }

  /** Writing values of one kind to linked cells of a hidden name keeps the correspondence. */
  lemma LinkWriteHidden(st1: Store, st2: Store, link: Link, care: Care, c: nat, v1: Value, v2: Value)
    requires StoreRel(st1, st2, link, care) && c in link && SameKind(v1, v2)
    requires CellRel(c, st1, st2, link, care) && st1[c].name in care.hidden
    ensures StoreRel(st1[c := Cell(st1[c].name, v1)], st2[link[c] := Cell(st1[c].name, v2)], link, care)
  {
    forall d | d in link
      ensures CellRel(d, st1[c := Cell(st1[c].name, v1)], st2[link[c] := Cell(st1[c].name, v2)], link, care)
    {
      assert CellRel(d, st1, st2, link, care);
    }
  }

  lemma {:induction false} Sim(e: Expr, env1: Env, st1: Store, env2: Env, st2: Store,
                               link: Link, care: Care, quiet: bool, fuel: nat) returns (link': Link)
    requires EnvRel(env1, env2, link) && StoreRel(st1, st2, link, care) && Stable(e, care) && Calm(care)
    ensures OutcomeRel(Eval(e, env1, st1, false, fuel), Eval(e, env2, st2, quiet, fuel), link', care, quiet)
    ensures Extends(link, link', st1, st2)
    decreases fuel, e, 3
  {
    hide StoreRel, EnvRel, ValRel, AllRel, Extends, OutcomeRel, Stable, Calm, Grows, Operands, Apply, EvalAll, Prepend;
    link' := SimAll(e, 0, env1, st1, env2, st2, link, care, quiet, fuel);
    var m1, m2 := EvalAll(e, 0, env1, st1, false, fuel), EvalAll(e, 0, env2, st2, quiet, fuel);
    if m1.All? {
      var link1 := link';
      EnvRelLater(env1, env2, link, link1, st1, st2);
      link' := SimApply(e, m1.values, m2.values, env1, m1.store, env2, m2.store, link1, care, quiet, fuel);
      StoresGrow(st1, m1.store, st2, m2.store);
      ExtendsTrans(link, link1, link', st1, st2, m1.store, m2.store);
      PrependRel(m1.out, m2.out, Apply(e, m1.values, env1, m1.store, false, fuel),
                 Apply(e, m2.values, env2, m2.store, quiet, fuel), link', care, quiet);
    } else {
      FailRel(Eval(e, env2, st2, quiet, fuel), link', care, quiet);
    }
  }

  lemma {:induction false} SimAll(e: Expr, i: nat, env1: Env, st1: Store, env2: Env, st2: Store,
                                  link: Link, care: Care, quiet: bool, fuel: nat) returns (link': Link)
    requires i <= |Operands(e)|
    requires EnvRel(env1, env2, link) && StoreRel(st1, st2, link, care) && Stable(e, care) && Calm(care)
    ensures var m1, m2 := EvalAll(e, i, env1, st1, false, fuel), EvalAll(e, i, env2, st2, quiet, fuel);
            OperatedRel(m1, m2, link', care, quiet)
    ensures Extends(link, link', st1, st2)
    decreases fuel, e, 1, |Operands(e)| - i
  {
    link' := link;
    if i == |Operands(e)| {
      ExtendsSelf(link, st1, st2);
      AllRelNil(link, care);
    }
    hide StoreRel, EnvRel, ValRel, AllRel, Extends, Stable, Calm, Grows, Operands, Eval, Prepend;
    if i < |Operands(e)| {
      var o := Operands(e)[i];
      StableOperand(e, i, care);
      var link1 := Sim(o, env1, st1, env2, st2, link, care, quiet, fuel);
      link' := link1;
      var r1, r2 := Eval(o, env1, st1, false, fuel), Eval(o, env2, st2, quiet, fuel);
      if r1.Done? {
        EnvRelLater(env1, env2, link, link1, st1, st2);
        link' := SimAll(e, i + 1, env1, r1.store, env2, r2.store, link1, care, quiet, fuel);
        StoresGrow(st1, r1.store, st2, r2.store);
        ExtendsTrans(link, link1, link', st1, st2, r1.store, r2.store);
        ValRelLater(r1.value, r2.value, link1, link', care, r1.store, r2.store);
        var m1 := EvalAll(e, i + 1, env1, r1.store, false, fuel);
        var m2 := EvalAll(e, i + 1, env2, r2.store, quiet, fuel);
        OperatedCons(r1, r2, m1, m2, link', care, quiet);
      }
    }
  }

  lemma {:induction false} SimApply(e: Expr, vs1: seq<Value>, vs2: seq<Value>, env1: Env, st1: Store, env2: Env,
                                    st2: Store, link: Link, care: Care, quiet: bool, fuel: nat) returns (link': Link)
    requires |vs1| == |vs2| == |Operands(e)|
    requires EnvRel(env1, env2, link) && StoreRel(st1, st2, link, care) && Stable(e, care) && Calm(care)
    requires AllRel(vs1, vs2, link, care)
    ensures OutcomeRel(Apply(e, vs1, env1, st1, false, fuel), Apply(e, vs2, env2, st2, quiet, fuel), link', care, quiet)
    ensures Extends(link, link', st1, st2)
    decreases fuel, e, 2
  {
    hide StoreRel, EnvRel, Extends, OutcomeRel, Stable, Calm, BlockStable, Grows, ExecBlock, Iterate, Invoke, Again,
         Act, Prepend, Eval, CellRel;
    link' := link;
    ExtendsSelf(link, st1, st2);
    StableParts(e, care);
    var r2 := Apply(e, vs2, env2, st2, quiet, fuel);
    FailRel(r2, link, care, quiet);
    DoneRel(UnitV, st1, st2, link, care, quiet);
    match e
    case If(_, t, f) =>
      if vs1[0].BoolV? {
        assert Bodies(e)[0] == t && Bodies(e)[1] == f;
        link' := SimBlock(if vs1[0].b then t else f, env1, st1, env2, st2, link, care, quiet, fuel);
      }
    case While(_, b) =>
      assert Bodies(e)[0] == b;
      if vs1[0].BoolV? && vs1[0].b && fuel > 0 {
        link' := SimAgain(e, b, env1, st1, env2, st2, link, care, quiet, fuel);
      }
    case For(y, _, b) =>
      assert Bodies(e)[0] == b;
      if vs1[0].ArrV? {
        link' := SimIterate(y, vs1[0].elems, b, false, env1, st1, env2, st2, link, care, quiet, fuel);
      }
    case MethodCall(_, Each, _, Some(l)) =>
      assert Bodies(e)[0] == l.body;
      if vs1[0].ArrV? {
        link' := SimIterate(l.param, vs1[0].elems, l.body, true, env1, st1, env2, st2, link, care, quiet, fuel);
      }
    case Block(b) =>
      assert Bodies(e)[0] == b;
      link' := SimBlock(b, env1, st1, env2, st2, link, care, quiet, fuel);
    case Unsafe(b) =>
      assert Bodies(e)[0] == b;
      link' := SimBlock(b, env1, st1, env2, st2, link, care, quiet, fuel);
    case ClosureCall(_, _) =>
      if vs1[0].CloV? && fuel > 0 {
        link' := SimInvoke(vs1[0], vs1[1], vs2[0], vs2[1], st1, st2, link, care, quiet, fuel - 1);
      }
    case _ => SimAct(e, vs1, vs2, env1, st1, env2, st2, link, care, quiet);
  }

  lemma {:induction false} SimAgain(e: Expr, b: seq<Stmt>, env1: Env, st1: Store, env2: Env, st2: Store,
                                    link: Link, care: Care, quiet: bool, fuel: nat) returns (link': Link)
    requires fuel > 0 && Stable(e, care) && BlockStable(b, care) && Calm(care)
    requires EnvRel(env1, env2, link) && StoreRel(st1, st2, link, care)
    ensures OutcomeRel(Again(e, b, env1, st1, false, fuel), Again(e, b, env2, st2, quiet, fuel), link', care, quiet)
    ensures Extends(link, link', st1, st2)
    decreases fuel, b, 1
  {
    hide StoreRel, EnvRel, ValRel, Extends, Stable, Calm, BlockStable, Grows, ExecBlock, Eval;
    link' := SimBlock(b, env1, st1, env2, st2, link, care, quiet, fuel);
    var r1, r2 := ExecBlock(b, env1, st1, false, fuel), ExecBlock(b, env2, st2, quiet, fuel);
    if r1.Done? {
      var link1 := link';
      EnvRelLater(env1, env2, link, link1, st1, st2);
      link' := Sim(e, env1, r1.store, env2, r2.store, link1, care, quiet, fuel - 1);
      StoresGrow(st1, r1.store, st2, r2.store);
      ExtendsTrans(link, link1, link', st1, st2, r1.store, r2.store);
    }
  }

  lemma {:induction false} SimInvoke(f1: Value, v1: Value, f2: Value, v2: Value, st1: Store, st2: Store,
                                     link: Link, care: Care, quiet: bool, fuel: nat) returns (link': Link)
    requires f1.CloV? && ValRel(f1, f2, link, care) && ValRel(v1, v2, link, care) && StoreRel(st1, st2, link, care)
    requires Calm(care) && care.calls
    ensures OutcomeRel(Invoke(f1, v1, st1, false, fuel), Invoke(f2, v2, st2, quiet, fuel), link', care, quiet)
    ensures Extends(link, link', st1, st2)
    decreases fuel, f1.lambda.body, 1
  {
    var x, body := f1.lambda.param, f1.lambda.body;
    var link0 := link[|st1| := |st2|];
    LinkAlloc(st1, st2, link, care, x, v1, v2);
    EnvRelExtends(f1.env, f2.env, link, link0);
    assert BlockStable(body, care);
    link' := SimBlock(body, f1.env[x := |st1|], Alloc(st1, x, v1), f2.env[x := |st2|], Alloc(st2, x, v2),
                      link0, care, quiet, fuel);
  }

  lemma SimPut(x: string, v1: Value, v2: Value, env1: Env, st1: Store, env2: Env, st2: Store, link: Link, care: Care)
    requires EnvRel(env1, env2, link) && StoreRel(st1, st2, link, care)
    requires if x in care.hidden then SameKind(v1, v2) else ValRel(v1, v2, link, care)
    ensures OutcomeRel(Put(x, v1, env1, st1), Put(x, v2, env2, st2), link, care, false)
  {
    if Bound(x, env1, st1) {
      assert CellRel(env1[x], st1, st2, link, care);
      if x in care.hidden {
        LinkWriteHidden(st1, st2, link, care, env1[x], v1, v2);
      } else {
        LinkWrite(st1, st2, link, care, env1[x], v1, v2);
      }
    }
  }

  /** What a variable holds on the two sides. */
  lemma SimRead(x: string, env1: Env, st1: Store, env2: Env, st2: Store, link: Link, care: Care)
    requires EnvRel(env1, env2, link) && StoreRel(st1, st2, link, care) && Bound(x, env1, st1)
    ensures Bound(x, env2, st2) && SameKind(st1[env1[x]].value, st2[env2[x]].value)
    ensures x !in care.hidden ==> ValRel(st1[env1[x]].value, st2[env2[x]].value, link, care)
  {
    assert CellRel(env1[x], st1, st2, link, care);
  }

  lemma SimCapture(l: Lambda, env1: Env, env2: Env, link: Link)
    requires EnvRel(env1, env2, link)
    ensures EnvRel(Capture(l, env1), Capture(l, env2), link)
  {
  }

  lemma SimCallOnArray(m: Method, x: string, k: Word, env1: Env, st1: Store, env2: Env, st2: Store, link: Link,
                       care: Care)
    requires EnvRel(env1, env2, link) && StoreRel(st1, st2, link, care) && x !in care.hidden
    ensures OutcomeRel(CallOnArray(m, x, k, env1, st1), CallOnArray(m, x, k, env2, st2), link, care, false)
  {
    if Bound(x, env1, st1) { SimRead(x, env1, st1, env2, st2, link, care); }
    if Bound(x, env1, st1) && st1[env1[x]].value.ArrV? {
      var a := st1[env1[x]].value.elems;
      SimPut(x, ArrV(a + [k]), ArrV(a + [k]), env1, st1, env2, st2, link, care);
      if 0 <= k < |a| {
        assert CellRel(env1[x], st1, st2, link, care);
        LinkWrite(st1, st2, link, care, env1[x], ArrV(a[..k] + a[k + 1..]), ArrV(a[..k] + a[k + 1..]));
      }
    }
  }

  /** Assigning, even a hidden variable: what it held goes nowhere but back into it. */
  lemma SimAssign(e: Expr, vs1: seq<Value>, vs2: seq<Value>, env1: Env, st1: Store, env2: Env, st2: Store,
                  link: Link, care: Care, quiet: bool)
    requires (e.Assign? || e.CompoundAssign?) && |vs1| == |vs2| == 1
    requires EnvRel(env1, env2, link) && StoreRel(st1, st2, link, care) && AllRel(vs1, vs2, link, care)
    ensures OutcomeRel(Act(e, vs1, env1, st1, false), Act(e, vs2, env2, st2, quiet), link, care, quiet)
  {
    hide StoreRel, EnvRel, Put, Grows, Wrap;
    assert ValRel(vs1[0], vs2[0], link, care);
    if e.Assign? {
      SimPut(e.target, vs1[0], vs2[0], env1, st1, env2, st2, link, care);
    } else if Bound(e.target, env1, st1) {
      SimRead(e.target, env1, st1, env2, st2, link, care);
      var u1 := Compute(e.op, st1[env1[e.target]].value, vs1[0]);
      var u2 := Compute(e.op, st2[env2[e.target]].value, vs2[0]);
      if u1.Some? { SimPut(e.target, u1.value, u2.value, env1, st1, env2, st2, link, care); }
    }
  }

  lemma SimAct(e: Expr, vs1: seq<Value>, vs2: seq<Value>, env1: Env, st1: Store, env2: Env, st2: Store,
               link: Link, care: Care, quiet: bool)
    requires |vs1| == |vs2| == |Operands(e)|
    requires EnvRel(env1, env2, link) && StoreRel(st1, st2, link, care) && Stable(e, care)
    requires AllRel(vs1, vs2, link, care)
    ensures OutcomeRel(Act(e, vs1, env1, st1, false), Act(e, vs2, env2, st2, quiet), link, care, quiet)
  {
    hide StoreRel, EnvRel, Put, CallOnArray, Capture, Grows, Upto;
    match e
    case Ident(x) =>
      if Bound(x, env1, st1) { SimRead(x, env1, st1, env2, st2, link, care); }
    case Closure(l) => SimCapture(l, env1, env2, link);
    case Assign(_, _) => SimAssign(e, vs1, vs2, env1, st1, env2, st2, link, care, quiet);
    case CompoundAssign(_, _, _) => SimAssign(e, vs1, vs2, env1, st1, env2, st2, link, care, quiet);
    case MethodCall(o, m, _, _) =>
      if o.Ident? && vs1[1].IntV? {
        assert Operands(e)[0] == o;
        SimCallOnArray(m, o.name, vs1[1].n, env1, st1, env2, st2, link, care);
      }
    case _ => SimPlainAct(e, vs1, vs2, env1, st1, env2, st2, link, care, quiet);
  }

  /** Actions that use neither scope nor store. */
  lemma SimPlainAct(e: Expr, vs1: seq<Value>, vs2: seq<Value>, env1: Env, st1: Store, env2: Env, st2: Store,
                    link: Link, care: Care, quiet: bool)
    requires |vs1| == |vs2| == |Operands(e)| && AllRel(vs1, vs2, link, care) && StoreRel(st1, st2, link, care)
    requires !e.Ident? && !e.Closure? && !e.Assign? && !e.CompoundAssign? && !e.MethodCall?
    ensures OutcomeRel(Act(e, vs1, env1, st1, false), Act(e, vs2, env2, st2, quiet), link, care, quiet)
  {
    hide StoreRel, EnvRel, Capture, Grows, Upto, Wrap;
  }

  /** Declaring a variable on both sides keeps the correspondence of scopes. */
  lemma LinkLet(x: string, env1: Env, st1: Store, v1: Value, env2: Env, st2: Store, v2: Value, link: Link, care: Care)
    returns (link': Link)
    requires EnvRel(env1, env2, link) && StoreRel(st1, st2, link, care) && ValRel(v1, v2, link, care)
    ensures StoreRel(Alloc(st1, x, v1), Alloc(st2, x, v2), link', care)
    ensures EnvRel(env1[x := |st1|], env2[x := |st2|], link')
    ensures Extends(link, link', st1, st2)
  {
    link' := link[|st1| := |st2|];
    LinkAlloc(st1, st2, link, care, x, v1, v2);
    EnvRelExtends(env1, env2, link, link');
    EnvRelBind(env1, env2, link', x, |st1|);
  }

  lemma {:induction false} SimStmt(s: Stmt, env1: Env, st1: Store, env2: Env, st2: Store,
                                   link: Link, care: Care, quiet: bool, fuel: nat) returns (link': Link)
    requires EnvRel(env1, env2, link) && StoreRel(st1, st2, link, care) && Stable(Code(s), care) && Calm(care)
    ensures var r1, r2 := ExecStmt(s, env1, st1, false, fuel), ExecStmt(s, env2, st2, quiet, fuel);
            && OutcomeRel(r1, r2, link', care, quiet)
            && (r1.Done? ==> EnvRel(EnvAfter(s, env1, r1.store), EnvAfter(s, env2, r2.store), link'))
    ensures Extends(link, link', st1, st2)
    decreases fuel, s, 0
  {
    hide StoreRel, EnvRel, Extends, Stable, Calm, Grows, Eval;
    link' := Sim(Code(s), env1, st1, env2, st2, link, care, quiet, fuel);
    var r1, r2 := Eval(Code(s), env1, st1, false, fuel), Eval(Code(s), env2, st2, quiet, fuel);
    if r1.Done? {
      EnvRelLater(env1, env2, link, link', st1, st2);
      if s.Let? {
        var link1 := link';
        link' := LinkLet(s.name, env1, r1.store, r1.value, env2, r2.store, r2.value, link1, care);
        StoresGrow(st1, r1.store, st2, r2.store);
        ExtendsTrans(link, link1, link', st1, st2, r1.store, r2.store);
      }
    }
  }

  lemma {:induction false} SimBlock(ss: seq<Stmt>, env1: Env, st1: Store, env2: Env, st2: Store,
                                    link: Link, care: Care, quiet: bool, fuel: nat) returns (link': Link)
    requires EnvRel(env1, env2, link) && StoreRel(st1, st2, link, care) && BlockStable(ss, care) && Calm(care)
    ensures OutcomeRel(ExecBlock(ss, env1, st1, false, fuel), ExecBlock(ss, env2, st2, quiet, fuel), link', care, quiet)
    ensures Extends(link, link', st1, st2)
    decreases fuel, ss, 0
  {
    link' := link;
    if ss != [] {
      link' := SimStmt(ss[0], env1, st1, env2, st2, link, care, quiet, fuel);
      var r1, r2 := ExecStmt(ss[0], env1, st1, false, fuel), ExecStmt(ss[0], env2, st2, quiet, fuel);
      if r1.Done? && |ss| > 1 {
        link' := SimBlock(ss[1..], EnvAfter(ss[0], env1, r1.store), r1.store,
                          EnvAfter(ss[0], env2, r2.store), r2.store, link', care, quiet, fuel);
      }
    }
  }

  lemma {:induction false} SimIterate(y: string, elems: seq<Word>, body: seq<Stmt>, asLambda: bool,
                                      env1: Env, st1: Store, env2: Env, st2: Store,
                                      link: Link, care: Care, quiet: bool, fuel: nat) returns (link': Link)
    requires EnvRel(env1, env2, link) && StoreRel(st1, st2, link, care) && BlockStable(body, care) && Calm(care)
    ensures OutcomeRel(Iterate(y, elems, body, asLambda, env1, st1, false, fuel),
                       Iterate(y, elems, body, asLambda, env2, st2, quiet, fuel), link', care, quiet)
    ensures Extends(link, link', st1, st2)
    decreases fuel, body, |elems| + 1
  {
    link' := link;
    ExtendsSelf(link, st1, st2);
    hide StoreRel, EnvRel, Extends, BlockStable, Grows, ExecBlock;
    if elems != [] {
      var v := IntV(elems[0]);
      var link0 := LinkLet(y, env1, st1, v, env2, st2, v, link, care);
      var a1, a2 := Alloc(st1, y, v), Alloc(st2, y, v);
      link' := SimBlock(body, env1[y := |st1|], a1, env2[y := |st2|], a2, link0, care, quiet, fuel);
      var r1 := ExecBlock(body, env1[y := |st1|], a1, false, fuel);
      var r2 := ExecBlock(body, env2[y := |st2|], a2, quiet, fuel);
      ExtendsTrans(link, link0, link', st1, st2, a1, a2);
      if r1.Done? || (r1.Returned? && asLambda) {
        var link1 := link';
        EnvRelLater(env1, env2, link, link1, st1, st2);
        link' := SimIterate(y, elems[1..], body, asLambda, env1, r1.store, env2, r2.store, link1, care, quiet, fuel);
        StoresGrow(a1, r1.store, a2, r2.store);
        ExtendsTrans(link, link1, link', st1, st2, r1.store, r2.store);
      }
    }
  }
}
