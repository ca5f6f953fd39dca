/** A replayed statement reads a slot variable as it is now, not as it was when the statement first ran:
    exactly when that matters. */
module ReplReads {
  import opened Common
  import opened ReplSyntax
  import opened ReplSemantics
  import opened ReplSteps
  import opened ReplFrames
  import opened ReplSimulation
  import opened ReplSession
  import opened ReplReplay
  import opened ReplRuns
  import opened ReplTheorems
  import opened ReplKinds
  import opened ReplFaithful
  import opened ReplReturns
  import opened ReplCollision
  import opened ReplLosses

  // ---------------------------------------------------------------------------------------
  // What an expression over variables is worth.
  // ---------------------------------------------------------------------------------------

  /** `e` is built from numbers and the variables `xs` by operators. */
  predicate Formula(e: Expr, xs: set<string>)
    decreases e
  {
    match e
    case IntLit(_) => true
    case Ident(x) => x in xs
    case Binary(_, l, r) => Formula(l, xs) && Formula(r, xs)
    case _ => false
  }

  /** What such an expression is worth where the variables are worth `at`. */
  function Worth(e: Expr, at: map<string, Word>): Option<Value>
    decreases e
  {
    match e
    case IntLit(n) => Some(IntV(n))
    case Ident(x) => if x in at then Some(IntV(at[x])) else None
    case Binary(op, l, r) =>
      if Worth(l, at).Some? && Worth(r, at).Some? then Compute(op, Worth(l, at).value, Worth(r, at).value) else None
    case _ => None
  }

  /** What the variables `xs` are worth in a scope, where they are `Int`s. */
  function IntsIn(xs: set<string>, env: Env, st: Store): map<string, Word> {
    map x | x in xs && Bound(x, env, st) && st[env[x]].value.IntV? :: st[env[x]].value.n
  }

  /** What the slots hold. */
  function SlotInts(vars: seq<VarSlot>, slots: seq<Word>): map<string, Word> {
    map x | x in Names(vars) && Position(vars, x) < |vars| && vars[Position(vars, x)].idx < |slots| ::
      slots[vars[Position(vars, x)].idx]
  }

  /** Running the expression finds its worth and does nothing else. */
  lemma {:induction false} FormulaRuns(e: Expr, xs: set<string>, env: Env, st: Store, quiet: bool, fuel: nat)
    requires Formula(e, xs) && Eval(e, env, st, quiet, fuel).Done?
    requires e.Ident? ==> Eval(e, env, st, quiet, fuel).value.IntV?
    ensures var r := Eval(e, env, st, quiet, fuel);
            r.store == st && r.out == [] && Worth(e, IntsIn(xs, env, st)) == Some(r.value)
    decreases e
  {
    hide Eval, IntsIn;
    match e
    case IntLit(_) => EvalLeaf(e, env, st, quiet, fuel);
    case Ident(x) => VariableRuns(x, xs, env, st, quiet, fuel);
    case Binary(op, l, r) =>
      BinaryRan(e, env, st, quiet, fuel);
      EvalBinary(e, env, st, quiet, fuel);
      FormulaRuns(l, xs, env, st, quiet, fuel);
      FormulaRuns(r, xs, env, st, quiet, fuel);
  }

  lemma VariableRuns(x: string, xs: set<string>, env: Env, st: Store, quiet: bool, fuel: nat)
    requires x in xs && Eval(Ident(x), env, st, quiet, fuel).Done?
    requires Eval(Ident(x), env, st, quiet, fuel).value.IntV?
    ensures Bound(x, env, st) && Eval(Ident(x), env, st, quiet, fuel) == Done(st[env[x]].value, st, [])
    ensures x in IntsIn(xs, env, st) && IntsIn(xs, env, st)[x] == st[env[x]].value.n
  {
    assert EvalAll(Ident(x), 0, env, st, quiet, fuel) == All([], st, []);
    assert Apply(Ident(x), [], env, st, quiet, fuel) == Act(Ident(x), [], env, st, quiet);
  }

  /** Only the variables of the expression matter. */
  lemma {:induction false} WorthDepends(e: Expr, xs: set<string>, at: map<string, Word>, at2: map<string, Word>)
    requires Formula(e, xs) && forall x :: x in xs ==> (x in at <==> x in at2) && (x in at ==> at[x] == at2[x])
    ensures Worth(e, at) == Worth(e, at2)
    decreases e
  {
    if e.Binary? {
      WorthDepends(e.left, xs, at, at2);
      WorthDepends(e.right, xs, at, at2);
    }
  }

  /** Pushing the expression appends its worth. */
  lemma PushOfFormula(v: string, e: Expr, xs: set<string>, env: Env, st: Store, quiet: bool, fuel: nat)
    requires HoldsArray(v, env, st) && Formula(e, xs)
    requires Eval(MethodCall(Ident(v), Push, e, None), env, st, quiet, fuel).Done?
    ensures var u := Worth(e, IntsIn(xs, env, st));
            && u.Some? && u.value.IntV?
            && Eval(MethodCall(Ident(v), Push, e, None), env, st, quiet, fuel).store
               == st[env[v] := Cell(v, ArrV(st[env[v]].value.elems + [u.value.n]))]
  {
    hide Eval, Worth, IntsIn, Formula;
    var push := MethodCall(Ident(v), Push, e, None);
    BinaryRan(push, env, st, quiet, fuel);
    EvalLeaf(Ident(v), env, st, quiet, fuel);
    EvalBinary(push, env, st, quiet, fuel);
    FormulaRuns(e, xs, env, st, quiet, fuel);
  }

  // ---------------------------------------------------------------------------------------
  // The replayed push.
  // ---------------------------------------------------------------------------------------

  /** The variables `xs` have slots, which the replay does not write. */
  ghost predicate Loaded(inputs: seq<Input>, names: set<string>, lets: set<string>, xs: set<string>) {
    xs <= names && forall x :: x in xs ==> !Stirred(inputs, names, lets, x)
  }

  /** To the replay they are worth what the slots hold. */
  lemma ReplayReadsSlots(inputs: seq<Input>, k: nat, vars: seq<VarSlot>, slots: seq<Word>, lets: set<string>, w: Top,
                         xs: set<string>, e: Expr)
    requires GoodVars(vars, slots) && WrapperTidy(inputs, k, vars, slots, lets, w)
    requires Loaded(inputs, Names(vars), lets, xs) && Formula(e, xs)
    ensures Worth(e, IntsIn(xs, w.env, w.st)) == Worth(e, SlotInts(vars, slots))
  {
    hide Stirred, TidyStore, TidyEnv, Worth, Formula;
    forall x | x in xs
      ensures x in IntsIn(xs, w.env, w.st) && x in SlotInts(vars, slots)
      ensures IntsIn(xs, w.env, w.st)[x] == SlotInts(vars, slots)[x]
    {
      var i :| 0 <= i < |vars| && vars[i].name == x;
      assert Position(vars, x) == i;
      assert w.st[i].value == IntV(slots[vars[i].idx]);
    }
    WorthDepends(e, xs, IntsIn(xs, w.env, w.st), SlotInts(vars, slots));
  }

  /** What a history pushes onto `v` with its `k`-th input. */
  ghost predicate PushesFormula(inputs: seq<Input>, k: nat, v: string, e: Expr, xs: set<string>) {
    k < |inputs| && inputs[k] == ExprIn(MethodCall(Ident(v), Push, e, None)) && Formula(e, xs)
  }

  lemma PushIsReplayed(inputs: seq<Input>, k: nat, v: string, e: Expr, xs: set<string>, names: set<string>,
                       lets: set<string>)
    requires PushesFormula(inputs, k, v, e, xs)
    ensures var s := StmtOf(inputs[k]);
            && IsReplayed(inputs[k], names, lets) && RewriteForReplay(s, names, lets) == Some(s) && s.Expression?
            && CodeAt(inputs, k) == MethodCall(Ident(v), Push, e, None)
  {
  }

  /** The replay appends to the array it has rebuilt what the slots make of the expression. */
  lemma ReplayPushes(inputs: seq<Input>, k: nat, vars: seq<VarSlot>, slots: seq<Word>, lets: set<string>,
                     v: string, e: Expr, xs: set<string>, fuel: nat)
    requires Setting(inputs, k, vars, slots, lets, fuel) && Watched(inputs, k, Names(vars), v, fuel)
    requires PushesFormula(inputs, k, v, e, xs) && Loaded(inputs, Names(vars), lets, xs)
    requires Replayed(inputs, k + 1, vars, slots, lets, fuel).Going?
    ensures var p, w := Program(inputs[..k], fuel), Replayed(inputs, k + 1, vars, slots, lets, fuel);
            var u := Worth(e, SlotInts(vars, slots));
            && u.Some? && u.value.IntV? && WrapperTidy(inputs, k + 1, vars, slots, lets, w)
            && Bound(v, w.env, w.st)
            && ValueIn(v, w.env, w.st) == Some(ArrV(p.st[p.env[v]].value.elems + [u.value.n]))
  {
    hide Replayed, Program, Setting, Stirred, SteadySlots, SlotsInPlace, TidyStore, TidyEnv, OwnLinks, LiveLinks,
         SlotLinks, Eval, Worth, IntsIn, SlotInts, Rests, IsReplayed, Formula;
    SettingParts(inputs, k, vars, slots, lets, fuel);
    ReplayedStep(inputs, k, vars, slots, lets, fuel);
    PushIsReplayed(inputs, k, v, e, xs, Names(vars), lets);
    var link := Rebuild(inputs, k, k, vars, slots, lets, fuel);
    WrapperGoesOn(inputs, k, vars, slots, lets, fuel);
    var p, w := Program(inputs[..k], fuel), Replayed(inputs, k, vars, slots, lets, fuel);
    assert CellRel(p.env[v], p.st, w.st, link, CareTo(inputs, k, Names(vars), lets));
    ReplayReadsSlots(inputs, k, vars, slots, lets, w, xs, e);
    PushOfFormula(v, e, xs, w.env, w.st, true, fuel);
  }

  /** The program has appended what the expression was worth then. */
  lemma ProgramPushes(inputs: seq<Input>, k: nat, names: set<string>, v: string, e: Expr, xs: set<string>, fuel: nat)
    requires Watched(inputs, k, names, v, fuel) && PushesFormula(inputs, k, v, e, xs) && Program(inputs, fuel).Going?
    ensures var p, t := Program(inputs[..k], fuel), Program(inputs, fuel);
            var u := Worth(e, IntsIn(xs, p.env, p.st));
            && u.Some? && u.value.IntV?
            && ValueIn(v, t.env, t.st) == Some(ArrV(p.st[p.env[v]].value.elems + [u.value.n]))
  {
    hide Program, Eval, Worth, IntsIn, Rests, Formula;
    ProgramPrefix(inputs, k + 1, fuel);
    ProgramStep(inputs, k, fuel);
    ProgramRests(inputs, k, names, v, fuel);
    var p := Program(inputs[..k], fuel);
    PushOfFormula(v, e, xs, p.env, p.st, false, fuel);
  }

  /** In a history that replays exactly up to the `k`-th input, which pushes an expression over variables
      with slots onto an array at rest afterwards, every later wrapper has the array the program has exactly
      if the slots give the expression the worth the variables gave it then. */
  lemma StaleFormulaIff(inputs: seq<Input>, k: nat, inp: Input, s: Sess, v: string, e: Expr, xs: set<string>,
                        fuel: nat)
    requires IntactTo(inputs, k, inp, s, fuel) && Watched(inputs, k, NamesFor(inputs, inp), v, fuel)
    requires PushesFormula(inputs, k, v, e, xs) && Loaded(inputs, NamesFor(inputs, inp), LetSet(inputs), xs)
    ensures var p, t := Program(inputs[..k], fuel), Program(inputs, fuel);
            && p.Going? && t.Going?
            && (WrapperSees(s, inp, v, fuel) == ValueIn(v, t.env, t.st) <==>
                Worth(e, SlotInts(Probe(s.vars, inp), s.slots)) == Worth(e, IntsIn(xs, p.env, p.st)))
    ensures var p, u := Program(inputs[..k], fuel), Worth(e, SlotInts(Probe(s.vars, inp), s.slots));
            && u.Some? && u.value.IntV? && HoldsArray(v, p.env, p.st)
            && WrapperSees(s, inp, v, fuel) == Some(ArrV(p.st[p.env[v]].value.elems + [u.value.n]))
  {
    hide Program, RunW, Replayed, Setting, Prefix, GoodVars, SlotsInPlace, Synced, WrapperSees, Probe, ValueIn, Worth,
         PrefixCompletes, LetSet, IntactTo, NamesFor, SlotInts, IntsIn, TidyStore, SteadySlots, Loaded, PushesFormula;
    var vars, lets := Probe(s.vars, inp), LetSet(inputs);
    IntactParts(inputs, k, inp, s, fuel);
    ReplayEnds(inputs, inp, s, fuel);
    ReplayGoesBack(inputs, k + 1, |inputs|, vars, s.slots, lets, fuel);
    ReplayPushes(inputs, k, vars, s.slots, lets, v, e, xs, fuel);
    ReplayRests(inputs, k + 1, |inputs|, vars, s.slots, lets, v, fuel);
    WrapperSeesReplay(inputs, inp, s, v, fuel);
    ProgramPushes(inputs, k, Names(vars), v, e, xs, fuel);
    var p := Program(inputs[..k], fuel);
    SameAppended(p.st[p.env[v]].value.elems, Worth(e, SlotInts(vars, s.slots)), Worth(e, IntsIn(xs, p.env, p.st)));
  }

  lemma SameAppended(a: seq<Word>, u: Option<Value>, w: Option<Value>)
    requires u.Some? && w.Some? && u.value.IntV? && w.value.IntV?
    ensures Some(ArrV(a + [u.value.n])) == Some(ArrV(a + [w.value.n])) <==> u == w
  {
    assert (a + [u.value.n])[|a|] == u.value.n && (a + [w.value.n])[|a|] == w.value.n;
  }

  /** For one variable: the wrapper's array is the program's exactly if the slot holds what the variable held
      when the push first ran. */
  lemma StaleReadIff(inputs: seq<Input>, k: nat, inp: Input, s: Sess, v: string, i: nat, fuel: nat)
    requires IntactTo(inputs, k, inp, s, fuel) && Watched(inputs, k, NamesFor(inputs, inp), v, fuel)
    requires var vars := Probe(s.vars, inp);
             && i < |vars| && vars[i].idx < |s.slots|
             && k < |inputs| && inputs[k] == ExprIn(MethodCall(Ident(v), Push, Ident(vars[i].name), None))
             && !Stirred(inputs, NamesFor(inputs, inp), LetSet(inputs), vars[i].name)
    ensures var p, t, vars := Program(inputs[..k], fuel), Program(inputs, fuel), Probe(s.vars, inp);
            && p.Going? && t.Going?
            && (WrapperSees(s, inp, v, fuel) == ValueIn(v, t.env, t.st) <==>
                ValueIn(vars[i].name, p.env, p.st) == Some(IntV(s.slots[vars[i].idx])))
  {
    hide Program, Synced, WrapperSees, Probe, PrefixCompletes, LetSet, IntactTo, NamesFor, SlotInts, Watched;
    var vars := Probe(s.vars, inp);
    var x := vars[i].name;
    IntactParts(inputs, k, inp, s, fuel);
    SlotIntAt(vars, s.slots, i);
    StaleFormulaIff(inputs, k, inp, s, v, Ident(x), {x}, fuel);
    var p := Program(inputs[..k], fuel);
    ProgramPushes(inputs, k, Names(vars), v, Ident(x), {x}, fuel);
    WorthOfVariable(x, p.env, p.st);
    assert Worth(Ident(x), SlotInts(vars, s.slots)) == Some(IntV(s.slots[vars[i].idx]));
  }

  lemma WorthOfVariable(x: string, env: Env, st: Store)
    requires Worth(Ident(x), IntsIn({x}, env, st)).Some?
    ensures ValueIn(x, env, st) == Worth(Ident(x), IntsIn({x}, env, st))
  {
    assert x in IntsIn({x}, env, st);
  }

  lemma SlotIntAt(vars: seq<VarSlot>, slots: seq<Word>, i: nat)
    requires GoodVars(vars, slots) && i < |vars|
    ensures var x := vars[i].name; x in Names(vars) && x in SlotInts(vars, slots)
    ensures SlotInts(vars, slots)[vars[i].name] == slots[vars[i].idx]
  {
    assert Position(vars, vars[i].name) == i;
  }

  // ---------------------------------------------------------------------------------------
  // Any replayed input.
  // ---------------------------------------------------------------------------------------

  /** A store with the given values in those variables in scope that have one. */
  function Today(at: map<string, Word>, env: Env, st: Store): (st': Store)
    ensures |st'| == |st|
  {
    seq(|st|, c requires 0 <= c < |st| =>
      if st[c].name in at && st[c].name in env && env[st[c].name] == c then Cell(st[c].name, IntV(at[st[c].name]))
      else st[c])
  }

  lemma TodayKeeps(vars: seq<VarSlot>, slots: seq<Word>, env: Env, st: Store, v: string)
    requires v !in Names(vars) && HoldsArray(v, env, st)
    ensures HoldsArray(v, env, Today(SlotInts(vars, slots), env, st))
  {
  }

  /** What a replay cannot be expected to find as the slots have it: the variables it writes itself. */
  ghost function CareFor(inputs: seq<Input>, k: nat, names: set<string>, lets: set<string>, calls: bool): Care {
    Care((iset x | x in names && Stirred(inputs, names, lets, x)), LitsTo(inputs, k + 1), calls)
  }

  /** The `k`-th input is replayed, and reads no slot variable that the replay writes, except to update that
      variable; nor do the closures known by then, if it calls any. It may read any other slot variable,
      whether that changes or not. */
  ghost predicate Rereads(inputs: seq<Input>, k: nat, names: set<string>, lets: set<string>)
    requires k < |inputs|
  {
    && IsReplayed(inputs[k], names, lets)
    && exists calls :: var care := CareFor(inputs, k, names, lets, calls); Calm(care) && Stable(CodeAt(inputs, k), care)
  }

  /** No nested variable has the name of a variable with a slot. */
  ghost predicate Unshadowed(inputs: seq<Input>, names: set<string>) {
    forall x :: x in names ==> !Touched(inputs, x, Declaring)
  }

  /** The replay's state is the program's, with today's values in the variables with slots. */
  lemma TodayIsLoaded(inputs: seq<Input>, k: nat, vars: seq<VarSlot>, slots: seq<Word>, lets: set<string>, p: Top,
                      w: Top, link: Link, calls: bool)
    requires GoodVars(vars, slots) && Rebuilt(inputs, k, vars, slots, lets, p, w, link)
    requires Unshadowed(inputs, Names(vars))
    ensures StoreRel(Today(SlotInts(vars, slots), p.env, p.st), w.st, link,
                     CareFor(inputs, k, Names(vars), lets, calls))
  {
    hide Stirred, Unshadowed, TidyStore, TidyEnv, LitsTo, VolatileAt, LiveLinks, ChangedFrom;
    LitsGrow(inputs, k, k + 1);
    var st, care := Today(SlotInts(vars, slots), p.env, p.st), CareFor(inputs, k, Names(vars), lets, calls);
    forall c | c in link ensures CellRel(c, st, w.st, link, care) {
      assert CellRel(c, p.st, w.st, link, CareTo(inputs, k, Names(vars), lets));
      if p.st[c].name in Names(vars) {
        var i :| 0 <= i < |vars| && vars[i].name == p.st[c].name;
        SlotIntAt(vars, slots, i);
        OwnCell(inputs, Names(vars), p, link, c);
      } else {
        NotVolatile(inputs, k, Names(vars), lets, p.st[c].name);
      }
    }
  }

  lemma OwnCell(inputs: seq<Input>, names: set<string>, p: Top, link: Link, c: nat)
    requires p.Going? && OwnLinks(inputs, names, p.env, p.st, link) && Unshadowed(inputs, names)
    requires c in link && c < |p.st| && p.st[c].name in names
    ensures p.st[c].name in p.env && p.env[p.st[c].name] == c
  {
  }

  /** The `k`-th input, run from the program's state before it with today's values. */
  function Rerun(inputs: seq<Input>, k: nat, vars: seq<VarSlot>, slots: seq<Word>, fuel: nat): Outcome
    requires k < |inputs| && Program(inputs[..k], fuel).Going?
  {
    var p := Program(inputs[..k], fuel);
    Eval(CodeAt(inputs, k), p.env, Today(SlotInts(vars, slots), p.env, p.st), false, fuel)
  }

  /** The value of an array after a statement that does not declare it. */
  lemma ArrayAfter(s: Stmt, kept: Stmt, env: Env, st: Store, quiet: bool, fuel: nat, v: string)
    requires Code(kept) == Code(s) && (kept.Let? ==> kept == s) && !(s.Let? && s.name == v)
    requires Bound(v, env, st) && Eval(Code(s), env, st, quiet, fuel).Done?
    ensures var r, r1 := ExecStmt(kept, env, st, quiet, fuel), Eval(Code(s), env, st, quiet, fuel);
            && r.Done? && Bound(v, EnvAfter(kept, env, r.store), r.store) && Bound(v, env, r1.store)
            && ValueIn(v, EnvAfter(kept, env, r.store), r.store) == ValueIn(v, env, r1.store)
  {
    hide Eval;
  }

  /** Replaying it does to `v` what that run does. */
  lemma ReplayReruns(inputs: seq<Input>, k: nat, vars: seq<VarSlot>, slots: seq<Word>, lets: set<string>, v: string,
                     fuel: nat)
    requires Setting(inputs, k, vars, slots, lets, fuel) && Watched(inputs, k, Names(vars), v, fuel)
    requires Rereads(inputs, k, Names(vars), lets) && Unshadowed(inputs, Names(vars))
    requires Replayed(inputs, k + 1, vars, slots, lets, fuel).Going? && Rerun(inputs, k, vars, slots, fuel).Done?
    ensures var p, w := Program(inputs[..k], fuel), Replayed(inputs, k + 1, vars, slots, lets, fuel);
            && WrapperTidy(inputs, k + 1, vars, slots, lets, w) && Bound(v, w.env, w.st)
            && ValueIn(v, w.env, w.st) == ValueIn(v, p.env, Rerun(inputs, k, vars, slots, fuel).store)
  {
    hide Replayed, Program, Setting, Stirred, SteadySlots, SlotsInPlace, TidyStore, TidyEnv, OwnLinks, LiveLinks,
         SlotLinks, Eval, SlotInts, Rests, RewriteForReplay, Stable, Calm, LitsTo, Unshadowed, ExecStmt;
    SettingParts(inputs, k, vars, slots, lets, fuel);
    ReplayedStep(inputs, k, vars, slots, lets, fuel);
    KeptForm(StmtOf(inputs[k]), Names(vars), lets);
    var link := Rebuild(inputs, k, k, vars, slots, lets, fuel);
    WrapperGoesOn(inputs, k, vars, slots, lets, fuel);
    var p, w := Program(inputs[..k], fuel), Replayed(inputs, k, vars, slots, lets, fuel);
    var calls :| Calm(CareFor(inputs, k, Names(vars), lets, calls))
              && Stable(CodeAt(inputs, k), CareFor(inputs, k, Names(vars), lets, calls));
    TodayIsLoaded(inputs, k, vars, slots, lets, p, w, link, calls);
    TodayKeeps(vars, slots, p.env, p.st, v);
    var care := CareFor(inputs, k, Names(vars), lets, calls);
    var st := Today(SlotInts(vars, slots), p.env, p.st);
    SameArray(inputs, k, p, st, w, link, care, v, fuel);
    var kept := RewriteForReplay(StmtOf(inputs[k]), Names(vars), lets).value;
    ArrayAfter(StmtOf(inputs[k]), kept, w.env, w.st, true, fuel, v);
  }

  /** Code that depends on nothing hidden does the same to an array in both states. */
  lemma SameArray(inputs: seq<Input>, k: nat, p: Top, st: Store, w: Top, link: Link, care: Care, v: string, fuel: nat)
    requires k < |inputs| && p.Going? && w.Going? && v !in care.hidden && HoldsArray(v, p.env, st)
    requires EnvRel(p.env, w.env, link) && StoreRel(st, w.st, link, care)
    requires Stable(CodeAt(inputs, k), care) && Calm(care) && Eval(CodeAt(inputs, k), p.env, st, false, fuel).Done?
    ensures var r, r2 := Eval(CodeAt(inputs, k), p.env, st, false, fuel),
              Eval(CodeAt(inputs, k), w.env, w.st, true, fuel);
            && r2.Done? && Bound(v, w.env, w.st) && Bound(v, w.env, r2.store) && Bound(v, p.env, r.store)
            && ValueIn(v, w.env, r2.store) == ValueIn(v, p.env, r.store)
  {
    hide Eval, Stable, Calm;
    var link' := Sim(CodeAt(inputs, k), p.env, st, w.env, w.st, link, care, true, fuel);
    var r, r2 := Eval(CodeAt(inputs, k), p.env, st, false, fuel), Eval(CodeAt(inputs, k), w.env, w.st, true, fuel);
    assert CellRel(p.env[v], st, w.st, link, care);
    assert CellRel(p.env[v], r.store, r2.store, link', care);
  }

  /** The exact condition for any replayed input. In a history that replays exactly up to the `k`-th input,
      every later wrapper has in `v` what that input leaves there when it is run from the state before it with
      today's values in the variables with slots; so it has what the program has exactly if that run and the
      input's own leave the same array. */
  lemma StaleInputIff(inputs: seq<Input>, k: nat, inp: Input, s: Sess, v: string, fuel: nat)
    requires IntactTo(inputs, k, inp, s, fuel) && Watched(inputs, k, NamesFor(inputs, inp), v, fuel)
    requires Rereads(inputs, k, NamesFor(inputs, inp), LetSet(inputs)) && Unshadowed(inputs, NamesFor(inputs, inp))
    requires Rerun(inputs, k, Probe(s.vars, inp), s.slots, fuel).Done?
    ensures var p, t := Program(inputs[..k], fuel), Program(inputs, fuel);
            var was, now := Eval(CodeAt(inputs, k), p.env, p.st, false, fuel),
                           Rerun(inputs, k, Probe(s.vars, inp), s.slots, fuel);
            && t.Going? && was.Done? && WrapperSees(s, inp, v, fuel) == ValueIn(v, p.env, now.store)
            && (WrapperSees(s, inp, v, fuel) == ValueIn(v, t.env, t.st) <==>
                ValueIn(v, p.env, now.store) == ValueIn(v, p.env, was.store))
  {
    hide Program, RunW, Replayed, Setting, Prefix, GoodVars, SlotsInPlace, Synced, WrapperSees, Probe, ValueIn, Eval,
         PrefixCompletes, LetSet, IntactTo, NamesFor, TidyStore, SteadySlots, Rereads, Unshadowed, Rerun;
    var vars, lets := Probe(s.vars, inp), LetSet(inputs);
    IntactParts(inputs, k, inp, s, fuel);
    ReplayEnds(inputs, inp, s, fuel);
    ReplayGoesBack(inputs, k + 1, |inputs|, vars, s.slots, lets, fuel);
    ReplayReruns(inputs, k, vars, s.slots, lets, v, fuel);
    ReplayRests(inputs, k + 1, |inputs|, vars, s.slots, lets, v, fuel);
    WrapperSeesReplay(inputs, inp, s, v, fuel);
    ProgramRests(inputs, k, Names(vars), v, fuel);
    ProgramStep(inputs, k, fuel);
    var p := Program(inputs[..k], fuel);
    ArrayAfter(StmtOf(inputs[k]), StmtOf(inputs[k]), p.env, p.st, false, fuel, v);
  }

  // ---------------------------------------------------------------------------------------
  // It shows.
  // ---------------------------------------------------------------------------------------

  /** `v.remove(0)`. */
  function FirstOf(v: string): Input {
    ExprIn(MethodCall(Ident(v), RemoveAt, IntLit(0), None))
  }

  /** It shows the first element of the array the wrapper has. */
  lemma FirstShows(inputs: seq<Input>, s: Sess, v: string, a: seq<Word>, fuel: nat)
    requires var inp := FirstOf(v);
             && Synced(inputs, s, fuel) && Admissible(inputs, inp, fuel) && PrefixCompletes(s, inp, fuel)
             && WrapperSees(s, inp, v, fuel) == Some(ArrV(a)) && !ReturnInSight(s, inp)
    requires a != []
    requires var w := Replayed(inputs, |inputs|, Probe(s.vars, FirstOf(v)), s.slots, LetSet(inputs), fuel);
             w.Going? && SlotsInPlace(Probe(s.vars, FirstOf(v)), w.env, w.st)
    ensures var r := Step(s, FirstOf(v), fuel); r.Next? && r.value == IntV(a[0])
  {
    hide RunW, RunTop, Program, CollectReplay, Prefix, GoodVars, SlotsAgree, InScope, Table, BlockMutatesSlot,
         Eval, BuildBody, BlockReaches;
    var inp, vars, lets := FirstOf(v), s.vars, LetSet(inputs);
    ProbeAgrees(inputs, inp, s, fuel);
    AtHand(inputs, inp, s, fuel);
    WholeIsPrefix(inputs);
    ReplayForIs(inputs, vars, lets);
    var w := Replayed(inputs, |inputs|, vars, s.slots, lets, fuel);
    var m := PrefixRuns(vars, s.slots, ReplayFor(inputs, vars, lets), w, fuel);
    EvalCall(v, RemoveAt, 0, m.env, m.st, false, fuel);
    var r := Eval(inp.expr, m.env, m.st, false, fuel);
    SlotsStayBound(vars, m.env, m.st, r.store);
    RunOne(Expression(inp.expr), m.env, m.st, fuel);
    BodyRuns(vars, ReplayFor(inputs, vars, lets), inp, Machine(map[], [], s.slots, false), m, fuel);
  }

  lemma SlotsStayBound(vars: seq<VarSlot>, env: Env, st: Store, st': Store)
    requires SlotsInPlace(vars, env, st) && Grows(st, st')
    ensures SlotVariablesBound(vars, env, st')
  {
  }

  lemma {:induction false} ReplaySkips(inputs: seq<Input>, k: nat, j: nat, vars: seq<VarSlot>, slots: seq<Word>,
                                       lets: set<string>, fuel: nat)
    requires k <= j <= |inputs| && GoodVars(vars, slots)
    requires forall i :: k <= i < j ==> !IsReplayed(inputs[i], Names(vars), lets)
    ensures Replayed(inputs, j, vars, slots, lets, fuel) == Replayed(inputs, k, vars, slots, lets, fuel)
    decreases j
  {
    hide Replayed, IsReplayed, GoodVars;
    if k < j {
      ReplaySkips(inputs, k, j - 1, vars, slots, lets, fuel);
      ReplayedStep(inputs, j - 1, vars, slots, lets, fuel);
    }
  }

  /** The replay of the push of a variable with a slot runs through. */
  lemma PushGoes(inputs: seq<Input>, k: nat, vars: seq<VarSlot>, slots: seq<Word>, lets: set<string>, v: string,
                 x: string, fuel: nat)
    requires Setting(inputs, k, vars, slots, lets, fuel) && Watched(inputs, k, Names(vars), v, fuel)
    requires forall i :: 0 <= i < k ==> Completes(inputs, i, Names(vars), lets, fuel)
    requires PushesFormula(inputs, k, v, Ident(x), {x}) && x in Names(vars)
    ensures Replayed(inputs, k + 1, vars, slots, lets, fuel).Going?
  {
    hide Replayed, Program, Setting, Stirred, SteadySlots, TidyStore, TidyEnv, OwnLinks, LiveLinks, Completes,
         SlotLinks, Eval, Rests, IsReplayed, LitsTo, VolatileAt, Formula, RewriteForReplay;
    SettingParts(inputs, k, vars, slots, lets, fuel);
    ReplayedStep(inputs, k, vars, slots, lets, fuel);
    PushIsReplayed(inputs, k, v, Ident(x), {x}, Names(vars), lets);
    var link := ReplayCompletes(inputs, k, k, vars, slots, lets, fuel);
    var p, w := Program(inputs[..k], fuel), Replayed(inputs, k, vars, slots, lets, fuel);
    assert CellRel(p.env[v], p.st, w.st, link, CareTo(inputs, k, Names(vars), lets));
    var i :| 0 <= i < |vars| && vars[i].name == x;
    PushRunsWith(v, x, w.env, w.st, fuel);
  }

  lemma PushRunsWith(v: string, x: string, env: Env, st: Store, fuel: nat)
    requires HoldsArray(v, env, st) && Bound(x, env, st) && st[env[x]].value.IntV?
    ensures Eval(MethodCall(Ident(v), Push, Ident(x), None), env, st, true, fuel).Done?
  {
    hide Eval;
    EvalLeaf(Ident(v), env, st, true, fuel);
    EvalLeaf(Ident(x), env, st, true, fuel);
    EvalBinary(MethodCall(Ident(v), Push, Ident(x), None), env, st, true, fuel);
  }

  /** If the first `k` inputs complete, the `k`-th is such a push and the later ones are not replayed, the next
      wrapper's prefix runs to its end. */
  lemma PrefixGoesPast(inputs: seq<Input>, k: nat, inp: Input, s: Sess, v: string, x: string, fuel: nat)
    requires Synced(inputs, s, fuel) && Admissible(inputs, inp, fuel)
    requires ReplayableTo(inputs, k, NamesFor(inputs, inp), LetSet(inputs))
    requires forall i :: 0 <= i < k && i < |inputs| ==>
               Completes(inputs, i, NamesFor(inputs, inp), LetSet(inputs), fuel)
    requires Watched(inputs, k, NamesFor(inputs, inp), v, fuel)
    requires PushesFormula(inputs, k, v, Ident(x), {x}) && x in NamesFor(inputs, inp)
    requires forall i :: k < i < |inputs| ==> !IsReplayed(inputs[i], NamesFor(inputs, inp), LetSet(inputs))
    ensures PrefixCompletes(s, inp, fuel)
  {
    hide Program, RunTop, RunW, Admissible, SlotsAgree, Completes, Setting, EnvRel, StoreRel, InScope, IsReplayed,
         TidyEnv, TidyStore, SteadySlots, SlotLinks, OwnLinks, LiveLinks, Prefix, Probe, ReplayableTo, Table, Rests,
         Replayed, Stirred, LitsTo;
    var vars, lets := Probe(s.vars, inp), LetSet(inputs);
    SettingHolds(inputs, k, inp, s, fuel);
    SettingParts(inputs, k, vars, s.slots, lets, fuel);
    PushGoes(inputs, k, vars, s.slots, lets, v, x, fuel);
    ReplaySkips(inputs, k + 1, |inputs|, vars, s.slots, lets, fuel);
    ReplayKeepsSlots(inputs, |inputs|, vars, s.slots, lets, fuel);
    WholeIsPrefix(inputs);
    ReplayIsRun(inputs, vars, s.slots, lets, fuel);
    var w := Replayed(inputs, |inputs|, vars, s.slots, lets, fuel);
    var m := PrefixRuns(vars, s.slots, ReplayFor(inputs, vars, lets), w, fuel);
  }

  lemma ReplayIsRun(inputs: seq<Input>, vars: seq<VarSlot>, slots: seq<Word>, lets: set<string>, fuel: nat)
    requires GoodVars(vars, slots)
    ensures Replayed(inputs, |inputs|, vars, slots, lets, fuel)
         == RunTop(ReplayFor(inputs, vars, lets), LoadedEnv(vars), LoadedStore(vars, slots), true, fuel)
  {
    hide RunTop, CollectReplay, LoadedEnv, LoadedStore, GoodVars;
    WholeIsPrefix(inputs);
  }

  /** A replay that runs through keeps the wrapper's discipline. */
  lemma {:induction false} ReplayKeepsSlots(inputs: seq<Input>, k: nat, vars: seq<VarSlot>, slots: seq<Word>,
                                            lets: set<string>, fuel: nat)
    requires k <= |inputs| && GoodVars(vars, slots) && Replayed(inputs, k, vars, slots, lets, fuel).Going?
    ensures WrapperTidy(inputs, k, vars, slots, lets, Replayed(inputs, k, vars, slots, lets, fuel))
    decreases k
  {
    hide Replayed, WrapperTidy, ExecStmt;
    if k == 0 {
      StartIsTidy(inputs, vars, slots, lets, fuel);
    } else {
      ReplayedStep(inputs, k - 1, vars, slots, lets, fuel);
      ReplayKeepsSlots(inputs, k - 1, vars, slots, lets, fuel);
      WrapperGoesOn(inputs, k - 1, vars, slots, lets, fuel);
    }
  }

  lemma StartIsTidy(inputs: seq<Input>, vars: seq<VarSlot>, slots: seq<Word>, lets: set<string>, fuel: nat)
    requires GoodVars(vars, slots)
    ensures WrapperTidy(inputs, 0, vars, slots, lets, Replayed(inputs, 0, vars, slots, lets, fuel))
  {
    hide Stirred, LitsTo;
    LoadedEnvAt(vars);
    assert inputs[..0] == [];
  }

  /** `let n = a`, `let v = []`, `v.push(n)`, `n = b`. */
  function PushedN(a: Word, b: Word): seq<Input> {
    [LetN(a), EmptyV(), PushOfN(), ExprIn(Assign("n", IntLit(b)))]
  }

  function EmptyV(): Input {
    LetIn(true, "v", EmptyArray, false)
  }

  function PushOfN(): Input {
    ExprIn(MethodCall(Ident("v"), Push, Ident("n"), None))
  }

  lemma PushedForm(a: Word, b: Word)
    ensures var inputs := PushedN(a, b);
            && |inputs| == 4 && inputs[..0] == [] && inputs[..1] == [LetN(a)] && inputs[..2] == [LetN(a), EmptyV()]
            && inputs[..3] == [LetN(a), EmptyV(), PushOfN()] && inputs[..2] == inputs[..1] + [EmptyV()]
            && inputs[..3] == inputs[..2] + [PushOfN()] && inputs == inputs[..3] + [inputs[3]]
            && inputs[0] == LetN(a) && inputs[1] == EmptyV() && inputs[2] == PushOfN()
            && inputs[3] == ExprIn(Assign("n", IntLit(b)))
  {
  }

  /** The scope and store of the program once both variables are declared. */
  function NAndV(): Env {
    map["n" := 0, "v" := 1]
  }

  function WithN(n: Word, a: seq<Word>): Store {
    [Cell("n", IntV(n)), Cell("v", ArrV(a))]
  }

  lemma PushOfNRuns(a: Word, fuel: nat)
    ensures Eval(PushOfN().expr, NAndV(), WithN(a, []), false, fuel) == Done(UnitV, WithN(a, [a]), [])
  {
    hide Eval;
    EvalLeaf(Ident("v"), NAndV(), WithN(a, []), false, fuel);
    EvalLeaf(Ident("n"), NAndV(), WithN(a, []), false, fuel);
    EvalBinary(PushOfN().expr, NAndV(), WithN(a, []), false, fuel);
    assert [] + [a] == [a] && WithN(a, [])[1 := Cell("v", ArrV([a]))] == WithN(a, [a]);
  }

  lemma PushedStart(a: Word, b: Word, fuel: nat)
    ensures var inputs := PushedN(a, b);
            && Program(inputs[..1], fuel) == Going(map["n" := 0], JustN(a), UnitV, [])
            && (var p := Program(inputs[..2], fuel); p.Going? && p.env == NAndV() && p.st == WithN(a, []))
  {
    hide Program, Eval, PushedN;
    var inputs := PushedN(a, b);
    PushedForm(a, b);
    LetNRuns(a, fuel);
    EvalLeaf(EmptyArray, map["n" := 0], JustN(a), false, fuel);
    ProgramGoes(inputs[..1], EmptyV(), fuel);
    assert map["n" := 0]["v" := 1] == NAndV() && JustN(a) + [Cell("v", ArrV([]))] == WithN(a, []);
  }

  lemma PushedProgram(a: Word, b: Word, fuel: nat)
    ensures var inputs := PushedN(a, b);
            && Program(inputs[..3], fuel).Going?
            && (var q := Program(inputs, fuel); q.Going? && q.env == NAndV() && q.st == WithN(b, [a]))
  {
    hide Program, Eval, PushedN;
    var inputs := PushedN(a, b);
    PushedForm(a, b);
    PushedStart(a, b, fuel);
    PushOfNRuns(a, fuel);
    ProgramGoes(inputs[..2], PushOfN(), fuel);
    EvalLeaf(IntLit(b), NAndV(), WithN(a, [a]), false, fuel);
    EvalUnary(inputs[3].expr, NAndV(), WithN(a, [a]), false, fuel);
    assert WithN(a, [a])[0 := Cell("n", IntV(b))] == WithN(b, [a]);
    ProgramGoes(inputs[..3], inputs[3], fuel);
  }

  lemma FirstInProgram(a: Word, b: Word, fuel: nat)
    ensures var t := Program(PushedN(a, b) + [FirstOf("v")], fuel); t.Going? && t.value == IntV(a)
  {
    hide Program, Eval, PushedN;
    PushedProgram(a, b, fuel);
    EvalCall("v", RemoveAt, 0, NAndV(), WithN(b, [a]), false, fuel);
    ProgramGoes(PushedN(a, b), FirstOf("v"), fuel);
  }

  lemma PushedIsPlain(a: Word, b: Word, i: nat, x: string, t: Touch)
    requires i < 4
    ensures var e := CodeAt(PushedN(a, b), i);
            && LitFree(e) && !ContainsReturn(e) && (i < 2 ==> !Writes(e, x, t))
            && (i == 2 && x == "n" && t.Mutating? ==> !Writes(e, x, t))
            && (i == 3 && x == "v" && t.Mutating? ==> !Writes(e, x, t))
            && (i == 3 && t.Calling? ==> (Writes(e, x, t) ==> x == "n"))
  {
    hide Writes, IsLit;
    var e := CodeAt(PushedN(a, b), i);
    LeafIsPlain(IntLit(a), x, t);
    LeafIsPlain(IntLit(b), x, t);
    LeafIsPlain(EmptyArray, x, t);
    LeafIsPlain(Ident("v"), x, t);
    LeafIsPlain(Ident("n"), x, t);
    if i == 2 { BinaryIsPlain(e, x, t); }
    if i == 3 { UnaryIsPlain(e, x, t); }
  }

  /** The slot table from the first input on. */
  lemma PushedTable(a: Word, b: Word, inp: Input)
    requires inp.ExprIn?
    ensures var inputs := PushedN(a, b);
            && Table(inputs[..1]) == SlotN() && Table(inputs[..2]) == SlotN() && Table(inputs[..3]) == SlotN()
            && Table(inputs) == SlotN() && Probe(SlotN(), EmptyV()) == SlotN() && Probe(SlotN(), inp) == SlotN()
            && Names(SlotN()) == {"n"}
  {
    var inputs := PushedN(a, b);
    PushedForm(a, b);
    NamesN();
    TableN(a, []);
    assert [LetN(a)] + [] == inputs[..1];
    assert ButLast(inputs) == inputs[..3] && ButLast(inputs[..3]) == inputs[..2] && ButLast(inputs[..2]) == inputs[..1];
    assert SlotN()[0].name != "v" && Position(SlotN(), "v") == 1;
  }

  /** Nothing is hidden from the first three inputs as long as `n` has not changed. */
  lemma PushedIsSteadfast(a: Word, b: Word, fuel: nat)
    ensures var front := PushedN(a, b)[..3]; Steadfast(front, {"n"}, LetSet(front), fuel) && Transparent(front, {"n"})
  {
    hide Program, PushedN, Faithful, Writes, IsLit;
    var front := [LetN(a), EmptyV(), PushOfN()];
    PushedForm(a, b);
    forall i | 0 <= i < 3 ensures LitFree(CodeAt(front, i)) {
      PushedIsPlain(a, b, i, "n", Mutating);
    }
    forall i, x, t: Touch | 0 <= i < 3
      ensures (i < 2 || (x == "n" && t.Mutating?) ==> !Writes(CodeAt(front, i), x, t))
    {
      PushedIsPlain(a, b, i, x, t);
    }
    NoAssignmentToN();
    forall i | 1 <= i < 3 ensures Faithful(front, i, {"n"}, LetSet(front)) {
      assert VolatileAt(front, i, {"n"}, LetSet(front)) == iset{};
      NothingVolatileIsFaithful(front, i, {"n"}, LetSet(front));
    }
    assert Harmless(front, 0, {"n"});
  }

  lemma NoAssignmentToN()
    ensures !Writes(PushOfN().expr, "n", Assigning)
  {
    LeafIsPlain(Ident("v"), "n", Assigning);
    LeafIsPlain(Ident("n"), "n", Assigning);
    BinaryIsPlain(PushOfN().expr, "n", Assigning);
  }

  lemma PushedIsSteady(a: Word, b: Word, fuel: nat)
    ensures Steady(PushedN(a, b), fuel)
  {
    hide Program, PushedN, SteadyAt, Table, Probe, Steadfast, Transparent;
    var inputs := PushedN(a, b);
    PushedForm(a, b);
    PushedTable(a, b, PushOfN());
    PushedTable(a, b, inputs[3]);
    PushedStart(a, b, fuel);
    LetNIsSteady(a, fuel);
    LeafIsSteady(inputs[..1], EmptyV(), SlotN(), fuel);
    LeafIsSteady(inputs[..2], PushOfN(), SlotN(), fuel);
    PushedIsSteadfast(a, b, fuel);
    PushedSteadyAt(inputs[..3], inputs[3], fuel);
  }

  lemma PushedSteadyAt(front: seq<Input>, inp: Input, fuel: nat)
    requires inp.ExprIn? && Table(front) == SlotN() && Probe(SlotN(), inp) == SlotN()
    requires Steadfast(front, {"n"}, LetSet(front), fuel) && Transparent(front, {"n"})
    ensures SteadyAt(front, inp, fuel)
  {
    hide Program, Steadfast, Transparent, Table, Probe;
    NamesN();
  }

  lemma PushedExact(a: Word, b: Word, i: nat, lets: set<string>, fuel: nat)
    requires i < 2
    ensures Completes(PushedN(a, b), i, {"n"}, lets, fuel) && Exact(PushedN(a, b), i, {"n"}, lets)
  {
    hide Program, PushedN, Writes, VolatileAt;
    var inputs := PushedN(a, b);
    PushedForm(a, b);
    if i == 0 {
      forall x ensures !Writes(CodeAt(inputs, 0), x, Calling) { PushedIsPlain(a, b, 0, x, Calling); }
      assert Harmless(inputs, 0, {"n"});
    } else {
      var care := CareAt(inputs, 1, {"n"}, lets, false);
      assert Calm(care) && Stable(EmptyArray, care);
      assert Faithful(inputs, 1, {"n"}, lets);
    }
  }

  /** What the theorem asks of the history. */
  lemma PushedIsWatched(a: Word, b: Word, lets: set<string>, fuel: nat)
    ensures var inputs := PushedN(a, b);
            && ReplayableTo(inputs, 2, {"n"}, lets) && Watched(inputs, 2, {"n"}, "v", fuel)
            && PushesFormula(inputs, 2, "v", Ident("n"), {"n"}) && !Stirred(inputs, {"n"}, lets, "n")
            && !IsReplayed(inputs[3], {"n"}, lets)
  {
    hide Program, PushedN, Exact, Writes, IsLit, VolatileAt;
    var inputs := PushedN(a, b);
    PushedForm(a, b);
    PushedStart(a, b, fuel);
    forall i | 0 <= i < 4
      ensures LitFree(CodeAt(inputs, i))
      ensures (i < 3 ==> !Writes(CodeAt(inputs, i), "n", Mutating))
      ensures (i == 3 ==> !Writes(CodeAt(inputs, i), "v", Mutating))
    {
      PushedIsPlain(a, b, i, "n", Mutating);
      PushedIsPlain(a, b, i, "v", Mutating);
    }
    forall i | 0 <= i < 2 ensures Exact(inputs, i, {"n"}, lets) {
      PushedExact(a, b, i, lets, fuel);
    }
  }

  lemma PushedIntact(a: Word, b: Word, s: Sess, fuel: nat)
    requires Synced(PushedN(a, b), s, fuel)
    ensures var inputs, inp := PushedN(a, b), FirstOf("v");
            && IntactTo(inputs, 2, inp, s, fuel) && NamesFor(inputs, inp) == {"n"} && !ReturnInSight(s, inp)
  {
    hide Program, PushedN, Completes, ReplayableTo, PrefixCompletes, ReturnInSight, ContainsReturn, Synced, Table,
         Probe, Watched, PushesFormula, IsReplayed;
    var inputs, inp, lets := PushedN(a, b), FirstOf("v"), LetSet(PushedN(a, b));
    PushedForm(a, b);
    PushedTable(a, b, inp);
    PushedIsWatched(a, b, lets, fuel);
    forall i | 0 <= i < 2 ensures Completes(inputs, i, {"n"}, lets, fuel) {
      PushedExact(a, b, i, lets, fuel);
    }
    FirstIsAdmissible(inputs, fuel);
    PrefixGoesPast(inputs, 2, inp, s, "v", "n", fuel);
    forall i | 0 <= i < 4 ensures !ContainsReturn(CodeAt(inputs, i)) {
      PushedIsPlain(a, b, i, "v", Mutating);
    }
    CallIsPlain("v", RemoveAt, 0, "v", Mutating);
    NoReturnInSight(inputs, inp, s, fuel);
  }

  lemma FirstIsAdmissible(inputs: seq<Input>, fuel: nat)
    requires Table(inputs) == SlotN() && Probe(SlotN(), FirstOf("v")) == SlotN()
    ensures Admissible(inputs, FirstOf("v"), fuel)
  {
    hide Program, Table, Probe;
    NamesN();
  }

  /** After `let n = a`, `let v = []`, `v.push(n)`, `n = b`, the session's `v.remove(0)` gives `b`, and the
      program's gives `a`. */
  lemma ReplayedPushReadsTheSlot(a: Word, b: Word, fuel: nat)
    ensures var inputs := PushedN(a, b);
            && Session(inputs, fuel).Some?
            && (var r := Step(Session(inputs, fuel).value.0, FirstOf("v"), fuel); r.Next? && r.value == IntV(b))
            && (var t := Program(inputs + [FirstOf("v")], fuel); t.Going? && t.value == IntV(a))
  {
    hide Program, PushedN, Session, Steady, Synced, ShowsAt, Step;
    PushedProgram(a, b, fuel);
    FirstInProgram(a, b, fuel);
    PushedIsSteady(a, b, fuel);
    SteadySessionIsOnceThrough(PushedN(a, b), fuel);
    FirstInWrapper(a, b, Session(PushedN(a, b), fuel).value.0, fuel);
  }

  lemma FirstInWrapper(a: Word, b: Word, s: Sess, fuel: nat)
    requires Synced(PushedN(a, b), s, fuel)
    ensures var r := Step(s, FirstOf("v"), fuel); r.Next? && r.value == IntV(b)
  {
    hide Program, PushedN, Synced, ReplayableTo, Step, PrefixCompletes, ReturnInSight, WrapperSees, Replayed,
         GoodVars, Table, Probe, Admissible, SlotsInPlace, NamesFor;
    var inputs, inp := PushedN(a, b), FirstOf("v");
    PushedTable(a, b, inp);
    PushedIntact(a, b, s, fuel);
    IntactParts(inputs, 2, inp, s, fuel);
    ReplayEnds(inputs, inp, s, fuel);
    ReplayKeepsSlots(inputs, |inputs|, Probe(s.vars, inp), s.slots, LetSet(inputs), fuel);
    WrapperHasB(a, b, s, fuel);
    FirstShows(inputs, s, "v", [b], fuel);
  }

  lemma WrapperHasB(a: Word, b: Word, s: Sess, fuel: nat)
    requires Synced(PushedN(a, b), s, fuel) && IntactTo(PushedN(a, b), 2, FirstOf("v"), s, fuel)
    requires NamesFor(PushedN(a, b), FirstOf("v")) == {"n"}
    ensures WrapperSees(s, FirstOf("v"), "v", fuel) == Some(ArrV([b]))
  {
    hide Program, PushedN, Synced, IntactTo, WrapperSees, Watched, Table, Probe, PushesFormula, Loaded, SlotInts,
         NamesFor;
    var inputs, inp := PushedN(a, b), FirstOf("v");
    PushedForm(a, b);
    PushedTable(a, b, inp);
    PushedProgram(a, b, fuel);
    PushedStart(a, b, fuel);
    PushedIsWatched(a, b, LetSet(inputs), fuel);
    NIsLoaded(inputs, LetSet(inputs));
    StaleFormulaIff(inputs, 2, inp, s, "v", Ident("n"), {"n"}, fuel);
    TableOf(inputs, s, fuel);
    SlotHoldsB(a, b, s, fuel);
    assert [] + [b] == [b];
  }

  lemma TableOf(inputs: seq<Input>, s: Sess, fuel: nat)
    requires Synced(inputs, s, fuel)
    ensures s.vars == Table(inputs)
  {
  }

  lemma NIsLoaded(inputs: seq<Input>, lets: set<string>)
    requires !Stirred(inputs, {"n"}, lets, "n")
    ensures Loaded(inputs, {"n"}, lets, {"n"})
  {
  }

  lemma SlotHoldsB(a: Word, b: Word, s: Sess, fuel: nat)
    requires Synced(PushedN(a, b), s, fuel) && s.vars == SlotN()
    requires var q := Program(PushedN(a, b), fuel); q.Going? && q.env == NAndV() && q.st == WithN(b, [a])
    ensures "n" in SlotInts(s.vars, s.slots) && SlotInts(s.vars, s.slots)["n"] == b && s.slots[0] == b
  {
    hide Program, PushedN, Table;
    assert SlotN()[0].name == "n";
    SlotIntAt(s.vars, s.slots, 0);
  }
}
