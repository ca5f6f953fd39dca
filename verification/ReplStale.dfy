/** A closure keeps the variable it captured; the replayed closure captures the slot. They part when the
    variable is declared again. */
module ReplStale {
  import opened Common
  import opened ReplSyntax
  import opened ReplSemantics
  import opened ReplSteps
  import opened ReplFrames
  import opened ReplSimulation
  import opened ReplSession
  import opened ReplReplay
  import opened ReplRuns
  import opened ReplTheorems
  import opened ReplKinds
  import opened ReplFaithful
  import opened ReplReturns
  import opened ReplLosses

  // ---------------------------------------------------------------------------------------
  // Any closure that holds a variable with a slot.
  // ---------------------------------------------------------------------------------------

  /** What the closure in `f` finds in the variable `x` that it captured. */
  function Held(f: string, x: string, env: Env, st: Store): Option<Value> {
    if Bound(f, env, st) && st[env[f]].value.CloV? then ValueIn(x, st[env[f]].value.env, st) else None
  }

  /** The same in the wrapper built for `inp`, when the user's statements come. */
  function WrapperHolds(s: Sess, inp: Input, f: string, x: string, fuel: nat): Option<Value> {
    var vars := Probe(s.vars, inp);
    match RunW(Prefix(vars, CollectReplay(s.history, Names(vars), LetNames(s.lets))),
               Machine(map[], [], s.slots, s.replaying), fuel)
    case WDone(_, m, _) => Held(f, x, m.env, m.st)
    case _ => None
  }

  /** When the `n`-th input comes, `f`, which has no slot, holds a closure that captured the present `x`, which
      has one; and `f` rests from there on. */
  ghost predicate Captor(inputs: seq<Input>, n: nat, names: set<string>, f: string, x: string, fuel: nat) {
    && n <= |inputs| && f !in names && x in names && Rests(inputs, n, f)
    && var p := Program(inputs[..n], fuel);
       && p.Going? && Bound(f, p.env, p.st) && Bound(x, p.env, p.st) && p.st[p.env[f]].value.CloV?
       && x in p.st[p.env[f]].value.env && p.st[p.env[f]].value.env[x] == p.env[x]
  }

  /** The replayed closure has captured the slot's cell. */
  lemma ReplayCaptures(inputs: seq<Input>, n: nat, vars: seq<VarSlot>, slots: seq<Word>, lets: set<string>,
                       f: string, i: nat, fuel: nat)
    requires Setting(inputs, n, vars, slots, lets, fuel) && i < |vars|
    requires Captor(inputs, n, Names(vars), f, vars[i].name, fuel)
    requires Replayed(inputs, n, vars, slots, lets, fuel).Going?
    ensures var w := Replayed(inputs, n, vars, slots, lets, fuel);
            && WrapperTidy(inputs, n, vars, slots, lets, w) && Bound(f, w.env, w.st)
            && CapturedCell(f, vars[i].name, w, i)
  {
    hide Replayed, Program, Setting, SteadySlots, TidyStore, OwnLinks, LiveLinks, SlotLinks, Rests, LitsTo, VolatileAt,
         Stirred;
    SettingParts(inputs, n, vars, slots, lets, fuel);
    var link := Rebuild(inputs, n, n, vars, slots, lets, fuel);
    var p, w := Program(inputs[..n], fuel), Replayed(inputs, n, vars, slots, lets, fuel);
    NotVolatile(inputs, n, Names(vars), lets, f);
    assert CellRel(p.env[f], p.st, w.st, link, CareTo(inputs, n, Names(vars), lets));
  }

  ghost predicate CapturedCell(f: string, x: string, w: Top, i: nat) {
    && w.Going? && Bound(f, w.env, w.st) && w.st[w.env[f]].value.CloV?
    && x in w.st[w.env[f]].value.env && w.st[w.env[f]].value.env[x] == i
  }

  /** At the end of the replay it still has. */
  lemma StillCaptures(inputs: seq<Input>, n: nat, vars: seq<VarSlot>, slots: seq<Word>, lets: set<string>,
                      f: string, i: nat, fuel: nat)
    requires Setting(inputs, n, vars, slots, lets, fuel) && i < |vars|
    requires Captor(inputs, n, Names(vars), f, vars[i].name, fuel)
    requires Replayed(inputs, |inputs|, vars, slots, lets, fuel).Going?
    ensures var w := Replayed(inputs, |inputs|, vars, slots, lets, fuel);
            SlotsInPlace(vars, w.env, w.st) && CapturedCell(f, vars[i].name, w, i)
  {
    hide Replayed, Program, Setting, SteadySlots, TidyStore, SlotsInPlace, Rests;
    SettingParts(inputs, n, vars, slots, lets, fuel);
    ReplayGoesBack(inputs, n, |inputs|, vars, slots, lets, fuel);
    ReplayCaptures(inputs, n, vars, slots, lets, f, i, fuel);
    ReplayRests(inputs, n, |inputs|, vars, slots, lets, f, fuel);
  }

  /** When the user's statements come, the captured cell holds the slot's value. */
  lemma WrapperHoldsSlot(inputs: seq<Input>, n: nat, inp: Input, s: Sess, f: string, i: nat, fuel: nat)
    requires IntactTo(inputs, n, inp, s, fuel) && Transparent(inputs, NamesFor(inputs, inp))
    requires i < |Probe(s.vars, inp)| && Probe(s.vars, inp)[i].idx < |s.slots|
    requires Captor(inputs, n, NamesFor(inputs, inp), f, Probe(s.vars, inp)[i].name, fuel)
    ensures var v := Probe(s.vars, inp)[i]; WrapperHolds(s, inp, f, v.name, fuel) == Some(IntV(s.slots[v.idx]))
  {
    hide RunW, RunTop, Program, CollectReplay, Prefix, Probe, GoodVars, SlotsAgree, InScope, Table, BlockMutatesSlot,
         Grows, Captor, IntactTo, Transparent, LoadedEnv, LoadedStore;
    var vars, lets := Probe(s.vars, inp), LetSet(inputs);
    IntactParts(inputs, n, inp, s, fuel);
    ReplayEnds(inputs, inp, s, fuel);
    ReplayForIs(inputs, vars, lets);
    StillCaptures(inputs, n, vars, s.slots, lets, f, i, fuel);
    WholeIsPrefix(inputs);
    var w := Replayed(inputs, |inputs|, vars, s.slots, lets, fuel);
    var m := PrefixRuns(vars, s.slots, ReplayFor(inputs, vars, lets), w, fuel);
    SlotsAreRestored(inputs, vars, s.slots, lets, m.st, fuel);
    CaptorIsNoSlot(inputs, n, Names(vars), f, vars[i].name, fuel);
    SlotCellsAreNamed(vars, w.env, w.st, f);
  }

  lemma CaptorIsNoSlot(inputs: seq<Input>, n: nat, names: set<string>, f: string, x: string, fuel: nat)
    requires Captor(inputs, n, names, f, x, fuel)
    ensures f !in names && x in names && n <= |inputs| && Rests(inputs, n, f)
  {
  }

  /** The program's stores only grow. */
  lemma {:induction false} ProgramGrows(inputs: seq<Input>, k: nat, fuel: nat)
    requires k <= |inputs| && Program(inputs, fuel).Going?
    ensures Program(inputs[..k], fuel).Going? && Grows(Program(inputs[..k], fuel).st, Program(inputs, fuel).st)
    decreases |inputs| - k
  {
    hide Program, Eval, Grows;
    WholeIsPrefix(inputs);
    ProgramPrefix(inputs, k, fuel);
    if k == |inputs| {
      GrowsSelf(Program(inputs, fuel).st);
    } else {
      ProgramPrefix(inputs, k + 1, fuel);
      ProgramStep(inputs, k, fuel);
      ProgramGrows(inputs, k + 1, fuel);
      var p, q := Program(inputs[..k], fuel), Program(inputs[..k + 1], fuel);
      StmtGrows(StmtOf(inputs[k]), p.env, p.st, fuel);
      GrowsThen(p.st, q.st, Program(inputs, fuel).st);
    }
  }

  lemma StmtGrows(s: Stmt, env: Env, st: Store, fuel: nat)
    ensures var r := ExecStmt(s, env, st, false, fuel); r.Done? ==> Grows(st, r.store)
  {
    hide Eval;
  }

  /** No input from the `k`-th on writes `x`, and no closure ever does. It may be declared again. */
  ghost predicate UnwrittenFrom(inputs: seq<Input>, k: nat, x: string) {
    !LitWrites(inputs, |inputs|, x) && forall j :: k <= j < |inputs| ==> !Writes(CodeAt(inputs, j), x, Mutating)
  }

  /** Then what cells of that name there are keep their values. */
  lemma {:induction false} OldCellStays(inputs: seq<Input>, k: nat, x: string, c: nat, fuel: nat)
    requires k <= |inputs| && Program(inputs, fuel).Going? && UnwrittenFrom(inputs, k, x)
    requires var p := Program(inputs[..k], fuel); p.Going? && c < |p.st| && p.st[c].name == x
    ensures var p, t := Program(inputs[..k], fuel), Program(inputs, fuel); c < |t.st| && t.st[c] == p.st[c]
    decreases |inputs| - k
  {
    hide Program, Eval, Writes, LitWrites, TidyStore, ShyStore;
    WholeIsPrefix(inputs);
    if k < |inputs| {
      ProgramPrefix(inputs, k + 1, fuel);
      ProgramStep(inputs, k, fuel);
      ProgramTidy(inputs, k, fuel);
      var p := Program(inputs[..k], fuel);
      LitWritesLess(inputs, k, x);
      UnwrittenShy(inputs, k, p.st, x);
      assert !Writes(CodeAt(inputs, k), x, Mutating);
      FrameStmt(StmtOf(inputs[k]), p.env, p.st, false, fuel, x, Mutating);
      OldCellStays(inputs, k + 1, x, c, fuel);
    }
  }

  /** A variable that is not declared again stays in its cell. */
  lemma {:induction false} SameVariable(inputs: seq<Input>, k: nat, x: string, fuel: nat)
    requires k <= |inputs| && Program(inputs, fuel).Going?
    requires var p := Program(inputs[..k], fuel); p.Going? && x in p.env
    requires forall j :: k <= j < |inputs| ==> !Declares(inputs[j], x)
    ensures var p, t := Program(inputs[..k], fuel), Program(inputs, fuel); x in t.env && t.env[x] == p.env[x]
    decreases |inputs| - k
  {
    hide Program, Eval;
    WholeIsPrefix(inputs);
    if k < |inputs| {
      ProgramPrefix(inputs, k + 1, fuel);
      ProgramStep(inputs, k, fuel);
      SameVariable(inputs, k + 1, x, fuel);
    }
  }

  /** The program's closure still has the variable it captured. */
  lemma ProgramHoldsOldCell(inputs: seq<Input>, n: nat, names: set<string>, f: string, x: string, fuel: nat)
    requires Captor(inputs, n, names, f, x, fuel) && Program(inputs, fuel).Going?
    ensures var p, t := Program(inputs[..n], fuel), Program(inputs, fuel);
            && p.Going? && Bound(x, p.env, p.st) && p.env[x] < |t.st|
            && Held(f, x, t.env, t.st) == Some(t.st[p.env[x]].value)
  {
    hide Program, Eval, Writes, LitWrites;
    ProgramGrows(inputs, n, fuel);
    assert !ChangedFrom(inputs, n, f);
    UntouchedToTheEnd(inputs, n, f, fuel);
  }

  /** The exact condition for closures. Take a history that replays exactly up to its `n`-th input, and a closure
      that by then holds a variable with a slot and stays where it is. In every later wrapper the replayed closure
      finds in that variable what the slot holds, which is what the variable of that name is worth by then. The
      program's closure finds what the captured variable is worth, which is what it was worth before the `n`-th
      input unless something writes it. The two agree exactly if the captured variable is worth what the slot
      holds; so they always do unless the variable has been declared again. */
  lemma ClosureFindsTheSlot(inputs: seq<Input>, n: nat, inp: Input, s: Sess, f: string, i: nat, fuel: nat)
    requires IntactTo(inputs, n, inp, s, fuel) && Transparent(inputs, NamesFor(inputs, inp))
    requires i < |Probe(s.vars, inp)| && Probe(s.vars, inp)[i].idx < |s.slots|
    requires Captor(inputs, n, NamesFor(inputs, inp), f, Probe(s.vars, inp)[i].name, fuel)
    ensures Program(inputs, fuel).Going?
    ensures var v, t := Probe(s.vars, inp)[i], Program(inputs, fuel);
            && WrapperHolds(s, inp, f, v.name, fuel) == Some(IntV(s.slots[v.idx]))
            && (v.name in t.env ==> ValueIn(v.name, t.env, t.st) == Some(IntV(s.slots[v.idx])))
    ensures var v, p, t := Probe(s.vars, inp)[i], Program(inputs[..n], fuel), Program(inputs, fuel);
            && p.Going? && v.name in p.env && p.env[v.name] < |t.st|
            && Held(f, v.name, t.env, t.st) == Some(t.st[p.env[v.name]].value)
            && (UnwrittenFrom(inputs, n, v.name) ==> Held(f, v.name, t.env, t.st) == ValueIn(v.name, p.env, p.st))
            && (WrapperHolds(s, inp, f, v.name, fuel) == Held(f, v.name, t.env, t.st) <==>
                t.st[p.env[v.name]].value == IntV(s.slots[v.idx]))
            && ((forall j :: n <= j < |inputs| ==> !Declares(inputs[j], v.name)) ==>
                  WrapperHolds(s, inp, f, v.name, fuel) == Held(f, v.name, t.env, t.st))
  {
    hide Program, Probe, IntactTo, Transparent, WrapperHolds, Captor, UnwrittenFrom, Held, NamesFor, Synced, Table,
         PrefixCompletes, TidyStore;
    var v := Probe(s.vars, inp)[i];
    IntactParts(inputs, n, inp, s, fuel);
    WrapperHoldsSlot(inputs, n, inp, s, f, i, fuel);
    ProgramHoldsOldCell(inputs, n, NamesFor(inputs, inp), f, v.name, fuel);
    WholeIsPrefix(inputs);
    ProgramTidy(inputs, |inputs|, fuel);
    SettingParts(inputs, n, Probe(s.vars, inp), s.slots, LetSet(inputs), fuel);
    if UnwrittenFrom(inputs, n, v.name) {
      OldCellStays(inputs, n, v.name, Program(inputs[..n], fuel).env[v.name], fuel);
    }
    if forall j :: n <= j < |inputs| ==> !Declares(inputs[j], v.name) { SameVariable(inputs, n, v.name, fuel); }
  }

  // ---------------------------------------------------------------------------------------
  // A session.
  // ---------------------------------------------------------------------------------------

  /** `{ |x| x + n }`. */
  function AddsN(): Lambda {
    Lambda("x", [Expression(Binary(Add, Ident("x"), Ident("n")))])
  }

  function LetF(): Input {
    LetIn(false, "f", Closure(AddsN()), false)
  }

  /** `let n = a`, `let f = { |x| x + n }`, `let n = b`. */
  function Redeclared(a: Word, b: Word): seq<Input> {
    [LetN(a), LetF(), LetN(b)]
  }

  /** `f.(c)`. */
  function CallF(c: Word): Expr {
    ClosureCall(Ident("f"), IntLit(c))
  }

  lemma RedeclaredForm(a: Word, b: Word)
    ensures var inputs := Redeclared(a, b);
            && |inputs| == 3 && inputs[..0] == [] && inputs[..1] == [LetN(a)] && inputs[..2] == inputs[..1] + [LetF()]
            && inputs == inputs[..2] + [LetN(b)] && inputs[0] == LetN(a) && inputs[1] == LetF() && inputs[2] == LetN(b)
  {
  }

  lemma AddsNIsPlain(x: string, t: Touch)
    requires !t.Declaring?
    ensures !Writes(Closure(AddsN()), x, t) && !LambdaWrites(AddsN(), x, t)
    ensures Captures(AddsN(), x) <==> x == "n"
    ensures forall l :: IsLit(l, Closure(AddsN())) ==> l == AddsN()
  {
    hide Writes, LambdaWrites, Captures, Occurs, IsLit;
    var sum := Binary(Add, Ident("x"), Ident("n"));
    SumIsPlain(x, t);
    OneLineClosure("x", sum, x, t);
    assert AddsN() == Lambda("x", [Expression(sum)]) && "n" != "x";
  }

  lemma SumIsPlain(x: string, t: Touch)
    requires !t.Declaring?
    ensures var e := Binary(Add, Ident("x"), Ident("n"));
            !Writes(e, x, t) && LitFree(e) && (Occurs(e, x) <==> x == "x" || x == "n")
  {
    hide Occurs;
    var e := Binary(Add, Ident("x"), Ident("n"));
    LeafIsPlain(Ident("x"), x, t);
    LeafIsPlain(Ident("n"), x, t);
    BinaryIsPlain(e, x, t);
    SumOccurs(x);
  }

  lemma SumOccurs(x: string)
    ensures Occurs(Binary(Add, Ident("x"), Ident("n")), x) <==> x == "x" || x == "n"
  {
    var e := Binary(Add, Ident("x"), Ident("n"));
    assert Operands(e)[0] == Ident("x") && Operands(e)[1] == Ident("n") && Bodies(e) == [];
  }

  lemma CaptureN(env: Env)
    requires "n" in env
    ensures Capture(AddsN(), env) == map["n" := env["n"]]
  {
    forall x ensures Captures(AddsN(), x) <==> x == "n" {
      AddsNIsPlain(x, Mutating);
    }
  }

  /** `f.(c)` adds what the captured cell holds. */
  lemma CallFRuns(c: Word, k: Word, env: Env, clo: Env, st: Store, fuel: nat)
    requires Bound("f", env, st) && st[env["f"]].value == CloV(AddsN(), clo)
    requires Bound("n", clo, st) && st[clo["n"]].value == IntV(k) && fuel > 0
    ensures var r := Eval(CallF(c), env, st, false, fuel);
            r == Done(IntV(Wrap(c + k)), Alloc(st, "x", IntV(c)), [])
  {
    hide Wrap;
    var e, f := CallF(c), st[env["f"]].value;
    EvalLeaf(Ident("f"), env, st, false, fuel);
    EvalLeaf(IntLit(c), env, st, false, fuel);
    EvalBinary(e, env, st, false, fuel);
    BodyOfF(c, k, clo, st, fuel - 1);
    assert Apply(e, [f, IntV(c)], env, st, false, fuel) == Invoke(f, IntV(c), st, false, fuel - 1);
  }

  lemma BodyOfF(c: Word, k: Word, clo: Env, st: Store, fuel: nat)
    requires Bound("n", clo, st) && st[clo["n"]].value == IntV(k)
    ensures Invoke(CloV(AddsN(), clo), IntV(c), st, false, fuel)
            == Done(IntV(Wrap(c + k)), Alloc(st, "x", IntV(c)), [])
  {
    hide Eval, Wrap;
    var e, env, st0 := Binary(Add, Ident("x"), Ident("n")), clo["x" := |st|], Alloc(st, "x", IntV(c));
    assert "n" != "x";
    EvalLeaf(Ident("x"), env, st0, false, fuel);
    EvalLeaf(Ident("n"), env, st0, false, fuel);
    EvalBinary(e, env, st0, false, fuel);
    BlockOfOne(e, env, st0, false, fuel);
  }

  function F(c: nat): Cell {
    Cell("f", CloV(AddsN(), map["n" := c]))
  }

  lemma RedeclaredProgram(a: Word, b: Word, fuel: nat)
    ensures var inputs := Redeclared(a, b);
            && Program(inputs[..1], fuel) == Going(map["n" := 0], JustN(a), UnitV, [])
            && (var p := Program(inputs[..2], fuel);
                p.Going? && p.env == map["n" := 0, "f" := 1] && p.st == JustN(a) + [F(0)])
            && (var q := Program(inputs, fuel);
                q.Going? && q.env == map["n" := 2, "f" := 1] && q.st == JustN(a) + [F(0)] + JustN(b))
  {
    hide Program, Eval, Redeclared, Capture;
    var inputs := Redeclared(a, b);
    RedeclaredForm(a, b);
    LetNRuns(a, fuel);
    CaptureN(map["n" := 0]);
    EvalLeaf(Closure(AddsN()), map["n" := 0], JustN(a), false, fuel);
    ProgramGoes(inputs[..1], LetF(), fuel);
    EvalLeaf(IntLit(b), map["n" := 0, "f" := 1], JustN(a) + [F(0)], false, fuel);
    ProgramGoes(inputs[..2], LetN(b), fuel);
    assert map["n" := 0, "f" := 1]["n" := 2] == map["n" := 2, "f" := 1];
  }

  lemma CallProgram(a: Word, b: Word, c: Word, fuel: nat)
    requires fuel > 0
    ensures var t := Program(Redeclared(a, b) + [ExprIn(CallF(c))], fuel); t.Going? && t.value == IntV(Wrap(c + a))
  {
    hide Program, Eval, Redeclared, Wrap;
    RedeclaredProgram(a, b, fuel);
    var st := JustN(a) + [F(0)] + JustN(b);
    CallFRuns(c, a, map["n" := 2, "f" := 1], map["n" := 0], st, fuel);
    ProgramGoes(Redeclared(a, b), ExprIn(CallF(c)), fuel);
  }

  // ---------------------------------------------------------------------------------------
  // The session up to the call is exact.
  // ---------------------------------------------------------------------------------------

  lemma TableOfN(a: Word, b: Word)
    ensures var inputs := Redeclared(a, b);
            Table(inputs[..1]) == SlotN() && Table(inputs[..2]) == SlotN() && Table(inputs) == SlotN()
    ensures Probe(SlotN(), LetF()) == SlotN() && Probe(SlotN(), LetN(b)) == SlotN() && Names(SlotN()) == {"n"}
  {
    var inputs := Redeclared(a, b);
    RedeclaredForm(a, b);
    NamesN();
    TableN(a, []);
    assert [LetN(a)] + [] == inputs[..1];
    assert ButLast(inputs) == inputs[..2] && ButLast(inputs[..2]) == inputs[..1];
    assert SlotN()[0].name != "f" && SlotN()[1..] == [] && Position([], "f") == 0;
    assert Position(SlotN(), "f") == 1;
    assert Register(SlotN(), "n", Int, true).0 == SlotN();
  }

  lemma LetFIsTame(front: seq<Input>, a: Word)
    requires front == [LetN(a)] || front == [LetN(a), LetF()]
    ensures ClosuresTame(front, |front|, {"n"}, LetSet(front)) && Transparent(front, {"n"})
    ensures !LitWrites(front, |front|, "n")
    ensures forall i :: 0 <= i < |front| ==> !Writes(CodeAt(front, i), "n", Mutating)
  {
    hide Writes, LambdaWrites, Captures, IsLit;
    forall x, t: Touch | !t.Declaring?
      ensures !Writes(IntLit(a), x, t) && !Writes(Closure(AddsN()), x, t) && !LambdaWrites(AddsN(), x, t)
    {
      LeafIsPlain(IntLit(a), x, t);
      AddsNIsPlain(x, t);
    }
    forall i, l | 0 <= i < |front| && IsLit(l, CodeAt(front, i)) ensures i == 1 && l == AddsN() {
      LeafIsPlain(IntLit(a), "n", Mutating);
      AddsNIsPlain("n", Mutating);
    }
    forall j, x | 1 <= j < |front| && x == "n" ensures !Redeclares(front, j, x) {
    }
  }

  lemma LetFIsSteadfast(front: seq<Input>, a: Word, fuel: nat)
    requires front == [LetN(a)] || front == [LetN(a), LetF()]
    ensures Steadfast(front, {"n"}, LetSet(front), fuel) && Transparent(front, {"n"})
  {
    hide Program, Faithful, ClosuresTame, LitWrites, Writes;
    LetFIsTame(front, a);
    forall x ensures !Writes(IntLit(a), x, Calling) {
      LeafIsPlain(IntLit(a), x, Calling);
    }
    if |front| == 2 {
      assert VolatileAt(front, 1, {"n"}, LetSet(front)) == iset{};
      NothingVolatileIsFaithful(front, 1, {"n"}, LetSet(front));
    }
  }

  lemma LetFSteadyAt(front: seq<Input>, a: Word, inp: Input, fuel: nat)
    requires front == [LetN(a)] || front == [LetN(a), LetF()]
    requires Table(front) == SlotN() && Probe(SlotN(), inp) == SlotN() && WellKinded(front, inp, fuel)
    ensures SteadyAt(front, inp, fuel)
  {
    hide Program, Steadfast, Transparent, Probe, Table;
    NamesN();
    LetFIsSteadfast(front, a, fuel);
  }

  lemma RedeclaredIsSteady(a: Word, b: Word, fuel: nat)
    ensures Steady(Redeclared(a, b), fuel)
  {
    hide Program, Redeclared, SteadyAt, Table, Probe;
    var inputs := Redeclared(a, b);
    RedeclaredForm(a, b);
    TableOfN(a, b);
    RedeclaredProgram(a, b, fuel);
    LetNIsSteady(a, fuel);
    LetFSteadyAt(inputs[..1], a, inputs[1], fuel);
    LetFSteadyAt(inputs[..2], a, inputs[2], fuel);
  }

  // ---------------------------------------------------------------------------------------
  // The call is not.
  // ---------------------------------------------------------------------------------------

  lemma RecordedRedeclared(a: Word, b: Word)
    ensures Recorded(Redeclared(a, b))
         == [Let(true, "n", IntLit(a)), Let(false, "f", Closure(AddsN())), Let(true, "n", IntLit(b))]
  {
    hide AddsN;
    var inputs := Redeclared(a, b);
    RedeclaredForm(a, b);
    assert ButLast(inputs) == inputs[..2] && ButLast(inputs[..2]) == inputs[..1] && ButLast(inputs[..1]) == [];
    assert Recorded(inputs[..1]) == [Let(true, "n", IntLit(a))];
    assert Recorded(inputs[..2]) == [Let(true, "n", IntLit(a)), Let(false, "f", Closure(AddsN()))];
  }

  lemma ReplayOfF(a: Word, b: Word, lets: set<string>)
    ensures CollectReplay(Recorded(Redeclared(a, b)), {"n"}, lets) == [Let(false, "f", Closure(AddsN()))]
  {
    hide Recorded, AddsN, Redeclared;
    RecordedRedeclared(a, b);
    var n, f, n' := Let(true, "n", IntLit(a)), Let(false, "f", Closure(AddsN())), Let(true, "n", IntLit(b));
    assert ButLast([n, f, n']) == [n, f] && ButLast([n, f]) == [n] && ButLast([n]) == [];
    assert CollectReplay([n], {"n"}, lets) == [] && CollectReplay([n, f], {"n"}, lets) == [f];
  }

  lemma ReplayOfFRuns(slots: seq<Word>, fuel: nat)
    requires |slots| > 0
    ensures GoodVars(SlotN(), slots)
    ensures LoadedEnv(SlotN()) == map["n" := 0] && LoadedStore(SlotN(), slots) == JustN(slots[0])
    ensures var w := RunTop([Let(false, "f", Closure(AddsN()))], map["n" := 0], JustN(slots[0]), true, fuel);
            w.Going? && w.env == map["n" := 0, "f" := 1] && w.st == JustN(slots[0]) + [F(0)]
  {
    hide Eval, RunTop, Capture;
    assert ButLast(SlotN()) == [];
    CaptureN(map["n" := 0]);
    EvalLeaf(Closure(AddsN()), map["n" := 0], JustN(slots[0]), true, fuel);
    RunTopStart(map["n" := 0], JustN(slots[0]), true, fuel);
    RunTopSnoc([], Let(false, "f", Closure(AddsN())), map["n" := 0], JustN(slots[0]), true, fuel);
    assert [] + [Let(false, "f", Closure(AddsN()))] == [Let(false, "f", Closure(AddsN()))];
  }

  lemma FReturnsNot(c: Word)
    ensures !BlockReaches(Returns, [Expression(CallF(c))], Return)
    ensures !BlockReaches(Returns, [Let(false, "f", Closure(AddsN()))], Return)
  {
    hide BlockReaches;
    var user, replay := [Expression(CallF(c))], [Let(false, "f", Closure(AddsN()))];
    ScanFindsReturnsInBlock(user);
    ScanFindsReturnsInBlock(replay);
    assert user[1..] == [] && replay[1..] == [];
    assert !ContainsReturn(Code(user[0])) && !ContainsReturn(Code(replay[0]));
  }

  lemma FAssignsNot()
    ensures !BlockMutatesSlot([Let(false, "f", Closure(AddsN()))], "n")
  {
    var replay, body := [Let(false, "f", Closure(AddsN()))], AddsN().body;
    assert replay[1..] == [] && body[1..] == [];
    assert !MutatesSlot(Code(body[0]), "n");
    assert !BlockMutatesSlot(body, "n");
    assert Code(replay[0]) == Closure(AddsN());
  }

  /** The wrapper of the call, in a session with the latest `n` in its slot. */
  lemma CallInWrapper(c: Word, slots: seq<Word>, fuel: nat)
    requires |slots| > 0 && fuel > 0
    ensures var body := BuildBody(SlotN(), [Let(false, "f", Closure(AddsN()))], [Expression(CallF(c))]);
            var r := RunW(body, Machine(map[], [], slots, false), fuel);
            r.WDone? && r.value == IntV(Wrap(c + slots[0])) && r.out == []
  {
    hide RunW, RunTop, Eval, BuildBody, Prefix, BlockReaches, BlockMutatesSlot, LoadedEnv, LoadedStore, Wrap,
         Grows;
    var replay, m0 := [Let(false, "f", Closure(AddsN()))], Machine(map[], [], slots, false);
    ReplayOfFRuns(slots, fuel);
    FAssignsNot();
    FReturnsNot(c);
    var w := RunTop(replay, LoadedEnv(SlotN()), LoadedStore(SlotN(), slots), true, fuel);
    var m := PrefixRuns(SlotN(), slots, replay, w, fuel);
    assert m.st == w.st;
    CallFRuns(c, slots[0], m.env, map["n" := 0], m.st, fuel);
    RunOne(Expression(CallF(c)), m.env, m.st, fuel);
    NamesN();
    BodyRuns(SlotN(), replay, ExprIn(CallF(c)), m0, m, fuel);
  }

  // ---------------------------------------------------------------------------------------
  // It is an instance of the theorem.
  // ---------------------------------------------------------------------------------------

  /** `f` declares no variable of that name inside. */
  lemma AddsNDeclares()
    ensures !Writes(Closure(AddsN()), "n", Declaring) && !LambdaWrites(AddsN(), "n", Declaring)
  {
    hide Writes;
    var sum := Binary(Add, Ident("x"), Ident("n"));
    SumDeclares();
    ClosureParts(AddsN(), "n", Declaring);
    OneWrites(sum, "n", Declaring);
    assert "n" != "x";
  }

  lemma SumDeclares()
    ensures !Writes(Binary(Add, Ident("x"), Ident("n")), "n", Declaring)
  {
    LeafIsPlain(Ident("x"), "n", Declaring);
    LeafIsPlain(Ident("n"), "n", Declaring);
    BinaryIsPlain(Binary(Add, Ident("x"), Ident("n")), "n", Declaring);
  }

  lemma RedeclaredCode(a: Word, b: Word, i: nat, x: string, t: Touch)
    requires i < 3 && (!t.Declaring? || x == "n")
    ensures !Writes(CodeAt(Redeclared(a, b), i), x, t)
    ensures forall l :: IsLit(l, CodeAt(Redeclared(a, b), i)) ==> i == 1 && l == AddsN()
  {
    hide Writes, IsLit, LambdaWrites, Captures;
    LeafIsPlain(IntLit(a), x, t);
    LeafIsPlain(IntLit(b), x, t);
    AddsNIsPlain(x, Mutating);
    if t.Declaring? { AddsNDeclares(); } else { AddsNIsPlain(x, t); }
  }

  lemma RedeclaredIsTame(a: Word, b: Word, lets: set<string>)
    ensures var inputs := Redeclared(a, b);
            ClosuresTame(inputs, 2, {"n"}, lets) && Transparent(inputs, {"n"}) && UnwrittenFrom(inputs, 0, "n")
    ensures !LitWrites(Redeclared(a, b), 3, "f") && Rests(Redeclared(a, b), 2, "f")
  {
    hide Writes, LambdaWrites, IsLit, Captures, VolatileAt, Redeclared;
    var inputs := Redeclared(a, b);
    RedeclaredForm(a, b);
    forall i | 0 <= i < 3 ensures !Writes(CodeAt(inputs, i), "n", Declaring) {
      RedeclaredCode(a, b, i, "n", Declaring);
    }
    forall i, x, t: Touch | 0 <= i < 3 && !t.Declaring? ensures !Writes(CodeAt(inputs, i), x, t) {
      RedeclaredCode(a, b, i, x, t);
    }
    forall i, l | 0 <= i < 3 && IsLit(l, CodeAt(inputs, i)) ensures i == 1 && l == AddsN() {
      RedeclaredCode(a, b, i, "n", Mutating);
    }
    forall x ensures !LambdaWrites(AddsN(), x, Mutating) && (Captures(AddsN(), x) ==> x == "n") {
      AddsNIsPlain(x, Mutating);
    }
    assert !RedeclaredBetween(inputs, 1, 2, "n");
  }

  lemma RedeclaredExact(a: Word, b: Word, i: nat, lets: set<string>)
    requires i < 2
    ensures Exact(Redeclared(a, b), i, {"n"}, lets)
  {
    hide Redeclared, Writes, VolatileAt, IsLit;
    var inputs := Redeclared(a, b);
    RedeclaredForm(a, b);
    if i == 0 {
      forall x ensures !Writes(CodeAt(inputs, 0), x, Calling) { RedeclaredCode(a, b, 0, x, Calling); }
      assert Harmless(inputs, 0, {"n"});
    } else {
      LetFIsFaithful(inputs, lets);
    }
  }

  /** Building the closure reads nothing. */
  lemma LetFIsFaithful(inputs: seq<Input>, lets: set<string>)
    requires |inputs| > 1 && inputs[1] == LetF()
    ensures Faithful(inputs, 1, {"n"}, lets)
  {
    hide Writes, VolatileAt, IsLit, BlockHasLit, LambdaWrites;
    var care := CareAt(inputs, 1, {"n"}, lets, false);
    ClosureParts(AddsN(), "n", Mutating);
    assert IsLit(AddsN(), CodeAt(inputs, 1));
    assert Calm(care) && Stable(CodeAt(inputs, 1), care);
  }

  lemma RedeclaredIsIntact(a: Word, b: Word, c: Word, s: Sess, fuel: nat)
    requires Synced(Redeclared(a, b), s, fuel)
    ensures var inputs, inp := Redeclared(a, b), ExprIn(CallF(c));
            && Probe(s.vars, inp) == SlotN() && NamesFor(inputs, inp) == {"n"} && Transparent(inputs, {"n"})
            && IntactTo(inputs, 2, inp, s, fuel) && Captor(inputs, 2, {"n"}, "f", "n", fuel)
  {
    hide Program, Redeclared, Table, Probe, Exact, ClosuresTame, PrefixCompletes, Transparent, Rests;
    var inputs, inp, lets := Redeclared(a, b), ExprIn(CallF(c)), LetSet(Redeclared(a, b));
    RedeclaredForm(a, b);
    TableOfN(a, b);
    ProbeOfExpression(SlotN(), inp);
    RedeclaredProgram(a, b, fuel);
    RedeclaredIsTame(a, b, lets);
    RedeclaredExact(a, b, 0, lets);
    RedeclaredExact(a, b, 1, lets);
    ReplayOfFCompletes(a, b, inp, s, fuel);
  }

  lemma ReplayOfFCompletes(a: Word, b: Word, inp: Input, s: Sess, fuel: nat)
    requires s.history == Recorded(Redeclared(a, b)) && Probe(s.vars, inp) == SlotN() && |s.slots| > 0 && !s.replaying
    ensures PrefixCompletes(s, inp, fuel)
  {
    hide RunW, RunTop, Prefix, LoadedEnv, LoadedStore, Probe, Redeclared, Grows, BlockMutatesSlot;
    var replay := [Let(false, "f", Closure(AddsN()))];
    NamesN();
    ReplayOfF(a, b, LetNames(s.lets));
    ReplayOfFRuns(s.slots, fuel);
    var w := RunTop(replay, LoadedEnv(SlotN()), LoadedStore(SlotN(), s.slots), true, fuel);
    var m := PrefixRuns(SlotN(), s.slots, replay, w, fuel);
  }

  lemma RedeclaredFindsTheSlot(a: Word, b: Word, c: Word, s: Sess, fuel: nat)
    requires Synced(Redeclared(a, b), s, fuel)
    ensures var inputs, t := Redeclared(a, b), Program(Redeclared(a, b), fuel);
            && t.Going? && Held("f", "n", t.env, t.st) == Some(IntV(a))
            && WrapperHolds(s, ExprIn(CallF(c)), "f", "n", fuel) == Some(IntV(b))
  {
    hide Program, Redeclared, Table, Probe, IntactTo, Captor, Transparent, NamesFor, WrapperHolds, Held, LetSet;
    RedeclaredIsIntact(a, b, c, s, fuel);
    RedeclaredIsTame(a, b, {});
    RedeclaredProgram(a, b, fuel);
    assert SlotN()[0].name == "n";
    ClosureFindsTheSlot(Redeclared(a, b), 2, ExprIn(CallF(c)), s, "f", 0, fuel);
  }

  /** After `let n = a`, `let f = { |x| x + n }`, `let n = b`, the session's `f.(c)` adds `b`, and the
      program's adds `a`. */
  lemma ClosuresFollowTheSlot(a: Word, b: Word, c: Word, fuel: nat)
    requires fuel > 0
    ensures Session(Redeclared(a, b), fuel).Some?
    ensures var r := Step(Session(Redeclared(a, b), fuel).value.0, ExprIn(CallF(c)), fuel);
            r.Next? && r.value == IntV(Wrap(c + b))
    ensures var t := Program(Redeclared(a, b) + [ExprIn(CallF(c))], fuel); t.Going? && t.value == IntV(Wrap(c + a))
    ensures var s, t := Session(Redeclared(a, b), fuel).value.0, Program(Redeclared(a, b), fuel);
            && t.Going? && Held("f", "n", t.env, t.st) == Some(IntV(a))
            && WrapperHolds(s, ExprIn(CallF(c)), "f", "n", fuel) == Some(IntV(b))
    ensures Wrap(c + a) == Wrap(c + b) <==> a == b
  {
    hide Program, Redeclared, Session, Steady, Synced, ShowsAt, Step, Held, WrapperHolds;
    RedeclaredProgram(a, b, fuel);
    CallProgram(a, b, c, fuel);
    RedeclaredIsSteady(a, b, fuel);
    SteadySessionIsOnceThrough(Redeclared(a, b), fuel);
    CallStep(a, b, c, Session(Redeclared(a, b), fuel).value.0, fuel);
    RedeclaredFindsTheSlot(a, b, c, Session(Redeclared(a, b), fuel).value.0, fuel);
    WrapApart(a, b, c);
  }

  lemma WrapApart(a: Word, b: Word, c: Word)
    ensures Wrap(c + a) == Wrap(c + b) <==> a == b
  {
    hide Wrap;
    WrapIs(c + a);
    WrapIs(c + b);
  }

  lemma WrapIs(x: int)
    requires 2 * MIN_WORD <= x <= 2 * MAX_WORD
    ensures Wrap(x) == if x < MIN_WORD then x + 0x1_0000_0000_0000_0000
                       else if x > MAX_WORD then x - 0x1_0000_0000_0000_0000 else x
  {
  }

  lemma CallStep(a: Word, b: Word, c: Word, s: Sess, fuel: nat)
    requires Synced(Redeclared(a, b), s, fuel) && fuel > 0
    requires var q := Program(Redeclared(a, b), fuel);
             q.Going? && q.env == map["n" := 2, "f" := 1] && q.st == JustN(a) + [F(0)] + JustN(b)
    ensures var r := Step(s, ExprIn(CallF(c)), fuel); r.Next? && r.value == IntV(Wrap(c + b))
  {
    hide Program, Redeclared, RunW, BuildBody, CollectReplay, Table, Wrap;
    TableOfN(a, b);
    ReplayOfF(a, b, LetNames(s.lets));
    assert SlotN()[0].name == "n";
    CallInWrapper(c, s.slots, fuel);
  }
}
