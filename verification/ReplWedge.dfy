/** A variable that held an array is given a slot: which wrappers run after that. */
module ReplWedge {
  import opened Common
  import opened ReplSyntax
  import opened ReplSemantics
  import opened ReplSteps
  import opened ReplFrames
  import opened ReplSession
  import opened ReplReplay
  import opened ReplRuns
  import opened ReplTheorems
  import opened ReplKinds
  import opened ReplFaithful
  import opened ReplReturns
  import opened ReplLosses
  import opened ReplReads
  import opened ReplLimits

  // ---------------------------------------------------------------------------------------
  // What stops a replay.
  // ---------------------------------------------------------------------------------------

  /** `e` treats the variable `x` as an array: it calls a method on it, takes its length, or loops over it. */
  predicate OnArray(e: Expr, x: string) {
    || (e.MethodCall? && e.receiver == Ident(x))
    || (e.Len? && e.receiver == Ident(x))
    || (e.For? && e.iterable == Ident(x))
  }

  /** That does not run if the variable is an `Int`. */
  lemma ArrayUseFails(e: Expr, x: string, env: Env, st: Store, quiet: bool, fuel: nat)
    requires OnArray(e, x) && Bound(x, env, st) && st[env[x]].value.IntV?
    ensures !Eval(e, env, st, quiet, fuel).Done?
  {
    hide Eval;
    EvalLeaf(Ident(x), env, st, quiet, fuel);
    assert Operands(e)[0] == Ident(x);
    if Eval(e, env, st, quiet, fuel).Done? {
      if e.MethodCall? {
        BinaryRan(e, env, st, quiet, fuel);
        EvalBinary(e, env, st, quiet, fuel);
      } else {
        EvalUnary(e, env, st, quiet, fuel);
      }
    }
  }

  /** The `k`-th input is replayed, and treats a variable with a slot as an array. */
  ghost predicate Clashes(inputs: seq<Input>, k: nat, names: set<string>, lets: set<string>)
    requires k < |inputs|
  {
    IsReplayed(inputs[k], names, lets) && exists x :: x in names && OnArray(CodeAt(inputs, k), x)
  }

  /** No replay gets past it, wherever its slots start from. */
  lemma ClashStops(inputs: seq<Input>, k: nat, vars: seq<VarSlot>, slots: seq<Word>, lets: set<string>, fuel: nat)
    requires k < |inputs| && GoodVars(vars, slots) && Clashes(inputs, k, Names(vars), lets)
    ensures !Replayed(inputs, |inputs|, vars, slots, lets, fuel).Going?
  {
    hide Replayed, Eval, Stirred, LitsTo, TidyEnv, TidyStore, SteadySlots, OnArray;
    if Replayed(inputs, |inputs|, vars, slots, lets, fuel).Going? {
      ReplayGoesBack(inputs, k, |inputs|, vars, slots, lets, fuel);
      ReplayGoesBack(inputs, k + 1, |inputs|, vars, slots, lets, fuel);
      ReplayedStep(inputs, k, vars, slots, lets, fuel);
      ReplayKeepsSlots(inputs, k, vars, slots, lets, fuel);
      KeptForm(StmtOf(inputs[k]), Names(vars), lets);
      var w := Replayed(inputs, k, vars, slots, lets, fuel);
      var x :| x in Names(vars) && OnArray(CodeAt(inputs, k), x);
      var i :| 0 <= i < |vars| && vars[i].name == x;
      ArrayUseFails(CodeAt(inputs, k), x, w.env, w.st, true, fuel);
    }
  }

  // ---------------------------------------------------------------------------------------
  // Nothing else does, in a history that otherwise type checks.
  // ---------------------------------------------------------------------------------------

  /** What type checking knows, after the first `k` replayed inputs, of the variables in scope. */
  ghost function ReplayScope(inputs: seq<Input>, k: nat, names: set<string>, lets: set<string>): Scope
    requires k <= |inputs|
    decreases k
  {
    if k == 0 then map x | x in names :: IntK
    else
      var scope, inp := ReplayScope(inputs, k - 1, names, lets), inputs[k - 1];
      var kind := Checks(CodeAt(inputs, k - 1), scope);
      if IsReplayed(inp, names, lets) && inp.LetIn? && inp.name !in names && kind.Some? then
        scope[inp.name := kind.value]
      else scope
  }

  /** Every replayed input type checks where it stands, and has no way to fail, but for clashes. */
  ghost predicate ChecksBut(inputs: seq<Input>, names: set<string>, lets: set<string>) {
    forall k :: 0 <= k < |inputs| && IsReplayed(inputs[k], names, lets) ==>
      Clashes(inputs, k, names, lets) || Checks(CodeAt(inputs, k), ReplayScope(inputs, k, names, lets)).Some?
  }

  lemma LoadedFits(vars: seq<VarSlot>, slots: seq<Word>)
    requires GoodVars(vars, slots)
    ensures Fits(map x | x in Names(vars) :: IntK, LoadedEnv(vars), LoadedStore(vars, slots))
  {
    LoadedEnvAt(vars);
  }

  lemma {:induction false} CheckedReplayRuns(inputs: seq<Input>, k: nat, vars: seq<VarSlot>, slots: seq<Word>,
                                             lets: set<string>, fuel: nat)
    requires k <= |inputs| && GoodVars(vars, slots) && ChecksBut(inputs, Names(vars), lets)
    requires forall j :: 0 <= j < k ==> !Clashes(inputs, j, Names(vars), lets)
    ensures var w := Replayed(inputs, k, vars, slots, lets, fuel);
            w.Going? && Fits(ReplayScope(inputs, k, Names(vars), lets), w.env, w.st)
    decreases k
  {
    hide Replayed, Eval, Checks, Fits, IsReplayed, Clashes, GoodVars;
    if k == 0 {
      LoadedFits(vars, slots);
      ReplayStarts(inputs, vars, slots, lets, fuel);
    } else {
      CheckedReplayRuns(inputs, k - 1, vars, slots, lets, fuel);
      CheckedReplaySteps(inputs, k - 1, vars, slots, lets, fuel);
    }
  }

  lemma ReplayStarts(inputs: seq<Input>, vars: seq<VarSlot>, slots: seq<Word>, lets: set<string>, fuel: nat)
    requires GoodVars(vars, slots)
    ensures var w := Replayed(inputs, 0, vars, slots, lets, fuel);
            w.Going? && w.env == LoadedEnv(vars) && w.st == LoadedStore(vars, slots)
  {
    assert inputs[..0] == [];
  }

  lemma CheckedReplaySteps(inputs: seq<Input>, k: nat, vars: seq<VarSlot>, slots: seq<Word>, lets: set<string>,
                           fuel: nat)
    requires k < |inputs| && GoodVars(vars, slots)
    requires var w := Replayed(inputs, k, vars, slots, lets, fuel);
             w.Going? && Fits(ReplayScope(inputs, k, Names(vars), lets), w.env, w.st)
    requires IsReplayed(inputs[k], Names(vars), lets) ==>
               Checks(CodeAt(inputs, k), ReplayScope(inputs, k, Names(vars), lets)).Some?
    ensures var w := Replayed(inputs, k + 1, vars, slots, lets, fuel);
            w.Going? && Fits(ReplayScope(inputs, k + 1, Names(vars), lets), w.env, w.st)
  {
    hide Replayed, Eval, Checks, Fits, GoodVars, Grows;
    ReplayedStep(inputs, k, vars, slots, lets, fuel);
    if IsReplayed(inputs[k], Names(vars), lets) {
      var w, scope := Replayed(inputs, k, vars, slots, lets, fuel), ReplayScope(inputs, k, Names(vars), lets);
      KeptForm(StmtOf(inputs[k]), Names(vars), lets);
      CheckedRuns(CodeAt(inputs, k), scope, w.env, w.st, true, fuel);
      var r := Eval(CodeAt(inputs, k), w.env, w.st, true, fuel);
      FitsLater(scope, w.env, w.st, r.store);
      if inputs[k].LetIn? { FitsBind(scope, w.env, r.store, inputs[k].name, r.value); }
    }
  }

  // ---------------------------------------------------------------------------------------
  // The wrappers of a session.
  // ---------------------------------------------------------------------------------------

  /** The session's history is that of `inputs`, whatever became of its table since. */
  ghost predicate Remembers(inputs: seq<Input>, s: Sess) {
    s.history == Recorded(inputs) && LetNames(s.lets) == LetSet(inputs) && !s.replaying
  }

  /** The wrapper of any input, with any slot table, does not run if the replay contains a clash. */
  lemma ClashingWrapperFails(inputs: seq<Input>, k: nat, inp: Input, vars: seq<VarSlot>, s: Sess, fuel: nat)
    requires k < |inputs| && Remembers(inputs, s) && GoodVars(vars, s.slots)
    requires Clashes(inputs, k, Names(vars), LetSet(inputs))
    ensures var replay := CollectReplay(s.history, Names(vars), LetNames(s.lets));
            var r := RunW(BuildBody(vars, replay, UserStmts(inp)), Machine(map[], [], s.slots, s.replaying), fuel);
            !r.WDone? && (!BlockContainsReturn(s.history) ==> r.WFail?)
  {
    hide RunW, RunTop, CollectReplay, LoadedEnv, LoadedStore, GoodVars, Clashes, BuildBody, BlockContainsReturn;
    var lets := LetSet(inputs);
    var replay := ReplayFor(inputs, vars, lets);
    ClashStops(inputs, k, vars, s.slots, lets, fuel);
    ReplayIsRun(inputs, vars, s.slots, lets, fuel);
    RunTopStart(LoadedEnv(vars), LoadedStore(vars, s.slots), true, fuel);
    var m0 := Machine(map[], [], s.slots, false);
    var m1 := m0.(env := LoadedEnv(vars), st := LoadedStore(vars, s.slots));
    var on := m1.(replaying := true);
    LoadsRun(vars, s.slots, false, fuel);
    RunSingle(SetReplaying(true), m1, fuel);
    var rest := BodyAfterReplay(vars, replay, UserStmts(inp));
    RunWAppend(Loads(vars), [SetReplaying(true)] + (Codes(replay) + rest), m0, fuel);
    RunWAppend([SetReplaying(true)], Codes(replay) + rest, m1, fuel);
    RunWAppend(Codes(replay), rest, on, fuel);
    CodesRun(replay, on, fuel);
    if !BlockContainsReturn(s.history) {
      ReplayNeverEnds(s.history, Names(vars), lets, on.env, on.st, fuel);
    }
  }

  /** So, whatever the input, its wrapper's load, replay and refresh run to their end exactly if no replayed
      input treats a variable with a slot as an array; if one does, nothing of the input is run. */
  lemma WrapperRunsIff(inputs: seq<Input>, inp: Input, s: Sess, fuel: nat)
    requires Remembers(inputs, s) && GoodVars(Probe(s.vars, inp), s.slots)
    requires ChecksBut(inputs, Names(Probe(s.vars, inp)), LetSet(inputs))
    ensures PrefixCompletes(s, inp, fuel) <==>
            forall k :: 0 <= k < |inputs| ==> !Clashes(inputs, k, Names(Probe(s.vars, inp)), LetSet(inputs))
    ensures (exists k :: 0 <= k < |inputs| && Clashes(inputs, k, Names(Probe(s.vars, inp)), LetSet(inputs))) ==>
              !Step(s, inp, fuel).Next?
  {
    hide RunW, RunTop, Replayed, CollectReplay, LoadedEnv, LoadedStore, GoodVars, Clashes, BuildBody, ChecksBut, Probe,
         Prefix, SlotsInPlace, BlockContainsReturn, Stirred, LitsTo, TidyStore, TidyEnv, SteadySlots;
    var vars, lets := Probe(s.vars, inp), LetSet(inputs);
    ReplayForIs(inputs, vars, lets);
    ReplayIsRun(inputs, vars, s.slots, lets, fuel);
    if k :| 0 <= k < |inputs| && Clashes(inputs, k, Names(vars), lets) {
      ClashStops(inputs, k, vars, s.slots, lets, fuel);
      if PrefixCompletes(s, inp, fuel) { PrefixMeansReplay(inputs, vars, s.slots, lets, fuel); }
      ClashingWrapperFails(inputs, k, inp, vars, s, fuel);
    } else {
      CheckedReplayRuns(inputs, |inputs|, vars, s.slots, lets, fuel);
      ReplayKeepsSlots(inputs, |inputs|, vars, s.slots, lets, fuel);
      var m := PrefixRuns(vars, s.slots, ReplayFor(inputs, vars, lets),
                          Replayed(inputs, |inputs|, vars, s.slots, lets, fuel), fuel);
    }
  }

  // ---------------------------------------------------------------------------------------
  // It stays so.
  // ---------------------------------------------------------------------------------------

  /** The session's history holds an expression that treats `x` as an array, and no `return`. */
  ghost predicate UsesArray(inputs: seq<Input>, s: Sess, x: string) {
    && Remembers(inputs, s)
    && !BlockContainsReturn(s.history)
    && exists k :: 0 <= k < |inputs| && inputs[k].ExprIn? && OnArray(inputs[k].expr, x)
  }

  lemma UseClashes(inputs: seq<Input>, k: nat, x: string, names: set<string>, lets: set<string>)
    requires k < |inputs| && inputs[k].ExprIn? && OnArray(inputs[k].expr, x) && x in names
    ensures Clashes(inputs, k, names, lets)
  {
    assert IsRecorded(inputs[k]) && CodeAt(inputs, k) == inputs[k].expr;
  }

  /** Then no wrapper with a slot for `x` runs. */
  lemma NoWrapperRuns(inputs: seq<Input>, s: Sess, x: string, vars: seq<VarSlot>, inp: Input, fuel: nat)
    requires UsesArray(inputs, s, x) && GoodVars(vars, s.slots) && x in Names(vars)
    ensures RunW(BuildBody(vars, CollectReplay(s.history, Names(vars), LetNames(s.lets)), UserStmts(inp)),
                 Machine(map[], [], s.slots, s.replaying), fuel).WFail?
  {
    hide RunW, CollectReplay, GoodVars, BuildBody, OnArray, Remembers, BlockContainsReturn, Clashes;
    var k :| 0 <= k < |inputs| && inputs[k].ExprIn? && OnArray(inputs[k].expr, x);
    UseClashes(inputs, k, x, Names(vars), LetSet(inputs));
    ClashingWrapperFails(inputs, k, inp, vars, s, fuel);
  }

  /** The slot table after inputs that have failed: only their probes have worked on it. */
  function TableAfter(vars: seq<VarSlot>, failed: seq<Input>): seq<VarSlot> {
    if failed == [] then vars else Probe(TableAfter(vars, ButLast(failed)), Last(failed))
  }

  /** Once `x` has a slot, every input fails that does not turn it into something else; and of those that do,
      the probe's own wrapper, which is built with the table before, fails. */
  lemma WedgedForGood(inputs: seq<Input>, s: Sess, x: string, later: seq<Input>, inp: Input, fuel: nat)
    requires UsesArray(inputs, s, x) && x in Names(s.vars) && Shaped(s.vars)
    requires forall i :: 0 <= i < |later| ==> !(later[i].LetIn? && !later[i].isInt && later[i].name == x)
    requires GoodVars(TableAfter(s.vars, later), s.slots)
    ensures var vars := TableAfter(s.vars, later);
            && x in Names(vars) && Shaped(vars)
            && RunW(BuildBody(vars, CollectReplay(s.history, Names(vars), LetNames(s.lets)), UserStmts(inp)),
                    Machine(map[], [], s.slots, s.replaying), fuel).WFail?
    ensures var vars := TableAfter(s.vars, later);
            GoodVars(Probe(vars, inp), s.slots) && !(inp.LetIn? && !inp.isInt && inp.name == x) ==>
              Step(s.(vars := vars), inp, fuel).Stuck?
  {
    hide RunW, CollectReplay, GoodVars, BuildBody, UsesArray, Probe, Shaped;
    var vars := TableAfter(s.vars, later);
    TableKeeps(s.vars, x, later);
    NoWrapperRuns(inputs, s, x, vars, inp, fuel);
    if GoodVars(Probe(vars, inp), s.slots) && !(inp.LetIn? && !inp.isInt && inp.name == x) {
      ProbeKeeps(vars, x, inp);
      NoWrapperRuns(inputs, s, x, Probe(vars, inp), inp, fuel);
    }
  }

  lemma {:induction false} TableKeeps(vars: seq<VarSlot>, x: string, later: seq<Input>)
    requires x in Names(vars) && Shaped(vars)
    requires forall i :: 0 <= i < |later| ==> !(later[i].LetIn? && !later[i].isInt && later[i].name == x)
    ensures x in Names(TableAfter(vars, later)) && Shaped(TableAfter(vars, later))
  {
    hide Probe, Shaped;
    if later != [] {
      TableKeeps(vars, x, ButLast(later));
      ProbeKeeps(TableAfter(vars, ButLast(later)), x, Last(later));
    }
  }

  lemma ProbeKeeps(vars: seq<VarSlot>, x: string, inp: Input)
    requires x in Names(vars) && Shaped(vars) && !(inp.LetIn? && !inp.isInt && inp.name == x)
    ensures x in Names(Probe(vars, inp)) && Shaped(Probe(vars, inp))
  {
    hide Probe, Shaped;
    ProbeShaped(vars, inp);
    ProbeKeepsEntries(vars, inp);
    NamesAreOfEntries(vars, x);
    NamesAreOfEntries(Probe(vars, inp), x);
  }

  // ---------------------------------------------------------------------------------------
  // A session.
  // ---------------------------------------------------------------------------------------

  /** `let v = []`, `v.push(k)`. */
  function Pushed(k: Word): seq<Input> {
    [LetIn(true, "v", EmptyArray, false), ExprIn(MethodCall(Ident("v"), Push, IntLit(k), None))]
  }

  /** A table that was only added to. */
  ghost predicate OnlyAdded(vars: seq<VarSlot>) {
    AppendOnly(vars) && |vars| <= REPL_MAX_SLOTS && forall i :: 0 <= i < |vars| ==> vars[i].ty == Int
  }

  lemma {:induction false} TableOnlyAdded(vars: seq<VarSlot>, later: seq<Input>)
    requires OnlyAdded(vars) && forall i :: 0 <= i < |later| ==> later[i].LetIn? ==> later[i].isInt
    ensures OnlyAdded(TableAfter(vars, later))
  {
    if later != [] {
      TableOnlyAdded(vars, ButLast(later));
    }
  }

  lemma AddedIsGood(vars: seq<VarSlot>, slots: seq<Word>)
    requires OnlyAdded(vars) && |slots| == REPL_MAX_SLOTS
    ensures GoodVars(vars, slots) && Shaped(vars)
  {
  }

  /** `let v = m` after these gives `v` a slot and so drops the array from the replay, but not the `push`: its
      wrapper fails, and so do those of all expressions and `Int` bindings after it. */
  lemma ASlotForAnArrayWedges(k: Word, m: Word, s: Sess, later: seq<Input>, inp: Input, fuel: nat)
    requires Synced(Pushed(k), s, fuel)
    requires forall i :: 0 <= i < |later| ==> later[i].LetIn? ==> later[i].isInt
    requires inp.LetIn? ==> inp.isInt
    ensures var first := LetIn(true, "v", IntLit(m), true);
            && Step(s, first, fuel).Stuck?
            && Step(s.(vars := TableAfter(Probe(s.vars, first), later)), inp, fuel).Stuck?
  {
    hide Program, RunW, CollectReplay, Probe, Table, GoodVars, UsesArray, OnlyAdded, Shaped, BuildBody, TableAfter;
    var first, vars := LetIn(true, "v", IntLit(m), true), [VarSlot("v", Int, 0, true)];
    PushedTable(k, m);
    PushedUsesArray(k, s);
    OneIsAdded();
    AddedIsGood(vars, s.slots);
    NoWrapperRuns(Pushed(k), s, "v", vars, first, fuel);
    var s1 := s.(vars := vars);
    PushedUsesArray(k, s1);
    TableOnlyAdded(vars, later);
    TableOnlyAdded(vars, later + [inp]);
    AfterOneMore(vars, later, inp);
    AddedIsGood(TableAfter(vars, later), s.slots);
    AddedIsGood(TableAfter(vars, later + [inp]), s.slots);
    WedgedForGood(Pushed(k), s1, "v", later, inp, fuel);
  }

  lemma AfterOneMore(vars: seq<VarSlot>, later: seq<Input>, inp: Input)
    ensures TableAfter(vars, later + [inp]) == Probe(TableAfter(vars, later), inp)
  {
    assert ButLast(later + [inp]) == later;
  }

  lemma OneIsAdded()
    ensures OnlyAdded([VarSlot("v", Int, 0, true)])
  {
  }

  lemma PushedTable(k: Word, m: Word)
    ensures var vars := [VarSlot("v", Int, 0, true)];
            && Table(Pushed(k)) == [] && Probe([], LetIn(true, "v", IntLit(m), true)) == vars && Names(vars) == {"v"}
  {
    var inputs := Pushed(k);
    NoSlots(inputs);
    assert [VarSlot("v", Int, 0, true)][0].name == "v";
  }

  lemma PushedUsesArray(k: Word, s: Sess)
    requires Remembers(Pushed(k), s)
    ensures UsesArray(Pushed(k), s, "v")
  {
    hide ContainsReturn, BlockContainsReturn, Writes, IsLit;
    var inputs := Pushed(k);
    CallIsPlain("v", Push, k, "v", Mutating);
    EmptyReturnsNot();
    RecordedReturnless(inputs);
    assert inputs[1].ExprIn? && OnArray(inputs[1].expr, "v");
  }

  lemma EmptyReturnsNot()
    ensures !ContainsReturn(EmptyArray)
  {
  }
}
