/** What the history does not keep: an input that is left out of the replay loses whatever it did to
    variables without a slot. */
module ReplLosses {
  import opened Common
  import opened ReplSyntax
  import opened ReplSemantics
  import opened ReplSteps
  import opened ReplFrames
  import opened ReplSimulation
  import opened ReplSession
  import opened ReplReplay
  import opened ReplRuns
  import opened ReplTheorems
  import opened ReplKinds
  import opened ReplFaithful
  import opened ReplReturns

  // ---------------------------------------------------------------------------------------
  // An input that is not replayed is lost exactly if it did something.
  // ---------------------------------------------------------------------------------------

  /** What the variable `v` is worth in a scope. */
  function ValueIn(v: string, env: Env, st: Store): Option<Value> {
    if Bound(v, env, st) then Some(st[env[v]].value) else None
  }

  ghost predicate HoldsArray(v: string, env: Env, st: Store) {
    Bound(v, env, st) && st[env[v]].value.ArrV?
  }

  /** From the `k`-th input on nothing writes or declares `v`, and no closure ever writes it. */
  ghost predicate Rests(inputs: seq<Input>, k: nat, v: string) {
    && !LitWrites(inputs, |inputs|, v)
    && forall j :: k <= j < |inputs| ==> !Writes(CodeAt(inputs, j), v, Mutating) && !Declares(inputs[j], v)
  }

  /** A replayed input that does not concern `v` leaves it as it is. */
  lemma ReplayLeaves(inputs: seq<Input>, j: nat, vars: seq<VarSlot>, slots: seq<Word>, lets: set<string>, v: string,
                     fuel: nat)
    requires j < |inputs| && GoodVars(vars, slots) && !LitWrites(inputs, |inputs|, v)
    requires IsReplayed(inputs[j], Names(vars), lets) ==>
               !Writes(CodeAt(inputs, j), v, Mutating) && !Declares(inputs[j], v)
    requires Replayed(inputs, j + 1, vars, slots, lets, fuel).Going?
    requires var w := Replayed(inputs, j, vars, slots, lets, fuel);
             w.Going? && WrapperTidy(inputs, j, vars, slots, lets, w) && Bound(v, w.env, w.st)
    ensures var w, w' := Replayed(inputs, j, vars, slots, lets, fuel), Replayed(inputs, j + 1, vars, slots, lets, fuel);
            Bound(v, w'.env, w'.st) && ValueIn(v, w'.env, w'.st) == ValueIn(v, w.env, w.st)
  {
    hide Replayed, Eval, Writes, LitWrites, SteadySlots, SlotsInPlace;
    ReplayedStep(inputs, j, vars, slots, lets, fuel);
    var w := Replayed(inputs, j, vars, slots, lets, fuel);
    if IsReplayed(inputs[j], Names(vars), lets) {
      KeptForm(StmtOf(inputs[j]), Names(vars), lets);
      LitWritesLess(inputs, j, v);
      UnwrittenShy(inputs, j, w.st, v);
      Frame(CodeAt(inputs, j), w.env, w.st, true, fuel, v, Mutating);
    }
  }

  /** From the `k`-th input on the replay leaves a variable at rest as it is, whatever else it does. */
  lemma {:induction false} ReplayRests(inputs: seq<Input>, k: nat, j: nat, vars: seq<VarSlot>, slots: seq<Word>,
                                       lets: set<string>, v: string, fuel: nat)
    requires k <= j <= |inputs| && GoodVars(vars, slots) && Rests(inputs, k, v)
    requires Replayed(inputs, j, vars, slots, lets, fuel).Going?
    requires var w := Replayed(inputs, k, vars, slots, lets, fuel);
             w.Going? ==> WrapperTidy(inputs, k, vars, slots, lets, w) && Bound(v, w.env, w.st)
    ensures var w, w' := Replayed(inputs, k, vars, slots, lets, fuel), Replayed(inputs, j, vars, slots, lets, fuel);
            && w.Going? && WrapperTidy(inputs, j, vars, slots, lets, w') && Bound(v, w'.env, w'.st)
            && ValueIn(v, w'.env, w'.st) == ValueIn(v, w.env, w.st)
    decreases j
  {
    hide Replayed, WrapperTidy, ExecStmt, LitWrites, Writes;
    if k < j {
      ReplayedStep(inputs, j - 1, vars, slots, lets, fuel);
      ReplayRests(inputs, k, j - 1, vars, slots, lets, v, fuel);
      ReplayLeaves(inputs, j - 1, vars, slots, lets, v, fuel);
      WrapperGoesOn(inputs, j - 1, vars, slots, lets, fuel);
    }
  }

  /** `v` is a variable without a slot that holds an array when the `k`-th input comes, which does not
      declare it, and rests afterwards. */
  ghost predicate Watched(inputs: seq<Input>, k: nat, names: set<string>, v: string, fuel: nat) {
    && k < |inputs|
    && (var p := Program(inputs[..k], fuel); p.Going? && HoldsArray(v, p.env, p.st))
    && v !in names
    && !Declares(inputs[k], v)
    && Rests(inputs, k + 1, v)
  }

  /** In a history that replays exactly up to the `k`-th input, which is not replayed, the replay's `v`
      is the program's before that input. */
  lemma ReplayIsBehind(inputs: seq<Input>, k: nat, vars: seq<VarSlot>, slots: seq<Word>, lets: set<string>,
                       v: string, fuel: nat)
    requires Setting(inputs, k, vars, slots, lets, fuel) && Watched(inputs, k, Names(vars), v, fuel)
    requires !IsReplayed(inputs[k], Names(vars), lets)
    requires Replayed(inputs, |inputs|, vars, slots, lets, fuel).Going?
    ensures var w, p := Replayed(inputs, |inputs|, vars, slots, lets, fuel), Program(inputs[..k], fuel);
            Bound(v, w.env, w.st) && ValueIn(v, w.env, w.st) == ValueIn(v, p.env, p.st)
    ensures SlotsInPlace(vars, Replayed(inputs, |inputs|, vars, slots, lets, fuel).env,
                         Replayed(inputs, |inputs|, vars, slots, lets, fuel).st)
  {
    hide Replayed, Program, Setting, Writes, LitWrites, SteadySlots, TidyStore, TidyEnv, OwnLinks, LiveLinks, SlotLinks;
    SettingParts(inputs, k, vars, slots, lets, fuel);
    ReplayGoesBack(inputs, k, |inputs|, vars, slots, lets, fuel);
    ReplayedStep(inputs, k, vars, slots, lets, fuel);
    var link := Rebuild(inputs, k, k, vars, slots, lets, fuel);
    var p, w := Program(inputs[..k], fuel), Replayed(inputs, k, vars, slots, lets, fuel);
    assert CellRel(p.env[v], p.st, w.st, link, CareTo(inputs, k, Names(vars), lets));
    WrapperIdles(inputs, k, vars, slots, lets, w);
    ReplayRests(inputs, k + 1, |inputs|, vars, slots, lets, v, fuel);
  }

  lemma {:induction false} ReplayGoesBack(inputs: seq<Input>, k: nat, j: nat, vars: seq<VarSlot>, slots: seq<Word>,
                                          lets: set<string>, fuel: nat)
    requires k <= j <= |inputs| && GoodVars(vars, slots) && Replayed(inputs, j, vars, slots, lets, fuel).Going?
    ensures Replayed(inputs, k, vars, slots, lets, fuel).Going?
    decreases j
  {
    hide Replayed, ExecStmt;
    if k < j {
      ReplayedStep(inputs, j - 1, vars, slots, lets, fuel);
      ReplayGoesBack(inputs, k, j - 1, vars, slots, lets, fuel);
    }
  }

  /** The program's `v` is at the end what the `k`-th input left. */
  lemma ProgramRests(inputs: seq<Input>, k: nat, names: set<string>, v: string, fuel: nat)
    requires Watched(inputs, k, names, v, fuel) && Program(inputs, fuel).Going?
    ensures var q, t := Program(inputs[..k + 1], fuel), Program(inputs, fuel);
            && q.Going? && Bound(v, q.env, q.st) && Bound(v, t.env, t.st)
            && ValueIn(v, t.env, t.st) == ValueIn(v, q.env, q.st)
  {
    hide Program, Eval, Writes, LitWrites, TidyStore;
    ProgramPrefix(inputs, k + 1, fuel);
    ProgramStep(inputs, k, fuel);
    UntouchedToTheEnd(inputs, k + 1, v, fuel);
  }

  /** The value `v` has for the user's statements in the wrapper built for `inp`. */
  function WrapperSees(s: Sess, inp: Input, v: string, fuel: nat): Option<Value> {
    var vars := Probe(s.vars, inp);
    match RunW(Prefix(vars, CollectReplay(s.history, Names(vars), LetNames(s.lets))),
               Machine(map[], [], s.slots, s.replaying), fuel)
    case WDone(_, m, _) => ValueIn(v, m.env, m.st)
    case _ => None
  }

  /** Loading and refreshing slots do not concern a variable without one. */
  lemma WrapperSeesReplay(inputs: seq<Input>, inp: Input, s: Sess, v: string, fuel: nat)
    requires Synced(inputs, s, fuel) && GoodVars(Probe(s.vars, inp), s.slots) && PrefixCompletes(s, inp, fuel)
    requires v !in Names(Probe(s.vars, inp))
    requires var w := Replayed(inputs, |inputs|, Probe(s.vars, inp), s.slots, LetSet(inputs), fuel);
             w.Going? ==> SlotsInPlace(Probe(s.vars, inp), w.env, w.st)
    ensures var w := Replayed(inputs, |inputs|, Probe(s.vars, inp), s.slots, LetSet(inputs), fuel);
            w.Going? && WrapperSees(s, inp, v, fuel) == ValueIn(v, w.env, w.st)
  {
    hide RunW, RunTop, Program, CollectReplay, Prefix, Probe, GoodVars, SlotsAgree, InScope, Table, BlockMutatesSlot,
         Grows;
    var vars, lets := Probe(s.vars, inp), LetSet(inputs);
    WholeIsPrefix(inputs);
    ReplayForIs(inputs, vars, lets);
    PrefixMeansReplay(inputs, vars, s.slots, lets, fuel);
    var w := Replayed(inputs, |inputs|, vars, s.slots, lets, fuel);
    var m := PrefixRuns(vars, s.slots, ReplayFor(inputs, vars, lets), w, fuel);
    if v in m.env && m.env[v] < |m.st| {
      SlotCellsAreNamed(vars, w.env, w.st, v);
    }
  }

  lemma SlotCellsAreNamed(vars: seq<VarSlot>, env: Env, st: Store, v: string)
    requires SlotsInPlace(vars, env, st) && v !in Names(vars)
    ensures Bound(v, env, st) ==> env[v] >= |vars|
    ensures forall c :: 0 <= c < |vars| ==> st[c].name in Names(vars)
  {
    forall c | 0 <= c < |vars| ensures st[c].name in Names(vars) {
      assert vars[c].name in Names(vars);
    }
  }

  /** A session in step whose history replays exactly up to the `k`-th input, when the input `inp` comes
      and its wrapper's prefix runs to its end. */
  ghost predicate IntactTo(inputs: seq<Input>, k: nat, inp: Input, s: Sess, fuel: nat) {
    && k < |inputs|
    && Synced(inputs, s, fuel)
    && Admissible(inputs, inp, fuel)
    && ReplayableTo(inputs, k, NamesFor(inputs, inp), LetSet(inputs))
    && PrefixCompletes(s, inp, fuel)
  }

  lemma IntactParts(inputs: seq<Input>, k: nat, inp: Input, s: Sess, fuel: nat)
    requires IntactTo(inputs, k, inp, s, fuel)
    ensures Setting(inputs, k, Probe(s.vars, inp), s.slots, LetSet(inputs), fuel)
    ensures Synced(inputs, s, fuel) && PrefixCompletes(s, inp, fuel) && GoodVars(Probe(s.vars, inp), s.slots)
    ensures NamesFor(inputs, inp) == Names(Probe(s.vars, inp)) && Program(inputs, fuel).Going? && k < |inputs|
  {
    hide Program, RunW, ReplayableTo, Admissible, Prefix, IsReplayed, PrefixCompletes, Probe;
    SettingHolds(inputs, k, inp, s, fuel);
    ProbeAgrees(inputs, inp, s, fuel);
  }

  /** Then, if the `k`-th input is not replayed, a variable without a slot is in the wrapper what it was
      before that input; so it is what it is in the program exactly if the input left it as it was. */
  lemma NotReplayedIsLostIff(inputs: seq<Input>, k: nat, inp: Input, s: Sess, v: string, fuel: nat)
    requires IntactTo(inputs, k, inp, s, fuel) && Watched(inputs, k, NamesFor(inputs, inp), v, fuel)
    requires !IsReplayed(inputs[k], NamesFor(inputs, inp), LetSet(inputs))
    ensures Program(inputs[..k], fuel).Going? && Program(inputs[..k + 1], fuel).Going? && Program(inputs, fuel).Going?
    ensures var p, q, t := Program(inputs[..k], fuel), Program(inputs[..k + 1], fuel), Program(inputs, fuel);
            && WrapperSees(s, inp, v, fuel) == ValueIn(v, p.env, p.st)
            && (WrapperSees(s, inp, v, fuel) == ValueIn(v, t.env, t.st) <==>
                ValueIn(v, q.env, q.st) == ValueIn(v, p.env, p.st))
  {
    hide Program, RunW, RunTop, Replayed, Setting, Prefix, GoodVars, SlotsInPlace, Synced, WrapperSees, Probe, ValueIn,
         PrefixCompletes, IsReplayed, LetSet, IntactTo, NamesFor;
    var vars, lets := Probe(s.vars, inp), LetSet(inputs);
    IntactParts(inputs, k, inp, s, fuel);
    ReplayEnds(inputs, inp, s, fuel);
    ReplayIsBehind(inputs, k, vars, s.slots, lets, v, fuel);
    WrapperSeesReplay(inputs, inp, s, v, fuel);
    ProgramRests(inputs, k, Names(vars), v, fuel);
  }

  lemma ReplayEnds(inputs: seq<Input>, inp: Input, s: Sess, fuel: nat)
    requires Synced(inputs, s, fuel) && GoodVars(Probe(s.vars, inp), s.slots) && PrefixCompletes(s, inp, fuel)
    ensures Replayed(inputs, |inputs|, Probe(s.vars, inp), s.slots, LetSet(inputs), fuel).Going?
  {
    hide RunW, RunTop, Program, CollectReplay, Prefix, Probe, GoodVars, SlotsAgree, InScope, Table;
    var vars, lets := Probe(s.vars, inp), LetSet(inputs);
    ReplayForIs(inputs, vars, lets);
    PrefixMeansReplay(inputs, vars, s.slots, lets, fuel);
  }

  // ---------------------------------------------------------------------------------------
  // Which inputs left out of the replay did something.
  // ---------------------------------------------------------------------------------------

  /** Evaluating `e` can change the array `v` only by calls of `remove` that operators are applied to. */
  predicate TakesFrom(e: Expr, v: string)
    decreases e
  {
    || !Writes(e, v, Mutating)
    || (e.MethodCall? && e.call.RemoveAt? && e.receiver == Ident(v) && !Writes(e.arg, v, Mutating))
    || (e.Binary? && TakesFrom(e.left, v) && TakesFrom(e.right, v))
  }

  /** Evaluating `e` is one call of `push`. */
  predicate Pushes(e: Expr, v: string) {
    e.MethodCall? && e.call.Push? && e.receiver == Ident(v) && !Writes(e.arg, v, Mutating)
  }

  /** The array `v` is shorter afterwards if `taken`, and else the same. */
  ghost predicate Shortened(v: string, env: Env, st: Store, st': Store, taken: bool) {
    && HoldsArray(v, env, st) && HoldsArray(v, env, st') && ShyStore(st', v, Mutating)
    && |st'[env[v]].value.elems| <= |st[env[v]].value.elems|
    && (taken ==> |st'[env[v]].value.elems| < |st[env[v]].value.elems|)
    && (!taken ==> st'[env[v]] == st[env[v]])
  }

  lemma LeavesArray(e: Expr, env: Env, st: Store, quiet: bool, fuel: nat, v: string)
    requires HoldsArray(v, env, st) && ShyStore(st, v, Mutating) && !Writes(e, v, Mutating)
    requires Eval(e, env, st, quiet, fuel).Done?
    ensures Shortened(v, env, st, Eval(e, env, st, quiet, fuel).store, false)
  {
    hide Eval, Writes, ShyStore;
    Frame(e, env, st, quiet, fuel, v, Mutating);
  }

  lemma ShyUpdate(st: Store, c: nat, cell: Cell, x: string, t: Touch)
    requires ShyStore(st, x, t) && c < |st| && !cell.value.CloV?
    ensures ShyStore(st[c := cell], x, t)
  {
    var st' := st[c := cell];
    forall d | 0 <= d < |st'| ensures Shy(st'[d].value, x, t) {
      assert Shy(st[d].value, x, t);
    }
  }

  /** One `push` or `remove` on the array, after its argument. */
  lemma CallCounts(e: Expr, env: Env, st: Store, quiet: bool, fuel: nat, v: string)
    requires HoldsArray(v, env, st) && ShyStore(st, v, Mutating)
    requires e.MethodCall? && !e.call.Each? && e.receiver == Ident(v) && !Writes(e.arg, v, Mutating)
    requires Eval(e, env, st, quiet, fuel).Done?
    ensures var st' := Eval(e, env, st, quiet, fuel).store;
            && HoldsArray(v, env, st') && ShyStore(st', v, Mutating)
            && |st'[env[v]].value.elems| == |st[env[v]].value.elems| + if e.call.Push? then 1 else -1
  {
    hide Eval, Writes, ShyStore;
    BinaryRan(e, env, st, quiet, fuel);
    EvalLeaf(e.receiver, env, st, quiet, fuel);
    LeavesArray(e.arg, env, st, quiet, fuel, v);
    EvalBinary(e, env, st, quiet, fuel);
    var st1 := Eval(e.arg, env, st, quiet, fuel).store;
    var st' := Eval(e, env, st, quiet, fuel).store;
    ShyUpdate(st1, env[v], st'[env[v]], v, Mutating);
    assert st' == st1[env[v] := st'[env[v]]];
  }

  /** Every `remove` that runs takes an element. */
  lemma {:induction false} TakesByRemoving(e: Expr, env: Env, st: Store, quiet: bool, fuel: nat, v: string)
    requires HoldsArray(v, env, st) && ShyStore(st, v, Mutating) && TakesFrom(e, v)
    requires Eval(e, env, st, quiet, fuel).Done?
    ensures Shortened(v, env, st, Eval(e, env, st, quiet, fuel).store, Writes(e, v, Mutating))
    decreases e
  {
    hide Eval, ShyStore;
    if !Writes(e, v, Mutating) {
      LeavesArray(e, env, st, quiet, fuel, v);
    } else if e.Binary? {
      BinaryRan(e, env, st, quiet, fuel);
      TakesByRemoving(e.left, env, st, quiet, fuel, v);
      TakesByRemoving(e.right, env, Eval(e.left, env, st, quiet, fuel).store, quiet, fuel, v);
      EvalBinary(e, env, st, quiet, fuel);
      BinaryWrites(e, v);
    } else {
      CallCounts(e, env, st, quiet, fuel, v);
    }
  }

  lemma BinaryWrites(e: Expr, v: string)
    requires e.Binary? && Writes(e, v, Mutating)
    ensures Writes(e.left, v, Mutating) || Writes(e.right, v, Mutating)
  {
    assert Operands(e)[0] == e.left && Operands(e)[1] == e.right;
  }

  /** Assigning another variable afterwards changes nothing of this. */
  lemma AssignAfter(e: Expr, env: Env, st: Store, quiet: bool, fuel: nat, v: string)
    requires (e.Assign? || e.CompoundAssign?) && e.target != v && HoldsArray(v, env, st)
    requires Eval(e, env, st, quiet, fuel).Done? && Eval(e.value, env, st, quiet, fuel).Done?
    requires HoldsArray(v, env, Eval(e.value, env, st, quiet, fuel).store)
    ensures var st1, st2 := Eval(e.value, env, st, quiet, fuel).store, Eval(e, env, st, quiet, fuel).store;
            HoldsArray(v, env, st2) && st2[env[v]] == st1[env[v]]
    ensures Writes(e, v, Mutating) <==> Writes(e.value, v, Mutating)
  {
    hide Eval;
    assert Operands(e)[0] == e.value;
    EvalUnary(e, env, st, quiet, fuel);
  }

  /** What `e` does to the array `v`, it does by `remove`s under operators, or by one `push` whose result
      is assigned to something else. */
  predicate Countable(e: Expr, v: string) {
    || TakesFrom(e, v)
    || ((e.Assign? || e.CompoundAssign?) && e.target != v && (TakesFrom(e.value, v) || Pushes(e.value, v)))
  }

  /** Such code changes the array exactly if it contains such a call. */
  lemma CountableChangesIff(e: Expr, env: Env, st: Store, quiet: bool, fuel: nat, v: string)
    requires HoldsArray(v, env, st) && ShyStore(st, v, Mutating) && Countable(e, v)
    requires Eval(e, env, st, quiet, fuel).Done?
    ensures var st' := Eval(e, env, st, quiet, fuel).store;
            HoldsArray(v, env, st') && (st'[env[v]] == st[env[v]] <==> !Writes(e, v, Mutating))
  {
    hide Eval, ShyStore;
    if TakesFrom(e, v) {
      TakesByRemoving(e, env, st, quiet, fuel, v);
    } else {
      UnaryRan(e, env, st, quiet, fuel);
      if TakesFrom(e.value, v) {
        TakesByRemoving(e.value, env, st, quiet, fuel, v);
      } else {
        CallCounts(e.value, env, st, quiet, fuel, v);
        assert WritesHere(e.value, v, Mutating);
      }
      AssignAfter(e, env, st, quiet, fuel, v);
    }
  }

  /** An array that loses by an input that is not replayed: in every later wrapper it is what it is in the
      program exactly if that input contains no call on it. */
  lemma CallsAreLostIff(inputs: seq<Input>, k: nat, inp: Input, s: Sess, v: string, fuel: nat)
    requires IntactTo(inputs, k, inp, s, fuel) && Watched(inputs, k, NamesFor(inputs, inp), v, fuel)
    requires !IsReplayed(inputs[k], NamesFor(inputs, inp), LetSet(inputs)) && Countable(CodeAt(inputs, k), v)
    ensures var t := Program(inputs, fuel);
            t.Going? && (WrapperSees(s, inp, v, fuel) == ValueIn(v, t.env, t.st) <==>
                         !Writes(CodeAt(inputs, k), v, Mutating))
  {
    hide Program, Eval, IntactTo, WrapperSees, IsReplayed, NamesFor, LetSet, Writes, Countable, ShyStore, TidyStore,
         LitWrites;
    IntactParts(inputs, k, inp, s, fuel);
    NotReplayedIsLostIff(inputs, k, inp, s, v, fuel);
    ProgramStep(inputs, k, fuel);
    ProgramTidy(inputs, k, fuel);
    var p := Program(inputs[..k], fuel);
    LitWritesLess(inputs, k, v);
    UnwrittenShy(inputs, k, p.st, v);
    CountableChangesIff(CodeAt(inputs, k), p.env, p.st, false, fuel, v);
    ValueAfter(StmtOf(inputs[k]), p.env, p.st, fuel, v);
  }

  lemma ValueAfter(s: Stmt, env: Env, st: Store, fuel: nat, v: string)
    requires !(s.Let? && s.name == v) && HoldsArray(v, env, st) && Eval(Code(s), env, st, false, fuel).Done?
    requires HoldsArray(v, env, Eval(Code(s), env, st, false, fuel).store)
    ensures var st1, r := Eval(Code(s), env, st, false, fuel).store, ExecStmt(s, env, st, false, fuel);
            r.Done? && (ValueIn(v, EnvAfter(s, env, r.store), r.store) == ValueIn(v, env, st) <==>
                        st1[env[v]] == st[env[v]])
  {
    hide Eval;
  }

  /** An assignment to a variable with a slot is dropped from the replay, and with it what its right-hand
      side did to an array: every later wrapper has the array the program has exactly if the right-hand
      side contains no call on it. */
  lemma DroppedAssignmentLosesIff(inputs: seq<Input>, k: nat, inp: Input, s: Sess, v: string, fuel: nat)
    requires IntactTo(inputs, k, inp, s, fuel) && Watched(inputs, k, NamesFor(inputs, inp), v, fuel)
    requires inputs[k].ExprIn? && (inputs[k].expr.Assign? || inputs[k].expr.CompoundAssign?)
    requires var e := inputs[k].expr;
             e.target in NamesFor(inputs, inp) && (TakesFrom(e.value, v) || Pushes(e.value, v))
    ensures var t := Program(inputs, fuel);
            t.Going? && (WrapperSees(s, inp, v, fuel) == ValueIn(v, t.env, t.st) <==>
                         !Writes(inputs[k].expr.value, v, Mutating))
  {
    hide Program, IntactTo, WrapperSees, NamesFor, Watched, TakesFrom, Pushes;
    IntactParts(inputs, k, inp, s, fuel);
    var e := inputs[k].expr;
    WatchedHasNoSlot(inputs, k, NamesFor(inputs, inp), v, fuel);
    CallsAreLostIff(inputs, k, inp, s, v, fuel);
    AssignWrites(e, v);
  }

  lemma WatchedHasNoSlot(inputs: seq<Input>, k: nat, names: set<string>, v: string, fuel: nat)
    requires Watched(inputs, k, names, v, fuel)
    ensures v !in names
  {
  }

  lemma AssignWrites(e: Expr, v: string)
    requires (e.Assign? || e.CompoundAssign?) && e.target != v
    ensures Writes(e, v, Mutating) <==> Writes(e.value, v, Mutating)
  {
    assert Operands(e)[0] == e.value;
  }

  /** An operator's value is not recorded: every later wrapper has the array the program has exactly if
      nothing the operator is applied to is a call on it. */
  lemma UnrecordedOperatorLosesIff(inputs: seq<Input>, k: nat, inp: Input, s: Sess, v: string, fuel: nat)
    requires IntactTo(inputs, k, inp, s, fuel) && Watched(inputs, k, NamesFor(inputs, inp), v, fuel)
    requires inputs[k].ExprIn? && inputs[k].expr.Binary? && TakesFrom(inputs[k].expr, v)
    ensures var t := Program(inputs, fuel);
            t.Going? && (WrapperSees(s, inp, v, fuel) == ValueIn(v, t.env, t.st) <==>
                         !Writes(inputs[k].expr, v, Mutating))
  {
    CallsAreLostIff(inputs, k, inp, s, v, fuel);
  }

  /** Nothing in `e`, down to the leaves, is of a form that is recorded. */
  predicate Unrecorded(e: Expr)
    decreases e
  {
    !IsSideEffect(e) && forall i :: 0 <= i < |Operands(e)| ==> Unrecorded(Operands(e)[i])
  }

  /** Such an expression changes and prints nothing, so that nothing is lost by not recording it. */
  lemma {:induction false} UnrecordedIsPure(e: Expr, env: Env, st: Store, quiet: bool, fuel: nat)
    requires Unrecorded(e) && Eval(e, env, st, quiet, fuel).Done?
    ensures Eval(e, env, st, quiet, fuel).store == st && Eval(e, env, st, quiet, fuel).out == []
    decreases e
  {
    hide Eval;
    if e.Binary? {
      assert Operands(e)[0] == e.left && Operands(e)[1] == e.right;
      BinaryRan(e, env, st, quiet, fuel);
      UnrecordedIsPure(e.left, env, st, quiet, fuel);
      UnrecordedIsPure(e.right, env, st, quiet, fuel);
      EvalBinary(e, env, st, quiet, fuel);
    } else {
      UnrecordedLeaf(e, env, st, quiet, fuel);
    }
  }

  lemma UnrecordedLeaf(e: Expr, env: Env, st: Store, quiet: bool, fuel: nat)
    requires !IsSideEffect(e) && !e.Binary? && Eval(e, env, st, quiet, fuel).Done?
    ensures Eval(e, env, st, quiet, fuel).store == st && Eval(e, env, st, quiet, fuel).out == []
  {
    assert EvalAll(e, 0, env, st, quiet, fuel) == All([], st, []);
    assert Apply(e, [], env, st, quiet, fuel) == Act(e, [], env, st, quiet);
  }

  // ---------------------------------------------------------------------------------------
  // It shows.
  // ---------------------------------------------------------------------------------------

  /** `v.len` shows the length of the array the wrapper has. */
  lemma LenShows(inputs: seq<Input>, s: Sess, v: string, a: seq<Word>, fuel: nat)
    requires var inp := ExprIn(Len(Ident(v)));
             && Synced(inputs, s, fuel) && Admissible(inputs, inp, fuel) && PrefixCompletes(s, inp, fuel)
             && WrapperSees(s, inp, v, fuel) == Some(ArrV(a)) && !ReturnInSight(s, inp)
    requires var w := Replayed(inputs, |inputs|, Probe(s.vars, ExprIn(Len(Ident(v)))), s.slots, LetSet(inputs), fuel);
             w.Going? && SlotsInPlace(Probe(s.vars, ExprIn(Len(Ident(v)))), w.env, w.st)
    ensures var r := Step(s, ExprIn(Len(Ident(v))), fuel); r.Next? && r.value == IntV(Wrap(|a|)) && r.out == []
  {
    hide RunW, RunTop, Program, CollectReplay, Prefix, GoodVars, SlotsAgree, InScope, Table, BlockMutatesSlot, Grows,
         Eval, BuildBody, BlockReaches;
    var inp, vars, lets := ExprIn(Len(Ident(v))), s.vars, LetSet(inputs);
    ProbeAgrees(inputs, inp, s, fuel);
    AtHand(inputs, inp, s, fuel);
    WholeIsPrefix(inputs);
    ReplayForIs(inputs, vars, lets);
    var w := Replayed(inputs, |inputs|, vars, s.slots, lets, fuel);
    var m := PrefixRuns(vars, s.slots, ReplayFor(inputs, vars, lets), w, fuel);
    EvalLeaf(Ident(v), m.env, m.st, false, fuel);
    EvalUnary(inp.expr, m.env, m.st, false, fuel);
    RunOne(Expression(inp.expr), m.env, m.st, fuel);
    BodyRuns(vars, ReplayFor(inputs, vars, lets), inp, Machine(map[], [], s.slots, false), m, fuel);
  }

  /** So, after an input that is not replayed, `v.len` shows the length from before it. */
  lemma OldLengthShows(inputs: seq<Input>, k: nat, s: Sess, v: string, fuel: nat)
    requires var inp := ExprIn(Len(Ident(v)));
             && IntactTo(inputs, k, inp, s, fuel) && Watched(inputs, k, NamesFor(inputs, inp), v, fuel)
             && !IsReplayed(inputs[k], NamesFor(inputs, inp), LetSet(inputs)) && !ReturnInSight(s, inp)
    ensures var p, r := Program(inputs[..k], fuel), Step(s, ExprIn(Len(Ident(v))), fuel);
            && p.Going? && HoldsArray(v, p.env, p.st)
            && r.Next? && r.value == IntV(Wrap(|p.st[p.env[v]].value.elems|))
  {
    hide Program, RunW, RunTop, Replayed, Setting, Prefix, GoodVars, SlotsInPlace, Synced, WrapperSees, Probe, Step,
         PrefixCompletes, IsReplayed, LetSet, NamesFor, Admissible, ReplayableTo, ReturnInSight, Rests;
    var inp := ExprIn(Len(Ident(v)));
    var p, vars := Program(inputs[..k], fuel), Probe(s.vars, inp);
    IntactParts(inputs, k, inp, s, fuel);
    ReplayEnds(inputs, inp, s, fuel);
    ReplayIsBehind(inputs, k, vars, s.slots, LetSet(inputs), v, fuel);
    NotReplayedIsLostIff(inputs, k, inp, s, v, fuel);
    LenShows(inputs, s, v, p.st[p.env[v]].value.elems, fuel);
  }

  /** If the first `k` inputs complete and the others are not replayed, the next wrapper's prefix runs to
      its end. */
  lemma PrefixGoesTo(inputs: seq<Input>, k: nat, inp: Input, s: Sess, fuel: nat)
    requires Synced(inputs, s, fuel) && Admissible(inputs, inp, fuel) && |inputs| == k + 1
    requires ReplayableTo(inputs, k, NamesFor(inputs, inp), LetSet(inputs))
    requires forall i :: 0 <= i < k ==> Completes(inputs, i, NamesFor(inputs, inp), LetSet(inputs), fuel)
    requires !IsReplayed(inputs[k], NamesFor(inputs, inp), LetSet(inputs))
    ensures PrefixCompletes(s, inp, fuel)
  {
    hide Program, RunTop, RunW, Admissible, GoodVars, SlotsAgree, Completes, Setting, EnvRel, StoreRel, InScope,
         IsReplayed, TidyEnv, TidyStore, SteadySlots, SlotLinks, OwnLinks, LiveLinks, Prefix, Probe, ReplayableTo,
         Table, ExecStmt;
    var vars, lets := Probe(s.vars, inp), LetSet(inputs);
    SettingHolds(inputs, k, inp, s, fuel);
    SettingParts(inputs, k, vars, s.slots, lets, fuel);
    var link := ReplayCompletes(inputs, k, k, vars, s.slots, lets, fuel);
    ReplayedStep(inputs, k, vars, s.slots, lets, fuel);
    WholeIsPrefix(inputs);
    var w := Replayed(inputs, |inputs|, vars, s.slots, lets, fuel);
    var m := PrefixRuns(vars, s.slots, ReplayFor(inputs, vars, lets), w, fuel);
  }

  /** `v.len`. */
  function LenOf(v: string): Input {
    ExprIn(Len(Ident(v)))
  }

  /** `let v = []`, `v.push(k)`, `n + v.remove(0)`, for any operator. */
  function HiddenRemove(op: BinOp, n: Word, k: Word): seq<Input> {
    [LetIn(true, "v", EmptyArray, false),
     ExprIn(MethodCall(Ident("v"), Push, IntLit(k), None)),
     ExprIn(Binary(op, IntLit(n), MethodCall(Ident("v"), RemoveAt, IntLit(0), None)))]
  }

  function JustV(a: seq<Word>): Store {
    [Cell("v", ArrV(a))]
  }

  lemma PushRuns(a: seq<Word>, k: Word, fuel: nat)
    ensures Eval(MethodCall(Ident("v"), Push, IntLit(k), None), map["v" := 0], JustV(a), false, fuel)
            == Done(UnitV, JustV(a + [k]), [])
  {
    hide Eval;
    EvalCall("v", Push, k, map["v" := 0], JustV(a), false, fuel);
    assert JustV(a)[0 := Cell("v", ArrV(a + [k]))] == JustV(a + [k]);
  }

  lemma RemoveRuns(k: Word, fuel: nat)
    ensures Eval(MethodCall(Ident("v"), RemoveAt, IntLit(0), None), map["v" := 0], JustV([k]), false, fuel)
            == Done(IntV(k), JustV([]), [])
  {
    hide Eval;
    EvalCall("v", RemoveAt, 0, map["v" := 0], JustV([k]), false, fuel);
    var a: seq<Word> := [k];
    assert a[..0] + a[0 + 1..] == [];
    assert JustV([k])[0 := Cell("v", ArrV([]))] == JustV([]);
  }

  lemma HiddenRemoveRuns(op: BinOp, n: Word, k: Word, fuel: nat)
    ensures var r := Eval(HiddenRemove(op, n, k)[2].expr, map["v" := 0], JustV([k]), false, fuel);
            r.Done? && r.store == JustV([]) && r.out == []
  {
    hide Eval, Wrap;
    var e := HiddenRemove(op, n, k)[2].expr;
    EvalLeaf(IntLit(n), map["v" := 0], JustV([k]), false, fuel);
    RemoveRuns(k, fuel);
    EvalBinary(e, map["v" := 0], JustV([k]), false, fuel);
  }

  lemma LetV(fuel: nat)
    ensures Program([LetIn(true, "v", EmptyArray, false)], fuel) == Going(map["v" := 0], JustV([]), UnitV, [])
  {
    hide Program, Eval;
    var inp := LetIn(true, "v", EmptyArray, false);
    NothingPrinted([], fuel);
    ProgramStart([], fuel);
    EvalLeaf(EmptyArray, map[], [], false, fuel);
    ProgramGoes([], inp, fuel);
    assert [] + [inp] == [inp];
  }

  /** What the program made of these inputs computes, input by input. */
  lemma HiddenRemoveProgram(op: BinOp, n: Word, k: Word, fuel: nat)
    ensures var inputs := HiddenRemove(op, n, k);
            && Program(inputs[..1], fuel) == Going(map["v" := 0], JustV([]), UnitV, [])
            && (var p := Program(inputs[..2], fuel); p.Going? && p.env == map["v" := 0] && p.st == JustV([k]))
            && (var q := Program(inputs, fuel); q.Going? && q.env == map["v" := 0] && q.st == JustV([]))
            && (var t := Program(inputs + [LenOf("v")], fuel); t.Going? && t.value == IntV(0))
  {
    hide Program, Eval, HiddenRemove;
    var inputs := HiddenRemove(op, n, k);
    HiddenRemoveForm(op, n, k);
    LetV(fuel);
    PushRuns([], k, fuel);
    assert [] + [k] == [k];
    ProgramGoes(inputs[..1], inputs[1], fuel);
    HiddenRemoveRuns(op, n, k, fuel);
    ProgramGoes(inputs[..2], inputs[2], fuel);
    EvalLeaf(Ident("v"), map["v" := 0], JustV([]), false, fuel);
    EvalUnary(Len(Ident("v")), map["v" := 0], JustV([]), false, fuel);
    ProgramGoes(inputs, LenOf("v"), fuel);
  }

  lemma HiddenRemoveForm(op: BinOp, n: Word, k: Word)
    ensures var inputs := HiddenRemove(op, n, k);
            && |inputs| == 3 && inputs[0] == LetIn(true, "v", EmptyArray, false) && inputs[..1] == [inputs[0]]
            && inputs[1] == ExprIn(MethodCall(Ident("v"), Push, IntLit(k), None))
            && inputs[..2] == inputs[..1] + [inputs[1]]
            && inputs[2].ExprIn? && inputs[2].expr == HiddenRemove(op, n, k)[2].expr
            && inputs == inputs[..2] + [inputs[2]]
            && !IsRecorded(inputs[2]) && inputs[..0] == []
  {
  }

  /** All the session's wrappers up to then are exact. */
  lemma HiddenRemoveIsSteady(op: BinOp, n: Word, k: Word, fuel: nat)
    ensures Steady(HiddenRemove(op, n, k), fuel)
  {
    hide Program, HiddenRemove, SteadyAt;
    var inputs := HiddenRemove(op, n, k);
    HiddenRemoveForm(op, n, k);
    LetV(fuel);
    assert [] + [inputs[0]] == inputs[..1];
    forall j | 0 <= j < 3 ensures SteadyAt(inputs[..j], inputs[j], fuel) {
      SlotlessIsSteady(inputs[..j], inputs[j], fuel);
    }
  }

  /** What an operator is applied to is lost: the session has pushed one element and removed it, the
      program's array is empty, and yet `v.len` shows 1. */
  lemma OperatorsHideMutations(op: BinOp, n: Word, k: Word, fuel: nat)
    ensures var inputs := HiddenRemove(op, n, k);
            && Session(inputs, fuel).Some?
            && (var r := Step(Session(inputs, fuel).value.0, LenOf("v"), fuel); r.Next? && r.value == IntV(1))
            && (var t := Program(inputs + [LenOf("v")], fuel); t.Going? && t.value == IntV(0))
  {
    hide Program, HiddenRemove, Session, Step, Steady, Synced, ReplayableTo, Admissible, Completes, Exact, ShowsAt,
         PrefixCompletes, ReturnInSight;
    var inputs := HiddenRemove(op, n, k);
    HiddenRemoveForm(op, n, k);
    HiddenRemoveProgram(op, n, k, fuel);
    HiddenRemoveIsSteady(op, n, k, fuel);
    SteadySessionIsOnceThrough(inputs, fuel);
    var s := Session(inputs, fuel).value.0;
    HiddenRemoveIntact(op, n, k, s, fuel);
    OldLengthShows(inputs, 2, s, "v", fuel);
  }

  lemma HiddenRemoveIsPlain(op: BinOp, n: Word, k: Word, i: nat, x: string, t: Touch)
    requires i < 3
    ensures var e := CodeAt(HiddenRemove(op, n, k), i); LitFree(e) && !ContainsReturn(e)
  {
    var e := CodeAt(HiddenRemove(op, n, k), i);
    LeafIsPlain(EmptyArray, x, t);
    LeafIsPlain(IntLit(n), x, t);
    CallIsPlain("v", Push, k, x, t);
    CallIsPlain("v", RemoveAt, 0, x, t);
    if i == 2 { BinaryIsPlain(e, x, t); }
  }

  lemma HiddenRemoveIntact(op: BinOp, n: Word, k: Word, s: Sess, fuel: nat)
    requires Synced(HiddenRemove(op, n, k), s, fuel)
    ensures var inputs := HiddenRemove(op, n, k);
            && IntactTo(inputs, 2, LenOf("v"), s, fuel) && Watched(inputs, 2, NamesFor(inputs, LenOf("v")), "v", fuel)
            && !IsReplayed(inputs[2], NamesFor(inputs, LenOf("v")), LetSet(inputs)) && !ReturnInSight(s, LenOf("v"))
  {
    hide Program, HiddenRemove, Admissible, Completes, Exact, PrefixCompletes, ReturnInSight, IsLit, ContainsReturn,
         Synced;
    var inputs := HiddenRemove(op, n, k);
    HiddenRemoveForm(op, n, k);
    HiddenRemoveProgram(op, n, k, fuel);
    NoSlotsAdmissible(inputs, LenOf("v"), fuel);
    NoSlotsCompletes(inputs, 0, LetSet(inputs), fuel);
    NoSlotsCompletes(inputs, 1, LetSet(inputs), fuel);
    PrefixGoesTo(inputs, 2, LenOf("v"), s, fuel);
    forall i | 0 <= i < 3 ensures LitFree(CodeAt(inputs, i)) && !ContainsReturn(CodeAt(inputs, i)) {
      HiddenRemoveIsPlain(op, n, k, i, "v", Mutating);
    }
    LenReturnsNot("v");
    NoReturnInSight(inputs, LenOf("v"), s, fuel);
  }

  lemma LenReturnsNot(v: string)
    ensures !ContainsReturn(LenOf(v).expr)
  {
  }

  lemma NoReturnInSight(inputs: seq<Input>, inp: Input, s: Sess, fuel: nat)
    requires Synced(inputs, s, fuel) && forall i :: 0 <= i < |inputs| ==> !ContainsReturn(CodeAt(inputs, i))
    requires inp.ExprIn? && !ContainsReturn(inp.expr)
    ensures !ReturnInSight(s, inp)
  {
    hide Program, ContainsReturn, BlockContainsReturn, BlockReaches, CollectReplay, Probe;
    RecordedReturnless(inputs);
    var vars := Probe(s.vars, inp);
    CollectsNoReturn(s.history, Names(vars), LetNames(s.lets));
    ScanFindsReturnsInBlock(CollectReplay(s.history, Names(vars), LetNames(s.lets)));
    ScanFindsReturnsInBlock(UserStmts(inp));
    NoneReturns();
    ReturnSnoc([], Expression(inp.expr));
    assert [] + [Expression(inp.expr)] == [Expression(inp.expr)];
  }

  lemma {:induction false} RecordedReturnless(inputs: seq<Input>)
    requires forall i :: 0 <= i < |inputs| ==> !ContainsReturn(CodeAt(inputs, i))
    ensures !BlockContainsReturn(Recorded(inputs))
  {
    hide ContainsReturn, BlockContainsReturn;
    NoneReturns();
    if inputs != [] {
      forall i | 0 <= i < |inputs| - 1 ensures !ContainsReturn(CodeAt(ButLast(inputs), i)) {
        assert CodeAt(ButLast(inputs), i) == CodeAt(inputs, i);
      }
      RecordedReturnless(ButLast(inputs));
      assert !ContainsReturn(CodeAt(inputs, |inputs| - 1));
      var h := Recorded(ButLast(inputs));
      assert h + [] == h;
      if IsRecorded(Last(inputs)) { ReturnSnoc(h, StmtOf(Last(inputs))); }
    }
  }

  /** `let v = []`, `v.push(k)`, `let x = 0`, `x = v.remove(0)`. */
  function DroppedRemove(k: Word): seq<Input> {
    [LetIn(true, "v", EmptyArray, false),
     ExprIn(MethodCall(Ident("v"), Push, IntLit(k), None)),
     LetIn(true, "x", IntLit(0), true),
     ExprIn(Assign("x", MethodCall(Ident("v"), RemoveAt, IntLit(0), None)))]
  }

  lemma DroppedRemoveForm(k: Word)
    ensures var inputs := DroppedRemove(k);
            && |inputs| == 4 && inputs[..0] == [] && inputs[..1] == [inputs[0]]
            && inputs[..2] == inputs[..1] + [inputs[1]]
            && inputs[..3] == inputs[..2] + [inputs[2]] && inputs == inputs[..3] + [inputs[3]]
            && inputs[0] == LetIn(true, "v", EmptyArray, false)
            && inputs[1] == ExprIn(MethodCall(Ident("v"), Push, IntLit(k), None))
            && inputs[2] == LetIn(true, "x", IntLit(0), true)
            && inputs[3] == ExprIn(Assign("x", MethodCall(Ident("v"), RemoveAt, IntLit(0), None)))
  {
  }

  function WithX(a: seq<Word>, n: Word): Store {
    [Cell("v", ArrV(a)), Cell("x", IntV(n))]
  }

  /** The scope of the program once both variables are declared. */
  function VAndX(): Env {
    map["v" := 0, "x" := 1]
  }

  lemma TakeRuns(k: Word, fuel: nat)
    ensures Eval(DroppedRemove(k)[3].expr, VAndX(), WithX([k], 0), false, fuel) == Done(UnitV, WithX([], k), [])
  {
    hide Eval;
    var call := MethodCall(Ident("v"), RemoveAt, IntLit(0), None);
    var a: seq<Word> := [k];
    EvalCall("v", RemoveAt, 0, VAndX(), WithX([k], 0), false, fuel);
    assert a[..0] + a[0 + 1..] == [];
    assert WithX([k], 0)[0 := Cell("v", ArrV([]))] == WithX([], 0);
    EvalUnary(Assign("x", call), VAndX(), WithX([k], 0), false, fuel);
    assert WithX([], 0)[1 := Cell("x", IntV(k))] == WithX([], k);
  }

  lemma DroppedRemoveProgram(k: Word, fuel: nat)
    ensures var inputs := DroppedRemove(k);
            && Program(inputs[..1], fuel) == Going(map["v" := 0], JustV([]), UnitV, [])
            && (var p := Program(inputs[..3], fuel); p.Going? && p.env == VAndX() && p.st == WithX([k], 0))
            && (var q := Program(inputs, fuel); q.Going? && q.env == VAndX() && q.st == WithX([], k))
            && (var t := Program(inputs + [LenOf("v")], fuel); t.Going? && t.value == IntV(0))
  {
    hide Program, Eval, DroppedRemove;
    var inputs := DroppedRemove(k);
    DroppedRemoveForm(k);
    LetV(fuel);
    PushRuns([], k, fuel);
    assert [] + [k] == [k];
    ProgramGoes(inputs[..1], inputs[1], fuel);
    EvalLeaf(IntLit(0), map["v" := 0], JustV([k]), false, fuel);
    ProgramGoes(inputs[..2], inputs[2], fuel);
    DroppedRemoveEnds(k, fuel);
  }

  lemma DroppedRemoveEnds(k: Word, fuel: nat)
    requires var p := Program(DroppedRemove(k)[..3], fuel);
             p.Going? && p.env == map["v" := 0]["x" := 1] && p.st == Alloc(JustV([k]), "x", IntV(0))
    ensures var inputs := DroppedRemove(k);
            && (var p := Program(inputs[..3], fuel); p.Going? && p.env == VAndX() && p.st == WithX([k], 0))
            && (var q := Program(inputs, fuel); q.Going? && q.env == VAndX() && q.st == WithX([], k))
            && (var t := Program(inputs + [LenOf("v")], fuel); t.Going? && t.value == IntV(0))
  {
    hide Program, Eval, DroppedRemove;
    var inputs := DroppedRemove(k);
    DroppedRemoveForm(k);
    assert map["v" := 0]["x" := 1] == VAndX() && Alloc(JustV([k]), "x", IntV(0)) == WithX([k], 0);
    TakeRuns(k, fuel);
    ProgramGoes(inputs[..3], inputs[3], fuel);
    EvalLeaf(Ident("v"), VAndX(), WithX([], k), false, fuel);
    EvalUnary(Len(Ident("v")), VAndX(), WithX([], k), false, fuel);
    ProgramGoes(inputs, LenOf("v"), fuel);
  }

  lemma DroppedRemoveIsPlain(k: Word, i: nat, x: string, t: Touch)
    requires i < 4
    ensures var e := CodeAt(DroppedRemove(k), i);
            && LitFree(e) && !ContainsReturn(e)
            && (i < 3 ==> (Writes(e, x, t) <==> i == 1 && (t.Mutating? || t.Calling?) && x == "v"))
  {
    var e := CodeAt(DroppedRemove(k), i);
    LeafIsPlain(EmptyArray, x, t);
    LeafIsPlain(IntLit(0), x, t);
    CallIsPlain("v", Push, k, x, t);
    CallIsPlain("v", RemoveAt, 0, x, t);
    if i == 3 { UnaryIsPlain(e, x, t); }
  }

  lemma StableCall(v: string, m: Method, k: Word, care: Care)
    requires v !in care.hidden
    ensures Stable(MethodCall(Ident(v), m, IntLit(k), None), care) && Stable(EmptyArray, care)
  {
    var e := MethodCall(Ident(v), m, IntLit(k), None);
    assert Stable(Ident(v), care) && Stable(IntLit(k), care);
    assert Operands(e) == [Ident(v), IntLit(k)] && Bodies(e) == [];
  }

  /** The first three inputs replay, whatever comes after them. */
  lemma DroppedRemoveCompletes(inputs: seq<Input>, k: Word, i: nat, lets: set<string>, fuel: nat)
    requires i < 3 && i < |inputs| <= 4 && inputs == DroppedRemove(k)[..|inputs|]
    ensures Completes(inputs, i, {"x"}, lets, fuel) && Exact(inputs, i, {"x"}, lets)
  {
    hide Program, Stable, Writes, VolatileAt, LitsTo;
    DroppedRemoveForm(k);
    if i < 2 {
      var care := CareAt(inputs, i, {"x"}, lets, false);
      NotVolatile(inputs, i, {"x"}, lets, "v");
      StableCall("v", Push, k, care);
      assert Calm(care) && Stable(CodeAt(inputs, i), care);
      assert Faithful(inputs, i, {"x"}, lets);
    } else {
      forall y ensures !Writes(CodeAt(inputs, i), y, Calling) {
        DroppedRemoveIsPlain(k, i, y, Calling);
      }
      assert Harmless(inputs, i, {"x"});
    }
  }

  lemma DroppedRemoveTame(inputs: seq<Input>, k: Word, n: nat, lets: set<string>)
    requires |inputs| <= 4 && inputs == DroppedRemove(k)[..|inputs|]
    ensures ClosuresTame(inputs, n, {"x"}, lets) && !LitWrites(inputs, |inputs|, "v")
  {
    hide VolatileAt, DroppedRemove, RedeclaredBetween;
    DroppedRemoveForm(k);
    forall i | 0 <= i < |inputs| ensures LitFree(CodeAt(inputs, i)) {
      DroppedRemoveIsPlain(k, i, "v", Mutating);
      assert inputs[i] == DroppedRemove(k)[i];
    }
  }

  lemma DroppedRemoveTransparent(inputs: seq<Input>, k: Word)
    requires |inputs| <= 3 && inputs == DroppedRemove(k)[..|inputs|]
    ensures Transparent(inputs, {"x"})
  {
    hide DroppedRemove, Writes, MutatesSlot;
    DroppedRemoveForm(k);
    forall i | 0 <= i < |inputs| ensures !Writes(CodeAt(inputs, i), "x", Assigning) {
      DroppedRemoveIsPlain(k, i, "x", Assigning);
      assert inputs[i] == DroppedRemove(k)[i];
    }
  }

  /** The slot table from the third input on. */
  lemma DroppedRemoveTable(k: Word, inp: Input)
    requires inp.ExprIn?
    ensures var inputs, x := DroppedRemove(k), [VarSlot("x", Int, 0, true)];
            && NamesFor(inputs[..2], inputs[2]) == {"x"} && Probe(Table(inputs[..2]), inputs[2]) == x
            && Table(inputs[..2]) == []
            && Table(inputs[..3]) == x && Table(inputs) == x && Names(x) == {"x"}
            && NamesFor(inputs[..3], inp) == {"x"} && NamesFor(inputs, inp) == {"x"}
  {
    var inputs, x := DroppedRemove(k), [VarSlot("x", Int, 0, true)];
    DroppedRemoveForm(k);
    NoSlots(inputs[..2]);
    assert x[0].name == "x";
    assert Position([], "x") == 0 && Position(x, "x") == 0;
    assert Probe([], inputs[2]) == x && Register(x, "x", Int, true).0 == x;
    assert ButLast(inputs[..3]) == inputs[..2] && ButLast(inputs) == inputs[..3];
  }

  lemma DroppedRemoveSteadyAt(k: Word, j: nat, fuel: nat)
    requires 2 <= j < 4
    ensures SteadyAt(DroppedRemove(k)[..j], DroppedRemove(k)[j], fuel)
  {
    hide Program, DroppedRemove, Completes, ClosuresTame, Transparent, Probe, Table, NamesFor;
    var inputs := DroppedRemove(k);
    DroppedRemoveForm(k);
    DroppedRemoveProgram(k, fuel);
    DroppedRemoveTable(k, inputs[3]);
    ProbeOfExpression(Table(inputs[..3]), inputs[3]);
    var lets := LetSet(inputs[..j]);
    DroppedRemoveTame(inputs[..j], k, j, lets);
    DroppedRemoveTransparent(inputs[..j], k);
    forall i | 0 <= i < j ensures Completes(inputs[..j], i, {"x"}, lets, fuel) {
      DroppedRemoveCompletes(inputs[..j], k, i, lets, fuel);
    }
  }

  lemma DroppedRemoveIsSteady(k: Word, fuel: nat)
    ensures Steady(DroppedRemove(k), fuel)
  {
    hide Program, DroppedRemove, SteadyAt;
    var inputs := DroppedRemove(k);
    DroppedRemoveForm(k);
    LetV(fuel);
    assert [] + [inputs[0]] == inputs[..1];
    SlotlessIsSteady(inputs[..0], inputs[0], fuel);
    SlotlessIsSteady(inputs[..1], inputs[1], fuel);
    DroppedRemoveSteadyAt(k, 2, fuel);
    DroppedRemoveSteadyAt(k, 3, fuel);
  }

  lemma DroppedRemoveIntact(k: Word, s: Sess, fuel: nat)
    requires Synced(DroppedRemove(k), s, fuel)
    ensures var inputs := DroppedRemove(k);
            && IntactTo(inputs, 3, LenOf("v"), s, fuel) && Watched(inputs, 3, NamesFor(inputs, LenOf("v")), "v", fuel)
            && !IsReplayed(inputs[3], NamesFor(inputs, LenOf("v")), LetSet(inputs)) && !ReturnInSight(s, LenOf("v"))
  {
    hide Program, DroppedRemove, Completes, Exact, ClosuresTame, PrefixCompletes, ReturnInSight, ContainsReturn, Synced,
         Table, NamesFor, Probe, LitWrites;
    var inputs := DroppedRemove(k);
    DroppedRemoveForm(k);
    DroppedRemoveProgram(k, fuel);
    DroppedRemoveTable(k, LenOf("v"));
    ProbeOfExpression(Table(inputs), LenOf("v"));
    var lets := LetSet(inputs);
    assert inputs == DroppedRemove(k)[..4];
    DroppedRemoveTame(inputs, k, 3, lets);
    forall i | 0 <= i < 3 ensures Completes(inputs, i, {"x"}, lets, fuel) && Exact(inputs, i, {"x"}, lets) {
      DroppedRemoveCompletes(inputs, k, i, lets, fuel);
    }
    PrefixGoesTo(inputs, 3, LenOf("v"), s, fuel);
    forall i | 0 <= i < 4 ensures !ContainsReturn(CodeAt(inputs, i)) {
      DroppedRemoveIsPlain(k, i, "v", Mutating);
    }
    LenReturnsNot("v");
    NoReturnInSight(inputs, LenOf("v"), s, fuel);
  }

  /** The removal is dropped from the replay with the assignment: the program's array is empty, and yet
      `v.len` shows 1. */
  lemma DroppedAssignmentLosesItsEffect(k: Word, fuel: nat)
    ensures var inputs := DroppedRemove(k);
            && Session(inputs, fuel).Some?
            && (var r := Step(Session(inputs, fuel).value.0, LenOf("v"), fuel); r.Next? && r.value == IntV(1))
            && (var t := Program(inputs + [LenOf("v")], fuel); t.Going? && t.value == IntV(0))
  {
    hide Program, DroppedRemove, Session, Step, Steady, Synced, ReplayableTo, Admissible, Completes, Exact, ShowsAt,
         PrefixCompletes, ReturnInSight;
    var inputs := DroppedRemove(k);
    DroppedRemoveForm(k);
    DroppedRemoveProgram(k, fuel);
    DroppedRemoveIsSteady(k, fuel);
    SteadySessionIsOnceThrough(inputs, fuel);
    var s := Session(inputs, fuel).value.0;
    DroppedRemoveIntact(k, s, fuel);
    OldLengthShows(inputs, 3, s, "v", fuel);
  }
}
