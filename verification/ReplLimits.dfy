/** Where the conditions of the session theorem bite: behaviours of the REPL that a replayable
    history rules out, each shown by a concrete history or an exact condition. */
module ReplLimits {
  import opened Common
  import opened ReplSyntax
  import opened ReplSemantics
  import opened ReplSteps
  import opened ReplSession
  import opened ReplReplay
  import opened ReplRuns
  import opened ReplTheorems
  import opened ReplKinds
  import opened ReplFaithful
  import opened ReplReturns
  import opened ReplCollision

  // ---------------------------------------------------------------------------------------
  // Slot indices.
  // ---------------------------------------------------------------------------------------

  /** Registering keeps slot indices distinct exactly when the name is known, the table is full, or
      no live entry already owns the index that equals the table's length. */
  lemma RegisterKeepsIndicesIff(vars: seq<VarSlot>, x: string, ty: Ty, mutable: bool)
    requires IndicesDistinct(vars)
    ensures IndicesDistinct(Register(vars, x, ty, mutable).0) <==>
            || Position(vars, x) < |vars|
            || |vars| >= REPL_MAX_SLOTS
            || forall i :: 0 <= i < |vars| ==> vars[i].idx != |vars|
  {
    var after := Register(vars, x, ty, mutable).0;
    if Position(vars, x) < |vars| {
      assert forall i :: 0 <= i < |vars| ==> after[i].idx == vars[i].idx;
    } else if |vars| < REPL_MAX_SLOTS {
      assert after[|vars|].idx == |vars|;
      if i :| 0 <= i < |vars| && vars[i].idx == |vars| {
        assert after[i] == vars[i];
      }
    }
  }

  /** The indices stay append-only positions, hence distinct, as long as nothing is unregistered. */
  lemma RegisterKeepsPositions(vars: seq<VarSlot>, x: string, ty: Ty, mutable: bool)
    requires forall i :: 0 <= i < |vars| ==> vars[i].idx == i
    ensures var after := Register(vars, x, ty, mutable).0;
            IndicesDistinct(after) && forall i :: 0 <= i < |after| ==> after[i].idx == i
  {
  }

  /** A table as append-only registering leaves it. */
  ghost predicate AppendOnly(vars: seq<VarSlot>) {
    && (forall i :: 0 <= i < |vars| ==> vars[i].idx == i)
    && (forall i, j :: 0 <= i < j < |vars| ==> vars[i].name != vars[j].name)
  }

  lemma {:induction false} UnregisterHas(vars: seq<VarSlot>, x: string, v: VarSlot)
    ensures v in Unregister(vars, x) <==> v in vars && v.name != x
  {
    if vars != [] {
      UnregisterHas(ButLast(vars), x, v);
      assert vars == ButLast(vars) + [Last(vars)];
    }
  }

  lemma {:induction false} UnregisterCounts(vars: seq<VarSlot>, x: string)
    requires AppendOnly(vars)
    ensures |Unregister(vars, x)| == |vars| - if x in Names(vars) then 1 else 0
    ensures IndicesDistinct(Unregister(vars, x))
  {
    if vars != [] {
      var front, v := ButLast(vars), Last(vars);
      assert vars == front + [v];
      UnregisterCounts(front, x);
      NamesSnoc(front, v);
      assert v.name !in Names(front);
      forall w | w in Unregister(front, x) ensures w.idx != v.idx {
        UnregisterHas(front, x, w);
      }
    }
  }

  lemma UnregisterKeeps(vars: seq<VarSlot>, x: string)
    requires AppendOnly(vars)
    ensures var after := Unregister(vars, x);
            && (forall v :: v in after <==> v in vars && v.name != x)
            && (forall i :: 0 <= i < |after| ==> after[i].idx < |vars|)
            && IndicesDistinct(after)
            && |after| == |vars| - if x in Names(vars) then 1 else 0
  {
    hide Unregister;
    UnregisterCounts(vars, x);
    forall v ensures v in Unregister(vars, x) <==> v in vars && v.name != x {
      UnregisterHas(vars, x, v);
    }
  }

  lemma NamesSnoc(front: seq<VarSlot>, v: VarSlot)
    ensures Names(front + [v]) == Names(front) + {v.name}
  {
    assert (front + [v])[|front|] == v && forall i :: 0 <= i < |front| ==> (front + [v])[i] == front[i];
  }

  /** Dropping a name and registering a new one, or the same once more, keeps indices distinct exactly if
      the name dropped was the last one registered: otherwise the newcomer gets the last one's index. */
  lemma ShadowCollidesIff(vars: seq<VarSlot>, x: string, y: string, ty: Ty, mutable: bool)
    requires AppendOnly(vars) && |vars| <= REPL_MAX_SLOTS && x in Names(vars) && (y == x || y !in Names(vars))
    ensures IndicesDistinct(Register(Unregister(vars, x), y, ty, mutable).0) <==> Last(vars).name == x
  {
    hide Unregister, Position, Register;
    var after, last := Unregister(vars, x), Last(vars);
    UnregisterKeeps(vars, x);
    RegisterNew(after, vars, x, y, ty, mutable);
    RegisterKeepsIndicesIff(after, y, ty, mutable);
    if last.name != x {
      assert last in after;
      var i :| 0 <= i < |after| && after[i] == last;
      assert after[i].idx == |after|;
    } else {
      forall i | 0 <= i < |after| ensures after[i].idx != |after| {
        assert after[i] in after && after[i] in vars;
      }
    }
  }

  lemma RegisterNew(after: seq<VarSlot>, vars: seq<VarSlot>, x: string, y: string, ty: Ty, mutable: bool)
    requires (forall v :: v in after <==> v in vars && v.name != x) && (y == x || y !in Names(vars))
    ensures Position(after, y) == |after|
  {
    forall i | 0 <= i < |after| ensures after[i].name != y {
      assert after[i] in after && after[i] in vars;
    }
  }

  // ---------------------------------------------------------------------------------------
  // What the refresh must be.
  // ---------------------------------------------------------------------------------------

  /** `let bump = { || count += 1 }`. */
  function LetBump(): Stmt {
    Let(false, "bump", Closure(Lambda("_", [Expression(CompoundAssign("count", Add, IntLit(1)))])))
  }

  /** `bump.()`. */
  function CallOfBump(): Expr {
    ClosureCall(Ident("bump"), UnitLit)
  }

  /** The wrapper of `bump.()` in a session with a slot for `count` whose history is `let bump = ...`. */
  function BumpBody(): seq<WStmt> {
    BuildBody([VarSlot("count", Int, 0, true)], [LetBump()], [Expression(CallOfBump())])
  }

  /** That wrapper, statement by statement; its step (3) is the fifth. */
  function BumpSteps(refresh: WStmt): seq<WStmt> {
    [SlotLoad("count", true, 0), SetReplaying(true), Run(LetBump()), SetReplaying(false), refresh,
     Run(Let(false, TAIL, CallOfBump())), SlotStore(0, "count"), Run(Expression(Ident(TAIL)))]
  }

  lemma BumpBodyForm()
    ensures BumpBody() == BumpSteps(SlotRefresh("count", 0))
  {
    hide LetBump, CallOfBump, Prefix, BlockContainsReturn, KeepTail;
    var v := VarSlot("count", Int, 0, true);
    var user := [Expression(CallOfBump())];
    BumpPrefix(v);
    BumpReturnsNot();
    KeepTailForm(Prefix([v], [LetBump()]), user, [SlotStore(0, "count")]);
    assert ButLast(user) == [] && Codes(ButLast(user)) == [];
  }

  lemma BumpPrefix(v: VarSlot)
    requires v == VarSlot("count", Int, 0, true)
    ensures Prefix([v], [LetBump()]) == [SlotLoad("count", true, 0), SetReplaying(true), Run(LetBump()),
                                         SetReplaying(false), SlotRefresh("count", 0)]
    ensures Stores([v]) == [SlotStore(0, "count")]
  {
    hide LetBump, BlockMutatesSlot;
    BumpIsSeen();
    assert ButLast([v]) == [];
    assert Loads([]) == [] && Stores([]) == [] && Refreshes([], [LetBump()]) == [];
    assert Codes([LetBump()]) == [Run(LetBump())];
  }

  lemma BumpIsSeen()
    ensures BlockMutatesSlot([LetBump()], "count")
  {
    var e := CompoundAssign("count", Add, IntLit(1));
    var body := [Expression(e)];
    assert MutatesSlot(Code(body[0]), "count") && BlockMutatesSlot(body, "count");
    assert MutatesSlot(Code(LetBump()), "count");
    assert Code([LetBump()][0]) == LetBump().e;
  }

  lemma BumpReturnsNot()
    ensures !BlockContainsReturn([LetBump()]) && !BlockContainsReturn([Expression(CallOfBump())])
  {
    var user, replay := [Expression(CallOfBump())], [LetBump()];
    assert user[1..] == [] && replay[1..] == [];
    assert !ContainsReturn(Code(user[0])) && !ContainsReturn(Code(replay[0]));
  }

  lemma CallBump(env: Env, clo: Env, k: Word, st: Store, fuel: nat)
    requires Bound("bump", env, st) && st[env["bump"]].value == CloV(LetBump().e.lambda, clo)
    requires Bound("count", clo, st) && st[clo["count"]].value == IntV(k) && fuel > 0
    ensures var r := Eval(CallOfBump(), env, st, false, fuel);
            r.Done? && r.out == [] && |r.store| == |st| + 1
            && r.store[clo["count"]] == Cell("count", IntV(Wrap(k + 1)))
            && forall c :: 0 <= c < |st| && c != clo["count"] ==> r.store[c] == st[c]
  {
    hide Eval, Wrap;
    var e, f := CallOfBump(), st[env["bump"]].value;
    EvalLeaf(Ident("bump"), env, st, false, fuel);
    EvalLeaf(UnitLit, env, st, false, fuel);
    EvalBinary(e, env, st, false, fuel);
    BodyOfBump(clo, k, st, fuel - 1);
    assert Apply(e, [f, UnitV], env, st, false, fuel) == Invoke(f, UnitV, st, false, fuel - 1);
  }

  lemma BodyOfBump(clo: Env, k: Word, st: Store, fuel: nat)
    requires Bound("count", clo, st) && st[clo["count"]].value == IntV(k)
    ensures Invoke(CloV(LetBump().e.lambda, clo), UnitV, st, false, fuel)
            == Done(UnitV, Alloc(st, "_", UnitV)[clo["count"] := Cell("count", IntV(Wrap(k + 1)))], [])
  {
    hide Eval, Wrap;
    var env, st0 := clo["_" := |st|], Alloc(st, "_", UnitV);
    assert "_" != "count";
    EvalBump("count", k, env, st0, false, fuel);
    BlockOfOne(CompoundAssign("count", Add, IntLit(1)), env, st0, false, fuel);
  }

  /** Refreshing by assignment: the closure, the user and the store share one cell, and the slot
      counts the call. A fresh `let` in its place gives the user and the store a second cell: the
      closure's update is lost, whatever the slot held. */
  lemma RefreshMustAssign(n: Word, fuel: nat)
    requires fuel > 0
    ensures |BumpBody()| == 8 && BumpBody()[4] == SlotRefresh("count", 0)
    ensures var r := RunW(BumpBody(), Machine(map[], [], [n], false), fuel);
            r.WDone? && r.m.slots == [Wrap(n + 1)]
    ensures var r := RunW(BumpBody()[4 := SlotLoad("count", true, 0)], Machine(map[], [], [n], false), fuel);
            r.WDone? && r.m.slots == [n]
    ensures Wrap(n + 1) != n
  {
    hide RunW, BumpBody, LetBump, CallOfBump, Wrap, BuildBody;
    BumpBodyForm();
    BumpRun(SlotRefresh("count", 0), n, fuel);
    BumpRun(SlotLoad("count", true, 0), n, fuel);
    WrapMoves(n);
    assert BumpBody()[4 := SlotLoad("count", true, 0)] == BumpSteps(SlotLoad("count", true, 0));
  }

  /** The machine after the load, after the replay, and after `refresh`. */
  function BumpStart(n: Word, flag: bool): Machine {
    Machine(map["count" := 0], [Cell("count", IntV(n))], [n], flag)
  }

  function BumpBuilt(n: Word, flag: bool): Machine {
    BumpStart(n, flag).(env := map["count" := 0, "bump" := 1],
                        st := [Cell("count", IntV(n)), Cell("bump", CloV(LetBump().e.lambda, map["count" := 0]))])
  }

  function BumpReady(refresh: WStmt, n: Word): Machine {
    var m := BumpBuilt(n, false);
    if refresh.SlotRefresh? then m
    else m.(env := map["count" := 2, "bump" := 1], st := m.st + [Cell("count", IntV(n))])
  }

  lemma BumpLoads(n: Word, fuel: nat)
    ensures Steps(SlotLoad("count", true, 0), Machine(map[], [], [n], false), BumpStart(n, false), fuel)
    ensures Steps(SetReplaying(true), BumpStart(n, false), BumpStart(n, true), fuel)
    ensures Steps(SetReplaying(false), BumpBuilt(n, true), BumpBuilt(n, false), fuel)
  {
  }

  lemma BumpBuilds(n: Word, fuel: nat)
    ensures Steps(Run(LetBump()), BumpStart(n, true), BumpBuilt(n, true), fuel)
  {
    hide Eval, Capture;
    var m := BumpStart(n, true);
    CaptureCount(m.env);
    EvalLeaf(LetBump().e, m.env, m.st, true, fuel);
  }

  lemma BumpRefreshes(refresh: WStmt, n: Word, fuel: nat)
    requires refresh == SlotRefresh("count", 0) || refresh == SlotLoad("count", true, 0)
    ensures Steps(refresh, BumpBuilt(n, false), BumpReady(refresh, n), fuel)
  {
    var m := BumpBuilt(n, false);
    assert m.st[0 := Cell("count", IntV(n))] == m.st;
  }

  /** The call, bound to the tail name. */
  lemma BumpCalls(refresh: WStmt, n: Word, fuel: nat) returns (m: Machine)
    requires refresh == SlotRefresh("count", 0) || refresh == SlotLoad("count", true, 0)
    requires fuel > 0
    ensures Steps(Run(Let(false, TAIL, CallOfBump())), BumpReady(refresh, n), m, fuel)
    ensures m.slots == [n] && Bound(TAIL, m.env, m.st) && Bound("count", m.env, m.st)
    ensures m.st[m.env["count"]].value == IntV(if refresh.SlotRefresh? then Wrap(n + 1) else n)
  {
    hide Eval, Wrap, LetBump, Steps, CallOfBump;
    var m3 := BumpReady(refresh, n);
    CallBump(m3.env, map["count" := 0], n, m3.st, fuel);
    var r := Eval(CallOfBump(), m3.env, m3.st, false, fuel);
    m := m3.(env := m3.env[TAIL := |r.store|], st := Alloc(r.store, TAIL, r.value));
    TailSteps(CallOfBump(), m3, fuel);
    assert TAIL != "count";
  }

  lemma TailSteps(e: Expr, m: Machine, fuel: nat)
    requires var r := Eval(e, m.env, m.st, m.replaying, fuel); r.Done? && r.out == []
    ensures var r := Eval(e, m.env, m.st, m.replaying, fuel);
            Steps(Run(Let(false, TAIL, e)), m, m.(env := m.env[TAIL := |r.store|], st := Alloc(r.store, TAIL, r.value)),
                  fuel)
  {
    hide Eval;
  }

  lemma BumpRun(refresh: WStmt, n: Word, fuel: nat)
    requires refresh == SlotRefresh("count", 0) || refresh == SlotLoad("count", true, 0)
    requires fuel > 0
    ensures var r := RunW(BumpSteps(refresh), Machine(map[], [], [n], false), fuel);
            r.WDone? && r.m.slots == [if refresh.SlotRefresh? then Wrap(n + 1) else n]
  {
    hide RunW, Steps, Wrap, LetBump, CallOfBump, BumpStart, BumpBuilt, BumpReady, StepW;
    BumpLoads(n, fuel);
    BumpBuilds(n, fuel);
    BumpRefreshes(refresh, n, fuel);
    var m := BumpCalls(refresh, n, fuel);
    var k := if refresh.SlotRefresh? then Wrap(n + 1) else n;
    BumpStores(m, n, k, fuel);
    ReadBack(TAIL, m.(slots := [k]), fuel);
    var read, call := Run(Expression(Ident(TAIL))), Run(Let(false, TAIL, CallOfBump()));
    var store := SlotStore(0, "count");
    RunCons(store, [read], m, m.(slots := [k]), fuel);
    RunCons(call, [store] + [read], BumpReady(refresh, n), m, fuel);
    RunCons(refresh, [call] + ([store] + [read]), BumpBuilt(n, false), BumpReady(refresh, n), fuel);
    var rest := [refresh] + ([call] + ([store] + [read]));
    BumpRegionRuns(rest, n, fuel);
    assert [SlotLoad("count", true, 0), SetReplaying(true), Run(LetBump()), SetReplaying(false)] + rest
        == BumpSteps(refresh);
  }

  lemma BumpStores(m: Machine, n: Word, k: Word, fuel: nat)
    requires m.slots == [n] && Bound("count", m.env, m.st) && m.st[m.env["count"]].value == IntV(k)
    ensures Steps(SlotStore(0, "count"), m, m.(slots := [k]), fuel)
  {
    assert [n][0 := k] == [k];
  }

  /** The load and the replay region of it. */
  lemma BumpRegionRuns(rest: seq<WStmt>, n: Word, fuel: nat)
    requires rest != []
    ensures RunW([SlotLoad("count", true, 0), SetReplaying(true), Run(LetBump()), SetReplaying(false)] + rest,
                 Machine(map[], [], [n], false), fuel)
         == RunW(rest, BumpBuilt(n, false), fuel)
  {
    hide RunW, Steps, LetBump, BumpStart, BumpBuilt, StepW;
    BumpLoads(n, fuel);
    BumpBuilds(n, fuel);
    var load, on, build, off := SlotLoad("count", true, 0), SetReplaying(true), Run(LetBump()), SetReplaying(false);
    RunCons(off, rest, BumpBuilt(n, true), BumpBuilt(n, false), fuel);
    RunCons(build, [off] + rest, BumpStart(n, true), BumpBuilt(n, true), fuel);
    RunCons(on, [build] + ([off] + rest), BumpStart(n, false), BumpStart(n, true), fuel);
    RunCons(load, [on] + ([build] + ([off] + rest)), Machine(map[], [], [n], false), BumpStart(n, false), fuel);
    assert [load, on, build, off] + rest == [load] + ([on] + ([build] + ([off] + rest)));
  }

  lemma CaptureCount(env: Env)
    requires env == map["count" := 0]
    ensures Capture(LetBump().e.lambda, env) == env
  {
    var e := CompoundAssign("count", Add, IntLit(1));
    var body := [Expression(e)];
    assert "_" != "count";
    assert Occurs(e, "count");
    assert Code(body[0]) == e;
    assert BlockOccurs(body, "count");
    assert Captures(LetBump().e.lambda, "count");
  }

  // ---------------------------------------------------------------------------------------
  // What the walkers miss.
  // ---------------------------------------------------------------------------------------

  /** When the user's statements come, a variable with a slot has its slot's value exactly if the walker finds
      that the replay assigns it, so that it is refreshed, or the replay has left it as it was loaded. */
  lemma RestoredIff(vars: seq<VarSlot>, slots: seq<Word>, replay: seq<Stmt>, i: nat, w: Top, fuel: nat)
    requires GoodVars(vars, slots) && i < |vars|
    requires w == RunTop(replay, LoadedEnv(vars), LoadedStore(vars, slots), true, fuel)
    requires w.Going? && SlotsInPlace(vars, w.env, w.st)
    ensures var r := RunW(Prefix(vars, replay), Machine(map[], [], slots, false), fuel);
            && r.WDone? && r.m.slots == slots && Bound(vars[i].name, r.m.env, r.m.st)
            && (r.m.st[r.m.env[vars[i].name]].value == IntV(slots[vars[i].idx]) <==>
                BlockMutatesSlot(replay, vars[i].name) || w.st[i].value == LoadedStore(vars, slots)[i].value)
  {
    hide RunW, RunTop, Prefix, LoadedEnv, BlockMutatesSlot, Grows;
    var m := PrefixRuns(vars, slots, replay, w, fuel);
  }

  /** `let n = a`, `unsafe n += 1`, whose second statement the walker does not look into. */
  function UnsafeInputs(a: Word): seq<Input> {
    [LetN(a), ExprIn(UnsafeBump())]
  }

  function UnsafeBump(): Expr {
    Unsafe([Expression(CompoundAssign("n", Add, IntLit(1)))])
  }

  lemma UnsafeForm(a: Word)
    ensures var inputs := UnsafeInputs(a);
            && |inputs| == 2 && inputs[..0] == [] && inputs[..1] == [LetN(a)]
            && inputs == inputs[..1] + [ExprIn(UnsafeBump())]
            && inputs[0] == LetN(a) && inputs[1] == ExprIn(UnsafeBump())
  {
  }

  lemma UnsafeRuns(n: Word, quiet: bool, fuel: nat)
    ensures Eval(UnsafeBump(), map["n" := 0], JustN(n), quiet, fuel) == Done(UnitV, JustN(Wrap(n + 1)), [])
  {
    hide Wrap, Eval;
    EvalBump("n", n, map["n" := 0], JustN(n), quiet, fuel);
    EvalBlockOfOne(CompoundAssign("n", Add, IntLit(1)), map["n" := 0], JustN(n), quiet, fuel);
  }

  lemma UnsafeProgram(a: Word, fuel: nat)
    ensures var inputs := UnsafeInputs(a);
            && Program(inputs[..1], fuel) == Going(map["n" := 0], JustN(a), UnitV, [])
            && (var q := Program(inputs, fuel); q.Going? && q.env == map["n" := 0] && q.st == JustN(Wrap(a + 1)))
            && (var t := Program(inputs + [ExprIn(Ident("n"))], fuel); t.Going? && t.value == IntV(Wrap(a + 1)))
  {
    hide Program, Eval, UnsafeInputs, Wrap, UnsafeBump;
    UnsafeForm(a);
    LetNRuns(a, fuel);
    UnsafeRuns(a, false, fuel);
    ProgramGoes(UnsafeInputs(a)[..1], ExprIn(UnsafeBump()), fuel);
    EvalLeaf(Ident("n"), map["n" := 0], JustN(Wrap(a + 1)), false, fuel);
    ProgramGoes(UnsafeInputs(a), ExprIn(Ident("n")), fuel);
  }

  lemma UnsafeIsSteady(a: Word, fuel: nat)
    ensures Steady(UnsafeInputs(a), fuel)
  {
    hide Program, UnsafeInputs, UnsafeBump, SteadyAt, Table, Probe;
    UnsafeForm(a);
    UnsafeProgram(a, fuel);
    NamesN();
    TableN(a, []);
    assert [LetN(a)] + [] == [LetN(a)];
    LetNIsSteady(a, fuel);
    ProbeOfExpression(SlotN(), ExprIn(UnsafeBump()));
    LeafIsSteady([LetN(a)], ExprIn(UnsafeBump()), SlotN(), fuel);
  }

  lemma WalkerSkipsUnsafe()
    ensures !BlockMutatesSlot([Expression(UnsafeBump())], "n")
    ensures !BlockReaches(Returns, [Expression(UnsafeBump())], Return)
    ensures !BlockReaches(Returns, [Expression(Ident("n"))], Return)
  {
    hide BlockReaches;
    ScanFindsReturnsInBlock([Expression(UnsafeBump())]);
    ScanFindsReturnsInBlock([Expression(Ident("n"))]);
    var replay, user := [Expression(UnsafeBump())], [Expression(Ident("n"))];
    var body := [Expression(CompoundAssign("n", Add, IntLit(1)))];
    assert Code(replay[0]) == UnsafeBump() && replay[1..] == [] && user[1..] == [] && body[1..] == [];
    assert !ContainsReturn(Code(body[0])) && !BlockContainsReturn(body);
    assert Code(user[0]) == Ident("n");
  }

  lemma ReplayOfUnsafe(a: Word, lets: set<string>)
    ensures CollectReplay(Recorded(UnsafeInputs(a)), {"n"}, lets) == [Expression(UnsafeBump())]
  {
    hide UnsafeInputs;
    UnsafeForm(a);
    var n, bump := Let(true, "n", IntLit(a)), Expression(UnsafeBump());
    assert ButLast(UnsafeInputs(a)) == [LetN(a)] && ButLast([LetN(a)]) == [];
    assert Recorded([LetN(a)]) == [n] && Recorded(UnsafeInputs(a)) == [n, bump];
    assert ButLast([n, bump]) == [n] && ButLast([n]) == [];
    assert CollectReplay([n], {"n"}, lets) == [];
  }

  lemma LoadedN(slots: seq<Word>)
    requires |slots| > 0
    ensures GoodVars(SlotN(), slots)
    ensures LoadedEnv(SlotN()) == map["n" := 0] && LoadedStore(SlotN(), slots) == JustN(slots[0])
  {
    assert ButLast(SlotN()) == [];
  }

  /** Every later wrapper starts from one more than its slot holds. */
  lemma UnsafeInWrapper(n: Word, slots: seq<Word>, fuel: nat)
    requires |slots| > 0 && slots[0] == n
    ensures var body := BuildBody(SlotN(), [Expression(UnsafeBump())], [Expression(Ident("n"))]);
            var r := RunW(body, Machine(map[], [], slots, false), fuel);
            r.WDone? && r.value == IntV(Wrap(n + 1))
  {
    hide RunW, RunTop, Eval, BuildBody, Prefix, BlockReaches, BlockMutatesSlot, LoadedEnv, LoadedStore, Wrap,
         Grows, UnsafeBump;
    var replay, m0 := [Expression(UnsafeBump())], Machine(map[], [], slots, false);
    LoadedN(slots);
    WalkerSkipsUnsafe();
    UnsafeRuns(n, true, fuel);
    RunTopStart(map["n" := 0], JustN(n), true, fuel);
    RunTopSnoc([], Expression(UnsafeBump()), map["n" := 0], JustN(n), true, fuel);
    assert [] + [Expression(UnsafeBump())] == replay;
    var w := RunTop(replay, LoadedEnv(SlotN()), LoadedStore(SlotN(), slots), true, fuel);
    var m := PrefixRuns(SlotN(), slots, replay, w, fuel);
    assert m.st == w.st;
    EvalLeaf(Ident("n"), m.env, m.st, false, fuel);
    RunOne(Expression(Ident("n")), m.env, m.st, fuel);
    NamesN();
    BodyRuns(SlotN(), replay, ExprIn(Ident("n")), m0, m, fuel);
  }

  /** After `let n = a`, `unsafe n += 1`, the session shows for `n` one more than the program. */
  lemma UnsafeEscapesTheWalker(a: Word, fuel: nat)
    ensures var inputs := UnsafeInputs(a);
            && Session(inputs, fuel).Some?
            && (var r := Step(Session(inputs, fuel).value.0, ExprIn(Ident("n")), fuel);
                r.Next? && r.value == IntV(Wrap(Wrap(a + 1) + 1)))
            && (var t := Program(inputs + [ExprIn(Ident("n"))], fuel); t.Going? && t.value == IntV(Wrap(a + 1)))
    ensures Wrap(Wrap(a + 1) + 1) != Wrap(a + 1)
  {
    hide Program, UnsafeInputs, Session, Steady, Synced, ShowsAt, Step, Wrap;
    UnsafeProgram(a, fuel);
    UnsafeIsSteady(a, fuel);
    SteadySessionIsOnceThrough(UnsafeInputs(a), fuel);
    UnsafeStep(a, Session(UnsafeInputs(a), fuel).value.0, fuel);
    WrapMoves(Wrap(a + 1));
  }

  lemma UnsafeStep(a: Word, s: Sess, fuel: nat)
    requires Synced(UnsafeInputs(a), s, fuel)
    requires var q := Program(UnsafeInputs(a), fuel); q.Going? && q.env == map["n" := 0] && q.st == JustN(Wrap(a + 1))
    ensures var r := Step(s, ExprIn(Ident("n")), fuel); r.Next? && r.value == IntV(Wrap(Wrap(a + 1) + 1))
  {
    hide Program, UnsafeInputs, UnsafeBump, RunW, BuildBody, CollectReplay, Table, Wrap;
    UnsafeForm(a);
    TableN(a, [ExprIn(UnsafeBump())]);
    assert [LetN(a)] + [ExprIn(UnsafeBump())] == UnsafeInputs(a);
    NamesN();
    ReplayOfUnsafe(a, LetNames(s.lets));
    assert SlotN()[0].name == "n";
    UnsafeInWrapper(Wrap(a + 1), s.slots, fuel);
  }

  lemma WrapMoves(n: Word)
    ensures Wrap(n + 1) != n
  {
  }

  // ---------------------------------------------------------------------------------------
  // Inside the conditions.
  // ---------------------------------------------------------------------------------------

  /** `let v = []`, `v.push(k)`, `let x = v.remove(0)`. */
  function RemoveInputs(k: Word): seq<Input> {
    [LetIn(true, "v", EmptyArray, false),
     ExprIn(MethodCall(Ident("v"), Push, IntLit(k), None)),
     LetIn(false, "x", MethodCall(Ident("v"), RemoveAt, IntLit(0), None), true)]
  }

  lemma RemoveIsPlain(k: Word, i: nat, x: string, t: Touch)
    requires i < |RemoveInputs(k)|
    ensures var e := CodeAt(RemoveInputs(k), i); LitFree(e) && (Writes(e, x, t) ==> x == "v")
  {
    LeafIsPlain(EmptyArray, x, t);
    CallIsPlain("v", Push, k, x, t);
    CallIsPlain("v", RemoveAt, 0, x, t);
  }

  /** Binding what a mutating call returns to an `Int`, for which the rewriter keeps the call and
      drops the binding, can be replayed exactly. */
  lemma BoundRemovalIsReplayable(k: Word)
    ensures Replayable(RemoveInputs(k), {"x"}, LetSet(RemoveInputs(k)))
  {
    hide Writes, IsLit, Faithful;
    var inputs, lets := RemoveInputs(k), LetSet(RemoveInputs(k));
    forall i | 0 <= i < |inputs| ensures LitFree(CodeAt(inputs, i)) && !Writes(CodeAt(inputs, i), "x", Mutating) {
      RemoveIsPlain(k, i, "x", Mutating);
    }
    assert inputs[0].name in lets;
    var call := inputs[2].rhs;
    assert ReceiverRoot(call.receiver) == Some("v") && RhsMutates(call, lets);
    forall i | 0 <= i < |inputs| ensures Exact(inputs, i, {"x"}, lets) {
      assert VolatileAt(inputs, i, {"x"}, lets) == iset{};
      NothingVolatileIsFaithful(inputs, i, {"x"}, lets);
    }
  }

  /** `let f = { |x| x }`, `let n = a`, `n = b`, `let v = []`, `v.push(f.(c))`, `v.push(n)`. */
  function ChangedInputs(a: Word, b: Word, c: Word): seq<Input> {
    [LetIn(false, "f", Closure(Identity()), false),
     LetIn(true, "n", IntLit(a), true),
     ExprIn(Assign("n", IntLit(b))),
     LetIn(true, "v", EmptyArray, false),
     ExprIn(MethodCall(Ident("v"), Push, ClosureCall(Ident("f"), IntLit(c)), None)),
     ExprIn(MethodCall(Ident("v"), Push, Ident("n"), None))]
  }

  function Identity(): Lambda {
    Lambda("x", [Expression(Ident("x"))])
  }

  lemma IdentityIsPlain(x: string, t: Touch)
    requires !t.Declaring?
    ensures !Writes(Closure(Identity()), x, t) && !Captures(Identity(), x) && !LambdaWrites(Identity(), x, t)
    ensures forall l :: IsLit(l, Closure(Identity())) ==> l == Identity()
  {
    hide Writes, LambdaWrites, Captures, IsLit;
    LeafIsPlain(Ident("x"), x, t);
    OneLineClosure("x", Ident("x"), x, t);
    assert Occurs(Ident("x"), x) <==> x == "x";
  }

  lemma ChangedIsPlain(a: Word, b: Word, c: Word, i: nat, x: string, t: Touch)
    requires i < |ChangedInputs(a, b, c)| && !t.Declaring?
    ensures var e := CodeAt(ChangedInputs(a, b, c), i);
            && (i > 0 ==> LitFree(e))
            && (i < 4 && Writes(e, x, t) ==> i == 2 && x == "n")
            && (i >= 4 && Writes(e, x, Mutating) ==> x == "v")
  {
    var e := CodeAt(ChangedInputs(a, b, c), i);
    IdentityIsPlain(x, t);
    LeafIsPlain(IntLit(a), x, t);
    LeafIsPlain(IntLit(b), x, t);
    LeafIsPlain(EmptyArray, x, t);
    if i == 2 { UnaryIsPlain(e, x, t); }
    if i >= 4 { PushIsPlain(e, c, x); }
  }

  lemma PushIsPlain(e: Expr, c: Word, x: string)
    requires e.MethodCall? && e.call.Push? && e.trailing.None? && e.receiver == Ident("v")
    requires e.arg == Ident("n") || e.arg == ClosureCall(Ident("f"), IntLit(c))
    ensures LitFree(e) && (Writes(e, x, Mutating) ==> x == "v")
  {
    hide Writes, IsLit;
    LeafIsPlain(Ident("v"), x, Mutating);
    LeafIsPlain(Ident("n"), x, Mutating);
    LeafIsPlain(Ident("f"), x, Mutating);
    LeafIsPlain(IntLit(c), x, Mutating);
    BinaryIsPlain(ClosureCall(Ident("f"), IntLit(c)), x, Mutating);
    BinaryIsPlain(e, x, Mutating);
  }

  /** A variable that changed before an input reads it, and a closure called after one has changed, are
      no obstacle. */
  lemma ChangedBeforeIsReplayable(a: Word, b: Word, c: Word)
    ensures Replayable(ChangedInputs(a, b, c), {"n"}, LetSet(ChangedInputs(a, b, c)))
  {
    hide Writes, IsLit, Faithful, LambdaWrites, Captures;
    var inputs, lets := ChangedInputs(a, b, c), LetSet(ChangedInputs(a, b, c));
    ChangedIsTame(a, b, c);
    forall i | 0 <= i < |inputs| ensures Exact(inputs, i, {"n"}, lets) {
      ChangedIsExact(a, b, c, i);
    }
  }

  lemma ChangedLits(a: Word, b: Word, c: Word, i: nat, l: Lambda)
    requires i < |ChangedInputs(a, b, c)| && IsLit(l, CodeAt(ChangedInputs(a, b, c), i))
    ensures l == Identity()
  {
    ChangedIsPlain(a, b, c, i, "n", Mutating);
    IdentityIsPlain("n", Mutating);
  }

  lemma ChangedIsTame(a: Word, b: Word, c: Word)
    ensures ClosuresTame(ChangedInputs(a, b, c), |ChangedInputs(a, b, c)|, {"n"}, LetSet(ChangedInputs(a, b, c)))
    ensures !LitWrites(ChangedInputs(a, b, c), |ChangedInputs(a, b, c)|, "n")
  {
    hide ChangedInputs, VolatileAt, RedeclaredBetween, Touched;
    var inputs := ChangedInputs(a, b, c);
    IdentityIsPlain("n", Mutating);
    forall i, l | 0 <= i < |inputs| && IsLit(l, CodeAt(inputs, i)) ensures l == Identity() {
      ChangedLits(a, b, c, i, l);
    }
  }

  lemma ChangedIsExact(a: Word, b: Word, c: Word, i: nat)
    requires i < |ChangedInputs(a, b, c)|
    ensures Exact(ChangedInputs(a, b, c), i, {"n"}, LetSet(ChangedInputs(a, b, c)))
  {
    hide Writes, LitWrites;
    var inputs, lets := ChangedInputs(a, b, c), LetSet(ChangedInputs(a, b, c));
    if i == 1 || i == 2 {
      forall x | x != "n" ensures !Writes(CodeAt(inputs, i), x, Calling) {
        ChangedIsPlain(a, b, c, i, x, Calling);
      }
      assert Harmless(inputs, i, {"n"});
    } else if i < 4 {
      var care := CareAt(inputs, i, {"n"}, lets, false);
      assert IsLit(Identity(), CodeAt(inputs, 0));
      assert Calm(care) && Stable(CodeAt(inputs, i), care);
      assert Faithful(inputs, i, {"n"}, lets);
    } else {
      ChangedIsTame(a, b, c);
      forall j | 0 <= j < |inputs| && j != 2 ensures !Writes(CodeAt(inputs, j), "n", Mutating) {
        ChangedIsPlain(a, b, c, j, "n", Mutating);
      }
      assert VolatileAt(inputs, i, {"n"}, lets) == iset{};
      NothingVolatileIsFaithful(inputs, i, {"n"}, lets);
    }
  }

  /** `let n = a`, `let v = []`, `for i in lo..hi { v.push(i); n += 1 }`. */
  function CountedInputs(a: Word, lo: Word, hi: Word): seq<Input> {
    [LetIn(true, "n", IntLit(a), true), LetIn(true, "v", EmptyArray, false), ExprIn(CountingLoop(lo, hi))]
  }

  function CountingLoop(lo: Word, hi: Word): Expr {
    For("i", Range(lo, hi), [Expression(MethodCall(Ident("v"), Push, Ident("i"), None)),
                             Expression(CompoundAssign("n", Add, IntLit(1)))])
  }

  lemma LoopIsStable(lo: Word, hi: Word, care: Care)
    requires "v" !in care.hidden && "i" !in care.hidden
    ensures Stable(CountingLoop(lo, hi), care)
  {
    var e := CountingLoop(lo, hi);
    var push, bump := MethodCall(Ident("v"), Push, Ident("i"), None), CompoundAssign("n", Add, IntLit(1));
    assert Stable(Ident("v"), care) && Stable(Ident("i"), care) && Stable(IntLit(1), care);
    assert Stable(Range(lo, hi), care);
    assert Operands(push) == [Ident("v"), Ident("i")] && Bodies(push) == [] && Stable(push, care);
    assert Operands(bump) == [IntLit(1)] && Bodies(bump) == [] && Stable(bump, care);
    assert Code(e.body[0]) == push && Code(e.body[1..][0]) == bump && e.body[1..][1..] == [];
    assert BlockStable(e.body[1..], care) && BlockStable(e.body, care);
    assert Operands(e) == [Range(lo, hi)] && Bodies(e) == [e.body];
  }

  lemma LoopHasNoLits(lo: Word, hi: Word)
    ensures LitFree(CountingLoop(lo, hi))
  {
    var e := CountingLoop(lo, hi);
    LeafIsPlain(Range(lo, hi), "n", Mutating);
    LoopBodyHasNoLits();
    assert forall l :: !IsLit(l, Range(lo, hi));
    assert Operands(e) == [Range(lo, hi)] && Bodies(e) == [e.body];
  }

  lemma LoopBodyHasNoLits()
    ensures forall l :: !BlockHasLit(l, CountingLoop(0, 0).body)
  {
    var body := CountingLoop(0, 0).body;
    var push, bump := MethodCall(Ident("v"), Push, Ident("i"), None), CompoundAssign("n", Add, IntLit(1));
    LeafIsPlain(Ident("v"), "n", Mutating);
    LeafIsPlain(Ident("i"), "n", Mutating);
    LeafIsPlain(IntLit(1), "n", Mutating);
    BinaryIsPlain(push, "n", Mutating);
    UnaryIsPlain(bump, "n", Mutating);
    hide IsLit;
    NoLitsIn(push, body[1..], body);
    NoLitsIn(bump, [], body[1..]);
  }

  lemma NoLitsIn(e: Expr, rest: seq<Stmt>, ss: seq<Stmt>)
    requires ss != [] && Code(ss[0]) == e && ss[1..] == rest && LitFree(e)
    ensures (forall l :: !BlockHasLit(l, rest)) ==> forall l :: !BlockHasLit(l, ss)
  {
    assert forall l :: !IsLit(l, e);
  }

  /** A loop that builds an array and counts in a variable with a slot is no obstacle: the replay counts
      again, from another value, and nothing but the count depends on it. */
  lemma CountingIsReplayable(a: Word, lo: Word, hi: Word)
    ensures Replayable(CountedInputs(a, lo, hi), {"n"}, LetSet(CountedInputs(a, lo, hi)))
  {
    hide Writes, IsLit, Stable, CountingLoop, VolatileAt;
    var inputs, lets := CountedInputs(a, lo, hi), LetSet(CountedInputs(a, lo, hi));
    LoopHasNoLits(lo, hi);
    LeafIsPlain(IntLit(a), "n", Mutating);
    LeafIsPlain(EmptyArray, "n", Mutating);
    forall i | 0 <= i < |inputs| ensures LitFree(CodeAt(inputs, i)) {
    }
    forall x ensures !Writes(IntLit(a), x, Calling) {
      LeafIsPlain(IntLit(a), x, Calling);
    }
    assert Harmless(inputs, 0, {"n"});
    forall i | 1 <= i < 3 ensures Faithful(inputs, i, {"n"}, lets) {
      var care := CareAt(inputs, i, {"n"}, lets, false);
      NotVolatile(inputs, i, {"n"}, lets, "v");
      NotVolatile(inputs, i, {"n"}, lets, "i");
      LoopIsStable(lo, hi, care);
      EmptyIsStable(care);
      LoopIsRecorded(lo, hi);
      assert Calm(care) && Stable(CodeAt(inputs, i), care);
    }
  }

  lemma EmptyIsStable(care: Care)
    ensures Stable(EmptyArray, care)
  {
  }

  lemma LoopIsRecorded(lo: Word, hi: Word)
    ensures CountingLoop(lo, hi).For?
  {
  }
}
