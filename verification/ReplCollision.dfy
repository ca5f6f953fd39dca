/** Two variables in one slot: a session in which shadowing an `Int` by another type frees an index that
    a later variable gets a second time. */
module ReplCollision {
  import opened Common
  import opened ReplSyntax
  import opened ReplSemantics
  import opened ReplSteps
  import opened ReplSession
  import opened ReplReplay
  import opened ReplRuns
  import opened ReplTheorems
  import opened ReplKinds
  import opened ReplFaithful
  import opened ReplReturns

  function LetInt(x: string, n: Word): Input {
    LetIn(false, x, IntLit(n), true)
  }

  function LetArray(x: string): Input {
    LetIn(false, x, EmptyArray, false)
  }

  /** `let a = k`, `let b = l`, `let a = []`. */
  function Shadowed(k: Word, l: Word): seq<Input> {
    [LetInt("a", k), LetInt("b", l), LetArray("a")]
  }

  lemma ShadowedForm(k: Word, l: Word)
    ensures var inputs := Shadowed(k, l);
            && |inputs| == 3 && inputs[..0] == [] && inputs[..1] == [inputs[0]]
            && inputs[..2] == inputs[..1] + [inputs[1]]
            && inputs == inputs[..2] + [inputs[2]]
            && inputs[0] == LetInt("a", k) && inputs[1] == LetInt("b", l) && inputs[2] == LetArray("a")
  {
  }

  function A(): VarSlot { VarSlot("a", Int, 0, false) }

  function B(): VarSlot { VarSlot("b", Int, 1, false) }

  function C(): VarSlot { VarSlot("c", Int, 1, false) }

  lemma NamesOf()
    ensures Names([A()]) == {"a"} && Names([A(), B()]) == {"a", "b"} && Names([B()]) == {"b"}
            && Names([B(), C()]) == {"b", "c"}
  {
    assert [A()][0].name == "a" && [A(), B()][0].name == "a" && [A(), B()][1].name == "b";
    assert [B()][0].name == "b" && [B(), C()][0].name == "b" && [B(), C()][1].name == "c";
  }

  lemma NotThere(vars: seq<VarSlot>, x: string)
    requires forall i :: 0 <= i < |vars| ==> vars[i].name != x
    ensures Position(vars, x) == |vars|
  {
  }

  /** After the third input the table has one entry, `b` at index 1; a new `c` gets the table's length,
      1 again. */
  lemma ShadowingMakesSlotsCollide(k: Word, l: Word, m: Word)
    ensures var inputs := Shadowed(k, l);
            && Table(inputs[..1]) == [A()] && Table(inputs[..2]) == [A(), B()] && Table(inputs) == [B()]
            && Probe([], inputs[0]) == [A()] && Probe([A()], inputs[1]) == [A(), B()]
            && Probe([A(), B()], inputs[2]) == [B()]
    ensures Probe([B()], LetInt("c", m)) == [B(), C()] && Tabled([B()], LetInt("c", m)) == [B(), C()]
    ensures B().idx == C().idx && B().name != C().name
  {
    hide Position, Unregister;
    var inputs := Shadowed(k, l);
    ShadowedForm(k, l);
    assert ButLast(inputs) == inputs[..2] && ButLast(inputs[..2]) == inputs[..1] && ButLast(inputs[..1]) == [];
    NotThere([], "a");
    NotThere([A()], "b");
    NotThere([B()], "c");
    Found();
    DropFirst(A(), B());
    assert Probe([], inputs[0]) == [A()] && Tabled([], inputs[0]) == [A()];
    assert Probe([A()], inputs[1]) == [A(), B()] && Tabled([A()], inputs[1]) == [A(), B()];
    assert Tabled([A(), B()], inputs[2]) == [B()];
    TableOfNone();
  }

  lemma TableOfNone()
    ensures Table([]) == []
  {
  }

  lemma Found()
    ensures Position([A()], "a") == 0 && Position([A(), B()], "b") == 1 && Position([A(), B()], "a") == 0
    ensures Position([B(), C()], "c") == 1
  {
    assert [A(), B()][1..] == [B()] && [B(), C()][1..] == [C()];
    assert Position([B()], "b") == 0 && Position([C()], "c") == 0;
  }

  lemma DropFirst(a: VarSlot, b: VarSlot)
    requires a.name != b.name
    ensures Unregister([a, b], a.name) == [b]
  {
    assert ButLast([a, b]) == [a] && ButLast([a]) == [];
    assert Unregister([a], a.name) == [];
  }

  // ---------------------------------------------------------------------------------------
  // The session up to there is exact.
  // ---------------------------------------------------------------------------------------

  function Cells(k: Word, l: Word): Store {
    [Cell("a", IntV(k)), Cell("b", IntV(l)), Cell("a", ArrV([]))]
  }

  lemma ShadowedProgram(k: Word, l: Word, fuel: nat)
    ensures var inputs := Shadowed(k, l);
            && (var p := Program(inputs[..1], fuel); p == Going(map["a" := 0], Cells(k, l)[..1], UnitV, []))
            && (var p := Program(inputs[..2], fuel);
                p.Going? && p.env == map["a" := 0, "b" := 1] && p.st == Cells(k, l)[..2])
            && (var q := Program(inputs, fuel); q.Going? && q.env == map["a" := 2, "b" := 1] && q.st == Cells(k, l))
  {
    hide Program, Eval, Shadowed;
    var inputs := Shadowed(k, l);
    ShadowedForm(k, l);
    RunTopStart(map[], [], false, fuel);
    ProgramStart([], fuel);
    NothingPrinted([], fuel);
    EvalLeaf(IntLit(k), map[], [], false, fuel);
    ProgramGoes([], inputs[0], fuel);
    assert [] + [inputs[0]] == inputs[..1] && [] + [Cell("a", IntV(k))] == Cells(k, l)[..1];
    EvalLeaf(IntLit(l), map["a" := 0], Cells(k, l)[..1], false, fuel);
    ProgramGoes(inputs[..1], inputs[1], fuel);
    assert Cells(k, l)[..1] + [Cell("b", IntV(l))] == Cells(k, l)[..2];
    EvalLeaf(EmptyArray, map["a" := 0, "b" := 1], Cells(k, l)[..2], false, fuel);
    ProgramGoes(inputs[..2], inputs[2], fuel);
    assert Cells(k, l)[..2] + [Cell("a", ArrV([]))] == Cells(k, l);
    assert map["a" := 0, "b" := 1]["a" := 2] == map["a" := 2, "b" := 1];
  }

  lemma CollidingProgram(k: Word, l: Word, m: Word, fuel: nat)
    ensures var t := Program(Shadowed(k, l) + [LetInt("c", m)] + [ExprIn(Ident("b"))], fuel);
            t.Going? && t.value == IntV(l)
  {
    hide Program, Eval, Shadowed;
    ShadowedProgram(k, l, fuel);
    var inputs, env := Shadowed(k, l), map["a" := 2, "b" := 1];
    EvalLeaf(IntLit(m), env, Cells(k, l), false, fuel);
    ProgramGoes(inputs, LetInt("c", m), fuel);
    EvalLeaf(Ident("b"), env["c" := 3], Cells(k, l) + [Cell("c", IntV(m))], false, fuel);
    ProgramGoes(inputs + [LetInt("c", m)], ExprIn(Ident("b")), fuel);
  }

  /** A history of `let`s of leaves, whatever has a slot, can be replayed. */
  lemma LeavesAreSteadfast(inputs: seq<Input>, names: set<string>, fuel: nat)
    requires forall i :: 0 <= i < |inputs| ==> inputs[i].LetIn? && (inputs[i].rhs.IntLit? || inputs[i].rhs.EmptyArray?)
    requires forall i, j :: 0 <= i < j < |inputs| && inputs[i].name == inputs[j].name ==> inputs[i].name !in names
    ensures Steadfast(inputs, names, LetSet(inputs), fuel) && Transparent(inputs, names)
  {
    hide Program, Faithful;
    var lets := LetSet(inputs);
    forall i, x, t | 0 <= i < |inputs| ensures !Writes(CodeAt(inputs, i), x, t) {
      LeafIsPlain(CodeAt(inputs, i), x, t);
    }
    forall i | 0 <= i < |inputs| ensures LitFree(CodeAt(inputs, i)) {
      LeafIsPlain(CodeAt(inputs, i), "", Assigning);
    }
    forall i | 0 <= i < |inputs| ensures Completes(inputs, i, names, lets, fuel) {
      if inputs[i].name !in names {
        assert VolatileAt(inputs, i, names, lets) == iset{};
        NothingVolatileIsFaithful(inputs, i, names, lets);
      }
    }
  }

  lemma LeafIsSteady(front: seq<Input>, inp: Input, vars: seq<VarSlot>, fuel: nat)
    requires forall i :: 0 <= i < |front| ==> front[i].LetIn? && (front[i].rhs.IntLit? || front[i].rhs.EmptyArray?)
    requires forall i, j :: 0 <= i < j < |front| ==> front[i].name != front[j].name
    requires Probe(Table(front), inp) == vars && IndicesDistinct(vars) && TAIL !in Names(vars)
    requires inp.LetIn? && inp.name in Names(vars) ==> !Declared(front, inp.name)
    requires WellKinded(front, inp, fuel)
    ensures SteadyAt(front, inp, fuel)
  {
    hide Program, Steadfast, Transparent, Table, Probe;
    LeavesAreSteadfast(front, Names(vars), fuel);
  }

  lemma ShadowedIsSteady(k: Word, l: Word, fuel: nat)
    ensures Steady(Shadowed(k, l), fuel)
  {
    hide Program, Shadowed, SteadyAt, Table, Probe;
    var inputs := Shadowed(k, l);
    ShadowedForm(k, l);
    ShadowingMakesSlotsCollide(k, l, 0);
    ShadowedProgram(k, l, fuel);
    NamesOf();
    TableOfNone();
    assert inputs[..0] + [inputs[0]] == inputs[..1];
    LeafIsSteady(inputs[..0], inputs[0], [A()], fuel);
    LeafIsSteady(inputs[..1], inputs[1], [A(), B()], fuel);
    LeafIsSteady(inputs[..2], inputs[2], [B()], fuel);
  }

  // ---------------------------------------------------------------------------------------
  // From there on two variables share a slot.
  // ---------------------------------------------------------------------------------------

  /** What is replayed for both later inputs. */
  function ReplayOfA(k: Word): seq<Stmt> {
    [Let(false, "a", IntLit(k)), Let(false, "a", EmptyArray)]
  }

  /** The machine after the prefix of a wrapper with slots for `b` and `c`. */
  function BeforeUser(k: Word, n: Word, slots: seq<Word>): Machine {
    Machine(map["b" := 0, "c" := 1, "a" := 3],
            [Cell("b", IntV(n)), Cell("c", IntV(n)), Cell("a", IntV(k)), Cell("a", ArrV([]))], slots, false)
  }

  lemma ReplayOfARuns(k: Word, n: Word, fuel: nat)
    ensures var st := [Cell("b", IntV(n)), Cell("c", IntV(n))];
            var t := RunTop(ReplayOfA(k), map["b" := 0, "c" := 1], st, true, fuel);
            t.Going? && t.env == BeforeUser(k, n, []).env && t.st == BeforeUser(k, n, []).st
  {
    hide RunTop, Eval;
    var env, st := map["b" := 0, "c" := 1], [Cell("b", IntV(n)), Cell("c", IntV(n))];
    RunTopStart(env, st, true, fuel);
    EvalLeaf(IntLit(k), env, st, true, fuel);
    RunTopSnoc([], Let(false, "a", IntLit(k)), env, st, true, fuel);
    EvalLeaf(EmptyArray, env["a" := 2], st + [Cell("a", IntV(k))], true, fuel);
    RunTopSnoc([] + [Let(false, "a", IntLit(k))], Let(false, "a", EmptyArray), env, st, true, fuel);
    assert [] + [Let(false, "a", IntLit(k))] + [Let(false, "a", EmptyArray)] == ReplayOfA(k);
    assert env["a" := 2]["a" := 3] == BeforeUser(k, n, []).env;
  }

  /** The prefix loads the one slot into both variables. */
  lemma BothAreLoaded(k: Word, slots: seq<Word>, fuel: nat)
    requires |slots| > 1
    ensures var r := RunW(Prefix([B(), C()], ReplayOfA(k)), Machine(map[], [], slots, false), fuel);
            r.WDone? && r.m == BeforeUser(k, slots[1], slots) && r.out == []
  {
    hide RunW, RunTop, Region, ReplayOfA;
    var n, m0 := slots[1], Machine(map[], [], slots, false);
    var m1 := Machine(map["b" := 0], [Cell("b", IntV(n))], slots, false);
    var m2 := Machine(map["b" := 0, "c" := 1], [Cell("b", IntV(n)), Cell("c", IntV(n))], slots, false);
    CollidingLoads();
    RunSingle(SlotLoad("b", false, 1), m0, fuel);
    RunSingle(SlotLoad("c", false, 1), m1, fuel);
    RunWThen([SlotLoad("b", false, 1)], [SlotLoad("c", false, 1)], m0, m1, fuel);
    ReplayOfARuns(k, n, fuel);
    RegionRun(ReplayOfA(k), m2, fuel);
    RunWThen([SlotLoad("b", false, 1)] + [SlotLoad("c", false, 1)], Region(ReplayOfA(k)), m0, m2, fuel);
    NothingRefreshes(k);
    assert Prefix([B(), C()], ReplayOfA(k)) == Loads([B(), C()]) + Region(ReplayOfA(k));
  }

  lemma CollidingLoads()
    ensures Loads([B(), C()]) == [SlotLoad("b", false, 1)] + [SlotLoad("c", false, 1)]
    ensures Stores([B(), C()]) == [SlotStore(1, "b"), SlotStore(1, "c")]
  {
    assert ButLast([B(), C()]) == [B()] && ButLast([B()]) == [];
    assert Loads([]) == [] && Stores([]) == [];
    assert Loads([B()]) == [SlotLoad("b", false, 1)] && Stores([B()]) == [SlotStore(1, "b")];
  }

  lemma NothingRefreshes(k: Word)
    ensures ReplayOfA(k) != [] && Refreshes([B(), C()], ReplayOfA(k)) == []
  {
    var ss := ReplayOfA(k);
    assert Code(ss[0]) == IntLit(k) && Code(ss[1..][0]) == EmptyArray && ss[1..][1..] == [];
    assert forall x :: !BlockMutatesSlot(ss[1..], x);
    assert forall x :: !BlockMutatesSlot(ss, x);
    assert ButLast([B(), C()]) == [B()] && ButLast([B()]) == [];
    assert Refreshes([], ss) == [] && Refreshes([B()], ss) == [];
  }

  /** The end of a wrapper: the tail, the stores in table order, the tail read back. */
  function CollidingEnd(e: string): seq<WStmt> {
    [Run(Let(false, TAIL, Ident(e)))] + ([SlotStore(1, "b"), SlotStore(1, "c")] + [Run(Expression(Ident(TAIL)))])
  }

  lemma LastStoreWins(e: string, m: Machine, w: Word, n: Word, fuel: nat)
    requires !m.replaying && |m.slots| > 1 && Bound(e, m.env, m.st)
    requires Bound("b", m.env, m.st) && m.st[m.env["b"]].value == IntV(w)
    requires Bound("c", m.env, m.st) && m.st[m.env["c"]].value == IntV(n)
    ensures var r := RunW(CollidingEnd(e), m, fuel);
            r.WDone? && r.value == m.st[m.env[e]].value && r.m.slots == m.slots[1 := n] && !r.m.replaying && r.out == []
  {
    hide RunW, Eval;
    var v := m.st[m.env[e]].value;
    var m1 := m.(env := m.env[TAIL := |m.st|], st := Alloc(m.st, TAIL, v));
    var m2 := m1.(slots := m.slots[1 := w]);
    var m3 := m2.(slots := m2.slots[1 := n]);
    var read := Run(Expression(Ident(TAIL)));
    EvalIdent(e, m.env, m.st, false, fuel);
    assert TAIL != "b" && TAIL != "c";
    assert Steps(Run(Let(false, TAIL, Ident(e))), m, m1, fuel);
    RunCons(Run(Let(false, TAIL, Ident(e))), [SlotStore(1, "b")] + ([SlotStore(1, "c")] + [read]), m, m1, fuel);
    RunCons(SlotStore(1, "b"), [SlotStore(1, "c")] + [read], m1, m2, fuel);
    RunCons(SlotStore(1, "c"), [read], m2, m3, fuel);
    ReadBack(TAIL, m3, fuel);
    assert [SlotStore(1, "b"), SlotStore(1, "c")] + [read] == [SlotStore(1, "b")] + ([SlotStore(1, "c")] + [read]);
  }

  /** A wrapper with slots for `b` and `c` that ends in reading one of them. */
  lemma CollidingBody(k: Word, user: seq<Stmt>, e: string)
    requires user != [] && Last(user) == Expression(Ident(e)) && !BlockContainsReturn(user)
    ensures BuildBody([B(), C()], ReplayOfA(k), user)
         == (Prefix([B(), C()], ReplayOfA(k)) + Codes(ButLast(user))) + CollidingEnd(e)
  {
    hide Prefix, KeepTail, BlockContainsReturn;
    CollidingLoads();
    ReplayReturnsNot(k);
    KeepTailForm(Prefix([B(), C()], ReplayOfA(k)), user, Stores([B(), C()]));
  }

  lemma ReplayReturnsNot(k: Word)
    ensures !BlockContainsReturn(ReplayOfA(k))
  {
    var ss := ReplayOfA(k);
    assert Code(ss[0]) == IntLit(k) && Code(ss[1..][0]) == EmptyArray && ss[1..][1..] == [];
    assert !BlockContainsReturn(ss[1..]);
  }

  /** `let c = m` ends with `m` in the slot of `b`. */
  lemma BindingC(k: Word, m: Word, slots: seq<Word>, fuel: nat)
    requires |slots| > 1
    ensures var r := RunW(BuildBody([B(), C()], ReplayOfA(k), UserStmts(LetInt("c", m))),
                          Machine(map[], [], slots, false), fuel);
            r.WDone? && r.value == IntV(m) && r.m.slots == slots[1 := m] && !r.m.replaying
  {
    hide RunW, Eval, Prefix, BuildBody, ReplayOfA, BlockContainsReturn;
    var m0, m1 := Machine(map[], [], slots, false), BeforeUser(k, slots[1], slots);
    var s := Let(false, "c", IntLit(m));
    var m2 := m1.(env := m1.env["c" := 4], st := m1.st + [Cell("c", IntV(m))]);
    var user := UserStmts(LetInt("c", m));
    BothAreLoaded(k, slots, fuel);
    EvalLeaf(IntLit(m), m1.env, m1.st, false, fuel);
    RunSingle(Run(s), m1, fuel);
    assert ButLast(user) == [s] && Codes([s]) == [Run(s)];
    RunWThen(Prefix([B(), C()], ReplayOfA(k)), [Run(s)], m0, m1, fuel);
    BindingReturnsNot(m);
    CollidingBody(k, user, "c");
    LastStoreWins("c", m2, slots[1], m, fuel);
    RunWThen(Prefix([B(), C()], ReplayOfA(k)) + [Run(s)], CollidingEnd("c"), m0, m2, fuel);
  }

  lemma BindingReturnsNot(m: Word)
    ensures !BlockContainsReturn(UserStmts(LetInt("c", m))) && !BlockContainsReturn([Expression(Ident("b"))])
  {
    var ss := UserStmts(LetInt("c", m));
    assert Code(ss[0]) == IntLit(m) && Code(ss[1..][0]) == Ident("c") && ss[1..][1..] == [];
    assert !BlockContainsReturn(ss[1..]);
    assert Code([Expression(Ident("b"))][0]) == Ident("b") && [Expression(Ident("b"))][1..] == [];
  }

  /** Reading `b` then shows what the slot holds. */
  lemma ReadingB(k: Word, slots: seq<Word>, fuel: nat)
    requires |slots| > 1
    ensures var r := RunW(BuildBody([B(), C()], ReplayOfA(k), [Expression(Ident("b"))]),
                          Machine(map[], [], slots, false), fuel);
            r.WDone? && r.value == IntV(slots[1])
  {
    hide RunW, Eval, Prefix, BuildBody, ReplayOfA, BlockContainsReturn;
    var m0, m1 := Machine(map[], [], slots, false), BeforeUser(k, slots[1], slots);
    var user := [Expression(Ident("b"))];
    BothAreLoaded(k, slots, fuel);
    BindingReturnsNot(0);
    CollidingBody(k, user, "b");
    assert ButLast(user) == [] && Codes([]) == [];
    var pre := Prefix([B(), C()], ReplayOfA(k));
    assert pre + Codes([]) == pre;
    LastStoreWins("b", m1, slots[1], slots[1], fuel);
    RunWThen(pre, CollidingEnd("b"), m0, m1, fuel);
  }

  function HistoryOfA(k: Word, l: Word): seq<Stmt> {
    [Let(false, "a", IntLit(k)), Let(false, "b", IntLit(l)), Let(false, "a", EmptyArray)]
  }

  lemma RecordedShadowed(k: Word, l: Word)
    ensures Recorded(Shadowed(k, l)) == HistoryOfA(k, l)
  {
    var inputs := Shadowed(k, l);
    ShadowedForm(k, l);
    assert ButLast(inputs) == inputs[..2] && ButLast(inputs[..2]) == inputs[..1] && ButLast(inputs[..1]) == [];
    assert Recorded(inputs[..1]) == [Let(false, "a", IntLit(k))];
    assert Recorded(inputs[..2]) == [Let(false, "a", IntLit(k)), Let(false, "b", IntLit(l))];
  }

  /** What the history becomes for these wrappers. */
  lemma ReplayIsOfA(k: Word, l: Word, m: Word, lets: set<string>)
    ensures CollectReplay(HistoryOfA(k, l), {"b", "c"}, lets) == ReplayOfA(k)
    ensures CollectReplay(HistoryOfA(k, l) + [Let(false, "c", IntLit(m))], {"b", "c"}, lets) == ReplayOfA(k)
  {
    var a, b, c := Let(false, "a", IntLit(k)), Let(false, "b", IntLit(l)), Let(false, "c", IntLit(m));
    var h := HistoryOfA(k, l);
    assert ButLast(h) == [a, b] && ButLast([a, b]) == [a] && ButLast([a]) == [] && ButLast(h + [c]) == h;
    assert CollectReplay([a], {"b", "c"}, lets) == [a];
    assert CollectReplay([a, b], {"b", "c"}, lets) == [a];
  }

  /** `let a = k`, `let b = l`, `let a = []`, `let c = m`, and then `b` shows the value of `c`, not its own. */
  lemma SharedSlotShows(k: Word, l: Word, m: Word, fuel: nat)
    ensures Session(Shadowed(k, l), fuel).Some?
    ensures var r := Step(Session(Shadowed(k, l), fuel).value.0, LetInt("c", m), fuel);
            && r.Next? && r.value == IntV(m)
            && (var r' := Step(r.s, ExprIn(Ident("b")), fuel); r'.Next? && r'.value == IntV(m))
    ensures var t := Program(Shadowed(k, l) + [LetInt("c", m)] + [ExprIn(Ident("b"))], fuel);
            t.Going? && t.value == IntV(l)
  {
    hide Program, Shadowed, Session, Steady, Synced, ShowsAt, Step;
    CollidingProgram(k, l, m, fuel);
    ShadowedProgram(k, l, fuel);
    ShadowedIsSteady(k, l, fuel);
    SteadySessionIsOnceThrough(Shadowed(k, l), fuel);
    SharedSlotSteps(k, l, m, Session(Shadowed(k, l), fuel).value.0, fuel);
  }

  lemma SharedSlotSteps(k: Word, l: Word, m: Word, s: Sess, fuel: nat)
    requires Synced(Shadowed(k, l), s, fuel)
    ensures var r := Step(s, LetInt("c", m), fuel);
            && r.Next? && r.value == IntV(m)
            && (var r' := Step(r.s, ExprIn(Ident("b")), fuel); r'.Next? && r'.value == IntV(m))
  {
    hide Program, Shadowed, RunW, BuildBody, ReplayOfA, Table, Register, CollectReplay, Position, Unregister;
    ShadowingMakesSlotsCollide(k, l, m);
    NamesOf();
    RecordedShadowed(k, l);
    ReplayIsOfA(k, l, m, LetNames(s.lets));
    BindingC(k, m, s.slots, fuel);
    var r := Step(s, LetInt("c", m), fuel);
    assert r.s.vars == [B(), C()] && r.s.history == s.history + [Let(false, "c", IntLit(m))];
    ReplayIsOfA(k, l, m, LetNames(r.s.lets));
    ReadingB(k, r.s.slots, fuel);
  }
}
