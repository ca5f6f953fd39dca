/** Whole sessions: a run of wrappers behaves like the once-through program. */
module ReplRuns {
  import opened Common
  import opened ReplSyntax
  import opened ReplSemantics
  import opened ReplFrames
  import opened ReplSimulation
  import opened ReplSession
  import opened ReplReplay

  // ---------------------------------------------------------------------------------------
  // Running the pieces of a wrapper.
  // ---------------------------------------------------------------------------------------

  lemma {:induction false} RunWAppend(a: seq<WStmt>, b: seq<WStmt>, m: Machine, fuel: nat)
    requires b != []
    ensures RunW(a + b, m, fuel) ==
            match RunW(a, m, fuel)
            case WDone(_, m1, o) => WPrepend(o, RunW(b, m1, fuel))
            case other => other
    decreases |a|
  {
    hide StepW;
    if a == [] {
      assert a + b == b;
      NothingPrepended(RunW(b, m, fuel));
    } else {
      assert (a + b)[1..] == a[1..] + b;
      match StepW(a[0], m, fuel)
      case WDone(_, m1, o1) =>
        RunWAppend(a[1..], b, m1, fuel);
        if |a| == 1 { assert a[1..] + b == b; }
        match RunW(a[1..], m1, fuel) {
          case WDone(_, m2, o2) => PrependedTwice(o1, o2, RunW(b, m2, fuel));
          case _ =>
        }
      case _ =>
    }
  }

  lemma NothingPrepended(r: WOutcome)
    ensures WPrepend([], r) == r
  {
  }

  lemma PrependedTwice(o1: seq<Value>, o2: seq<Value>, r: WOutcome)
    ensures WPrepend(o1, WPrepend(o2, r)) == WPrepend(o1 + o2, r)
  {
    if !r.WFail? { assert o1 + (o2 + r.out) == (o1 + o2) + r.out; }
  }

  lemma RunNone(m: Machine, fuel: nat)
    ensures RunW([], m, fuel) == WDone(UnitV, m, [])
  {
  }

  lemma RunSingle(w: WStmt, m: Machine, fuel: nat)
    ensures RunW([w], m, fuel) == StepW(w, m, fuel)
  {
  }

  lemma RunWThen(a: seq<WStmt>, b: seq<WStmt>, m: Machine, m1: Machine, fuel: nat)
    requires var r := RunW(a, m, fuel); r.WDone? && r.m == m1
    ensures var r, r1, r2 := RunW(a, m, fuel), RunW(b, m1, fuel), RunW(a + b, m, fuel);
            r1.WDone? ==>
              r2.WDone? && r2.m == r1.m && r2.out == r.out + r1.out && (b != [] ==> r2.value == r1.value)
  {
    if b == [] { assert a + b == a; } else { RunWAppend(a, b, m, fuel); }
  }

  /** A silent statement that takes one machine to another. */
  predicate Steps(w: WStmt, m: Machine, m1: Machine, fuel: nat) {
    var r := StepW(w, m, fuel); r.WDone? && r.m == m1 && r.out == []
  }

  lemma RunCons(w: WStmt, ws: seq<WStmt>, m: Machine, m1: Machine, fuel: nat)
    requires Steps(w, m, m1, fuel) && ws != []
    ensures RunW([w] + ws, m, fuel) == RunW(ws, m1, fuel)
  {
    assert ([w] + ws)[1..] == ws;
    var r := RunW(ws, m1, fuel);
    if !r.WFail? { assert [] + r.out == r.out; }
  }

  /** Step (1) puts every slot variable in its own cell. */
  lemma {:induction false} LoadsRun(vars: seq<VarSlot>, slots: seq<Word>, flag: bool, fuel: nat)
    requires GoodVars(vars, slots)
    ensures var r := RunW(Loads(vars), Machine(map[], [], slots, flag), fuel);
            r.WDone? && r.m == Machine(LoadedEnv(vars), LoadedStore(vars, slots), slots, flag) && r.out == []
  {
    hide RunW, RunTop;
    RunNone(Machine(map[], [], slots, flag), fuel);
    if vars != [] {
      var m := Machine(map[], [], slots, flag);
      var front, v := ButLast(vars), Last(vars);
      LoadsRun(front, slots, flag, fuel);
      var m1 := Machine(LoadedEnv(front), LoadedStore(front, slots), slots, flag);
      RunSingle(SlotLoad(v.name, v.mutable, v.idx), m1, fuel);
      RunWThen(Loads(front), [SlotLoad(v.name, v.mutable, v.idx)], m, m1, fuel);
      assert LoadedStore(vars, slots) == Alloc(LoadedStore(front, slots), v.name, IntV(slots[v.idx]));
    }
  }

  /** Plain code in a wrapper is plain code. */
  lemma {:induction false} CodesRun(ss: seq<Stmt>, m: Machine, fuel: nat)
    ensures var t, r := RunTop(ss, m.env, m.st, m.replaying, fuel), RunW(Codes(ss), m, fuel);
            && (r.WDone? <==> t.Going?) && (r.WFail? <==> t.Broken?)
            && (t.Going? ==> r.m == m.(env := t.env, st := t.st) && r.out == t.out && r.value == t.value)
  {
    if ss == [] {
    } else {
      CodesRun(ButLast(ss), m, fuel);
      assert Codes(ss) == Codes(ButLast(ss)) + [Run(Last(ss))];
      RunWAppend(Codes(ButLast(ss)), [Run(Last(ss))], m, fuel);
    }
  }

  /** Step (2) runs the replay silently and leaves the flag down. */
  lemma RegionRun(replay: seq<Stmt>, m: Machine, fuel: nat)
    requires !m.replaying && RunTop(replay, m.env, m.st, true, fuel).Going?
    ensures var t, r := RunTop(replay, m.env, m.st, true, fuel), RunW(Region(replay), m, fuel);
            r.WDone? && r.m == m.(env := t.env, st := t.st) && r.out == []
  {
    if replay != [] {
      var t := RunTop(replay, m.env, m.st, true, fuel);
      var m1 := m.(replaying := true);
      var m2 := m1.(env := t.env, st := t.st);
      CodesRun(replay, m1, fuel);
      RunWThen([SetReplaying(true)], Codes(replay), m, m1, fuel);
      RunWThen([SetReplaying(true)] + Codes(replay), [SetReplaying(false)], m, m2, fuel);
    }
  }

  /** One refresh. */
  lemma RefreshRun(vars: seq<VarSlot>, i: nat, m: Machine, fuel: nat)
    requires i < |vars| && GoodVars(vars, m.slots) && SlotsInPlace(vars, m.env, m.st)
    ensures var r, c := RunW([SlotRefresh(vars[i].name, vars[i].idx)], m, fuel), m.slots[vars[i].idx];
            && r.WDone? && r.out == [] && r.m == m.(st := m.st[i := Cell(vars[i].name, IntV(c))])
            && Grows(m.st, r.m.st) && SlotsInPlace(vars, m.env, r.m.st)
  {
    hide RunW;
    RunSingle(SlotRefresh(vars[i].name, vars[i].idx), m, fuel);
  }

  lemma GrowsThen(st: Store, st1: Store, st2: Store)
    requires Grows(st, st1) && Grows(st1, st2)
    ensures Grows(st, st2)
  {
  }

  lemma GrowsSelf(st: Store)
    ensures Grows(st, st)
  {
  }

  /** The first `n` slots refreshed, where the walker named them. */
  ghost predicate RefreshedTo(vars: seq<VarSlot>, n: nat, slots: seq<Word>, replay: seq<Stmt>, st: Store, st': Store) {
    && |st'| == |st| && n <= |vars| && GoodVars(vars, slots)
    && (forall c :: 0 <= c < |st| && !(c < n && BlockMutatesSlot(replay, vars[c].name)) ==> st'[c] == st[c])
    && (forall c :: 0 <= c < n && c < |st| && BlockMutatesSlot(replay, vars[c].name) ==>
          st'[c].value == IntV(slots[vars[c].idx]))
  }

  lemma RefreshedNext(vars: seq<VarSlot>, n: nat, slots: seq<Word>, replay: seq<Stmt>, st: Store, st1: Store,
                      st2: Store)
    requires RefreshedTo(vars, n, slots, replay, st, st1) && n < |vars| && n < |st1|
    requires if BlockMutatesSlot(replay, vars[n].name)
             then st2 == st1[n := Cell(vars[n].name, IntV(slots[vars[n].idx]))] else st2 == st1
    ensures RefreshedTo(vars, n + 1, slots, replay, st, st2)
  {
    hide BlockMutatesSlot, GoodVars;
  }

  lemma RefreshedStart(vars: seq<VarSlot>, slots: seq<Word>, replay: seq<Stmt>, st: Store)
    requires GoodVars(vars, slots)
    ensures RefreshedTo(vars, 0, slots, replay, st, st)
  {
  }

  /** Step (3) writes the slots the walker named, into the cells already in place. */
  lemma {:induction false} RefreshesRun(vars: seq<VarSlot>, n: nat, replay: seq<Stmt>, m: Machine, fuel: nat)
    requires n <= |vars| && GoodVars(vars, m.slots) && SlotsInPlace(vars, m.env, m.st)
    ensures var r := RunW(Refreshes(vars[..n], replay), m, fuel);
            && r.WDone? && r.out == [] && r.m == m.(st := r.m.st) && Grows(m.st, r.m.st)
            && SlotsInPlace(vars, r.m.env, r.m.st) && RefreshedTo(vars, n, m.slots, replay, m.st, r.m.st)
    decreases n
  {
    hide RunW, BlockMutatesSlot, Grows, RefreshedTo;
    RunNone(m, fuel);
    GrowsSelf(m.st);
    if n == 0 {
      RefreshedStart(vars, m.slots, replay, m.st);
    } else {
      RefreshesRun(vars, n - 1, replay, m, fuel);
      var v := vars[n - 1];
      assert ButLast(vars[..n]) == vars[..n - 1] && Last(vars[..n]) == v;
      var r := RunW(Refreshes(vars[..n - 1], replay), m, fuel);
      var st := r.m.st;
      if BlockMutatesSlot(replay, v.name) {
        RefreshRun(vars, n - 1, r.m, fuel);
        RunWThen(Refreshes(vars[..n - 1], replay), [SlotRefresh(v.name, v.idx)], m, r.m, fuel);
        st := RunW([SlotRefresh(v.name, v.idx)], r.m, fuel).m.st;
        GrowsThen(m.st, r.m.st, st);
      } else {
        assert Refreshes(vars[..n], replay) == Refreshes(vars[..n - 1], replay);
      }
      RefreshedNext(vars, n - 1, m.slots, replay, m.st, r.m.st, st);
    }
  }

  /** One store. */
  lemma StoreRun(v: VarSlot, m: Machine, fuel: nat)
    requires v.idx < |m.slots| && Bound(v.name, m.env, m.st) && m.st[m.env[v.name]].value.IntV?
    ensures var r := RunW([SlotStore(v.idx, v.name)], m, fuel);
            r.WDone? && r.out == [] && r.m == m.(slots := m.slots[v.idx := m.st[m.env[v.name]].value.n])
  {
    hide RunW;
    RunSingle(SlotStore(v.idx, v.name), m, fuel);
  }

  /** Step (5) writes every slot variable's value to its slot. */
  lemma {:induction false} StoresRun(vars: seq<VarSlot>, n: nat, m: Machine, fuel: nat)
    requires n <= |vars| && GoodVars(vars, m.slots)
    requires forall i :: 0 <= i < |vars| ==> Bound(vars[i].name, m.env, m.st) && m.st[m.env[vars[i].name]].value.IntV?
    ensures var r := RunW(Stores(vars[..n]), m, fuel);
            && r.WDone? && r.out == [] && r.m == m.(slots := r.m.slots) && |r.m.slots| == |m.slots|
            && Stored(vars[..n], r.m.slots, m.env, m.st)
    decreases n
  {
    hide RunW, Stored;
    RunNone(m, fuel);
    if n == 0 {
      NoneStored(m.slots, m.env, m.st);
    } else {
      StoresRun(vars, n - 1, m, fuel);
      var v := vars[n - 1];
      assert ButLast(vars[..n]) == vars[..n - 1] && Last(vars[..n]) == v;
      var r := RunW(Stores(vars[..n - 1]), m, fuel);
      StoreRun(v, r.m, fuel);
      RunWThen(Stores(vars[..n - 1]), [SlotStore(v.idx, v.name)], m, r.m, fuel);
      OneMoreStored(vars, n - 1, r.m.slots, m.env, m.st);
    }
  }

  lemma NoneStored(slots: seq<Word>, env: Env, st: Store)
    ensures Stored([], slots, env, st)
  {
  }

  lemma OneMoreStored(vars: seq<VarSlot>, n: nat, slots: seq<Word>, env: Env, st: Store)
    requires n < |vars| && GoodVars(vars, slots) && Stored(vars[..n], slots, env, st)
    requires Bound(vars[n].name, env, st) && st[env[vars[n].name]].value.IntV?
    ensures Stored(vars[..n + 1], slots[vars[n].idx := st[env[vars[n].name]].value.n], env, st)
  {
    assert vars[..n + 1] == vars[..n] + [vars[n]];
  }

  // ---------------------------------------------------------------------------------------
  // The walker is sound, so skipping a refresh is.
  // ---------------------------------------------------------------------------------------

  lemma {:induction false} BlockWritesNothing(ss: seq<Stmt>, x: string)
    requires !BlockWrites(ss, x, Assigning)
    ensures Unassigned(ss, x)
  {
    if ss != [] {
      BlockWritesNothing(ss[1..], x);
      forall i | 0 <= i < |ss| ensures !Writes(Code(ss[i]), x, Assigning) {
        if i > 0 { assert ss[i] == ss[1..][i - 1]; }
      }
    }
  }

  lemma {:induction false} FrameTop(ss: seq<Stmt>, env: Env, st: Store, quiet: bool, fuel: nat, x: string, t: Touch)
    requires forall i :: 0 <= i < |ss| ==> !Writes(Code(ss[i]), x, t)
    requires !t.Declaring? && ShyStore(st, x, t) && RunTop(ss, env, st, quiet, fuel).Going?
    ensures var st' := RunTop(ss, env, st, quiet, fuel).st; ShyStore(st', x, t) && Untouched(st, st', x, t)
  {
    if ss != [] {
      FrameTop(ButLast(ss), env, st, quiet, fuel, x, t);
      var r := RunTop(ButLast(ss), env, st, quiet, fuel);
      FrameStmt(Last(ss), r.env, r.st, quiet, fuel, x, t);
    }
  }

  ghost predicate Unassigned(ss: seq<Stmt>, x: string) {
    forall i :: 0 <= i < |ss| ==> !Writes(Code(ss[i]), x, Assigning)
  }

  lemma UnassignedSnoc(ss: seq<Stmt>, s: Stmt, x: string)
    requires Unassigned(ss, x) && !Writes(Code(s), x, Assigning)
    ensures Unassigned(ss + [s], x)
  {
  }

  /** Code in which nothing assigns `x` changes no `Int` variable of that name. */
  lemma UnassignedStays(ss: seq<Stmt>, env: Env, st: Store, quiet: bool, fuel: nat, x: string)
    requires Unassigned(ss, x) && ShyStore(st, x, Assigning) && RunTop(ss, env, st, quiet, fuel).Going?
    ensures var st' := RunTop(ss, env, st, quiet, fuel).st;
            forall c :: 0 <= c < |st| && st[c].name == x && st[c].value.IntV? ==> st'[c] == st[c]
  {
    FrameTop(ss, env, st, quiet, fuel, x, Assigning);
  }

  /** If the walker answers "no" for a name on code it can see through, no run of that code
      changes an `Int` variable of that name. */
  lemma WalkerSound(ss: seq<Stmt>, env: Env, st: Store, quiet: bool, fuel: nat, x: string)
    requires BlockWalkable(ss) && !BlockMutatesSlot(ss, x)
    requires ShyStore(st, x, Assigning) && RunTop(ss, env, st, quiet, fuel).Going?
    ensures var st' := RunTop(ss, env, st, quiet, fuel).st;
            forall c :: 0 <= c < |st| && st[c].name == x && st[c].value.IntV? ==> st'[c] == st[c]
  {
    WalkerFindsAssignmentsInBlock(ss, x);
    BlockWritesNothing(ss, x);
    UnassignedStays(ss, env, st, quiet, fuel, x);
  }

  /** Built only from the forms that `rhs_mutates_session_var` looks into, and leaves. */
  predicate LooksInto(e: Expr)
    decreases e
  {
    && (|| e.IntLit? || e.BoolLit? || e.UnitLit? || e.EmptyArray? || e.Range? || e.Ident? || e.Binary? || e.Len?
        || (e.MethodCall? && e.trailing.None?) || e.ClosureCall? || e.Puts?)
    && forall i :: 0 <= i < |Operands(e)| ==> LooksInto(Operands(e)[i])
  }

  lemma {:induction false} RhsWalkerFindsMutations(e: Expr, names: set<string>, x: string)
    requires LooksInto(e) && !RhsMutates(e, names) && x in names
    ensures !Writes(e, x, Mutating)
    decreases e
  {
    forall i | 0 <= i < |Operands(e)| ensures !Writes(Operands(e)[i], x, Mutating) {
      RhsWalkerFindsMutations(Operands(e)[i], names, x);
    }
  }

  /** If the other walker answers "no" on forms it looks into, evaluating the right-hand side changes
      no session variable, so a `let` of a slot variable can be left out of the replay. */
  lemma RhsWalkerSound(e: Expr, names: set<string>, env: Env, st: Store, quiet: bool, fuel: nat)
    requires LooksInto(e) && !RhsMutates(e, names) && forall x :: x in names ==> ShyStore(st, x, Mutating)
    requires Eval(e, env, st, quiet, fuel).Done?
    ensures var st' := Eval(e, env, st, quiet, fuel).store;
            forall c :: 0 <= c < |st| && st[c].name in names ==> st'[c] == st[c]
  {
    var st' := Eval(e, env, st, quiet, fuel).store;
    forall c | 0 <= c < |st| && st[c].name in names ensures st'[c] == st[c] {
      RhsWalkerFindsMutations(e, names, st[c].name);
      Frame(e, env, st, quiet, fuel, st[c].name, Mutating);
    }
  }

  /** Every assignment to a slot name that occurs in a recorded input is one the walker finds. */
  ghost predicate Transparent(inputs: seq<Input>, names: set<string>) {
    forall i, x ::
      0 <= i < |inputs| && IsRecorded(inputs[i]) && x in names && Writes(CodeAt(inputs, i), x, Assigning) ==>
        MutatesSlot(CodeAt(inputs, i), x)
  }

  /** Code without the forms the walker does not enter is transparent. */
  lemma WalkableIsTransparent(inputs: seq<Input>, names: set<string>)
    requires forall i :: 0 <= i < |inputs| && IsRecorded(inputs[i]) ==> Walkable(CodeAt(inputs, i))
    ensures Transparent(inputs, names)
  {
    forall i, x | 0 <= i < |inputs| && IsRecorded(inputs[i]) && x in names && Writes(CodeAt(inputs, i), x, Assigning)
      ensures MutatesSlot(CodeAt(inputs, i), x)
    {
      WalkerFindsAssignments(CodeAt(inputs, i), x);
    }
  }

  lemma {:induction false} WalkerAppend(ss: seq<Stmt>, s: Stmt, x: string)
    ensures BlockMutatesSlot(ss + [s], x) <==> BlockMutatesSlot(ss, x) || MutatesSlot(Code(s), x)
  {
    if ss == [] {
      assert ([s])[1..] == [] && [] + [s] == [s];
    } else {
      WalkerAppend(ss[1..], s, x);
      assert (ss + [s])[1..] == ss[1..] + [s];
    }
  }

  /** If the walker finds no assignment to a slot name in the replay, there is none. */
  lemma {:induction false} ReplayUnassigned(inputs: seq<Input>, k: nat, names: set<string>, lets: set<string>,
                                            x: string)
    requires k <= |inputs| && Transparent(inputs, names) && x in names
    requires !BlockMutatesSlot(CollectReplay(Recorded(inputs[..k]), names, lets), x)
    ensures Unassigned(CollectReplay(Recorded(inputs[..k]), names, lets), x)
  {
    hide Writes, MutatesSlot, BlockMutatesSlot, CollectReplay, RewriteForReplay, Unassigned;
    if k > 0 {
      CollectStep(inputs, k - 1, names, lets);
      var ss := CollectReplay(Recorded(inputs[..k - 1]), names, lets);
      if IsReplayed(inputs[k - 1], names, lets) {
        var s := RewriteForReplay(StmtOf(inputs[k - 1]), names, lets).value;
        KeptForm(StmtOf(inputs[k - 1]), names, lets);
        WalkerAppend(ss, s, x);
        ReplayUnassigned(inputs, k - 1, names, lets, x);
        UnassignedSnoc(ss, s, x);
      } else {
        assert ss + [] == ss;
        ReplayUnassigned(inputs, k - 1, names, lets, x);
      }
    } else {
      NothingReplayed(inputs, names, lets, x);
    }
  }

  lemma NothingReplayed(inputs: seq<Input>, names: set<string>, lets: set<string>, x: string)
    ensures Unassigned(CollectReplay(Recorded(inputs[..0]), names, lets), x)
  {
  }

  // ---------------------------------------------------------------------------------------
  // Before the user's statement: the program's state is back.
  // ---------------------------------------------------------------------------------------

  function ReplayFor(inputs: seq<Input>, vars: seq<VarSlot>, lets: set<string>): seq<Stmt> {
    CollectReplay(Recorded(inputs), Names(vars), lets)
  }

  /** Where a wrapper is after its prefix, given where its replay ends. */
  lemma PrefixRuns(vars: seq<VarSlot>, slots: seq<Word>, replay: seq<Stmt>, w: Top, fuel: nat) returns (m: Machine)
    requires GoodVars(vars, slots)
    requires w == RunTop(replay, LoadedEnv(vars), LoadedStore(vars, slots), true, fuel)
    requires w.Going? && SlotsInPlace(vars, w.env, w.st)
    ensures RunW(Prefix(vars, replay), Machine(map[], [], slots, false), fuel).WDone?
    ensures RunW(Prefix(vars, replay), Machine(map[], [], slots, false), fuel).m == m
    ensures RunW(Prefix(vars, replay), Machine(map[], [], slots, false), fuel).out == []
    ensures m == Machine(w.env, m.st, slots, false) && SlotsInPlace(vars, m.env, m.st)
    ensures Grows(w.st, m.st) && Refreshed(vars, slots, replay, w.st, m.st)
  {
    hide RunW, RunTop, LoadedEnv, LoadedStore, SlotsInPlace, BlockMutatesSlot, Grows, Refreshed;
    var m0 := Machine(map[], [], slots, false);
    var m1 := m0.(env := LoadedEnv(vars), st := LoadedStore(vars, slots));
    var m2 := m1.(env := w.env, st := w.st);
    LoadsRun(vars, slots, false, fuel);
    RegionRun(replay, m1, fuel);
    RunWThen(Loads(vars), Region(replay), m0, m1, fuel);
    if replay == [] {
      m := m2;
      NothingRefreshed(vars, slots, w.st);
      PrefixOfNothing(vars);
    } else {
      AllRefreshesRun(vars, replay, m2, fuel);
      m := RunW(Refreshes(vars, replay), m2, fuel).m;
      RunWThen(Loads(vars) + Region(replay), Refreshes(vars, replay), m0, m2, fuel);
    }
  }

  /** What step (3) does to the store. */
  ghost predicate Refreshed(vars: seq<VarSlot>, slots: seq<Word>, replay: seq<Stmt>, st: Store, st': Store) {
    RefreshedTo(vars, |vars|, slots, replay, st, st')
  }

  lemma NothingRefreshed(vars: seq<VarSlot>, slots: seq<Word>, st: Store)
    requires GoodVars(vars, slots)
    ensures Grows(st, st) && Refreshed(vars, slots, [], st, st)
  {
  }

  lemma PrefixOfNothing(vars: seq<VarSlot>)
    ensures Prefix(vars, []) == Loads(vars) + Region([])
  {
  }

  lemma AllRefreshesRun(vars: seq<VarSlot>, replay: seq<Stmt>, m: Machine, fuel: nat)
    requires GoodVars(vars, m.slots) && SlotsInPlace(vars, m.env, m.st)
    ensures var r := RunW(Refreshes(vars, replay), m, fuel);
            && r.WDone? && r.out == [] && r.m == m.(st := r.m.st) && Grows(m.st, r.m.st)
            && SlotsInPlace(vars, r.m.env, r.m.st) && Refreshed(vars, m.slots, replay, m.st, r.m.st)
  {
    RefreshesRun(vars, |vars|, replay, m, fuel);
    assert vars[..|vars|] == vars;
  }

  /** After load, replay and refresh, a wrapper's state corresponds to the program's in every
      variable, with nothing printed and the flag down. */
  lemma PrefixRestores(inputs: seq<Input>, vars: seq<VarSlot>, slots: seq<Word>, lets: set<string>, fuel: nat)
    returns (m: Machine, link: Link)
    requires Setting(inputs, |inputs|, vars, slots, lets, fuel) && Transparent(inputs, Names(vars))
    requires Replayed(inputs, |inputs|, vars, slots, lets, fuel).Going?
    ensures var r := RunW(Prefix(vars, ReplayFor(inputs, vars, lets)), Machine(map[], [], slots, false), fuel);
            r.WDone? && r.m == m && r.out == []
    ensures m.slots == slots && !m.replaying && SlotsInPlace(vars, m.env, m.st)
    ensures var p := Program(inputs, fuel);
            EnvRel(p.env, m.env, link) && StoreRel(p.st, m.st, link, Careless())
  {
    hide RunW, RunTop, Program, StoreRel, EnvRel, TidyStore, TidyEnv, SlotsInPlace, SteadySlots, SlotLinks, Setting,
         Transparent, Grows, Refreshed, OwnLinks, LiveLinks, VolatileAt, LitsTo;
    WholeIsPrefix(inputs);
    SettingParts(inputs, |inputs|, vars, slots, lets, fuel);
    var replay, w := ReplayFor(inputs, vars, lets), Replayed(inputs, |inputs|, vars, slots, lets, fuel);
    var link0 := Rebuild(inputs, |inputs|, |inputs|, vars, slots, lets, fuel);
    m := PrefixRuns(vars, slots, replay, w, fuel);
    link := RestoredRel(inputs, vars, slots, lets, m.st, link0, fuel);
  }

  /** Refreshed or not, every slot cell ends up holding its slot's value. */
  lemma SlotsAreRestored(inputs: seq<Input>, vars: seq<VarSlot>, slots: seq<Word>, lets: set<string>, st: Store,
                         fuel: nat)
    requires GoodVars(vars, slots) && Transparent(inputs, Names(vars))
    requires var w := Replayed(inputs, |inputs|, vars, slots, lets, fuel);
             w.Going? && Refreshed(vars, slots, ReplayFor(inputs, vars, lets), w.st, st) && |vars| <= |st|
    ensures forall i :: 0 <= i < |vars| ==> st[i].value == IntV(slots[vars[i].idx])
  {
    hide RunTop, BlockMutatesSlot, CollectReplay, Transparent;
    assert inputs[..|inputs|] == inputs;
    var replay := ReplayFor(inputs, vars, lets);
    forall i | 0 <= i < |vars| ensures st[i].value == IntV(slots[vars[i].idx]) {
      if !BlockMutatesSlot(replay, vars[i].name) {
        assert vars[i].name in Names(vars);
        ReplayUnassigned(inputs, |inputs|, Names(vars), lets, vars[i].name);
        UnassignedStays(replay, LoadedEnv(vars), LoadedStore(vars, slots), true, fuel, vars[i].name);
      }
    }
  }

  /** With the slots back, nothing is volatile any more. */
  lemma RestoredRel(inputs: seq<Input>, vars: seq<VarSlot>, slots: seq<Word>, lets: set<string>, st: Store,
                    link0: Link, fuel: nat) returns (link: Link)
    requires Setting(inputs, |inputs|, vars, slots, lets, fuel) && Transparent(inputs, Names(vars))
    requires var w := Replayed(inputs, |inputs|, vars, slots, lets, fuel);
             && Rebuilt(inputs, |inputs|, vars, slots, lets, Program(inputs, fuel), w, link0)
             && Grows(w.st, st) && Refreshed(vars, slots, ReplayFor(inputs, vars, lets), w.st, st)
    ensures var p, w := Program(inputs, fuel), Replayed(inputs, |inputs|, vars, slots, lets, fuel);
            EnvRel(p.env, w.env, link) && StoreRel(p.st, st, link, Careless())
  {
    hide Program, RunTop, Replayed, Transparent, ReplayFor, ValRel, EnvRel, TidyStore, TidyEnv, Stirred, VolatileAt,
         LitsTo, OwnLinks, LiveLinks;
    var p, w := Program(inputs, fuel), Replayed(inputs, |inputs|, vars, slots, lets, fuel);
    var care := CareTo(inputs, |inputs|, Names(vars), lets);
    SlotsAreRestored(inputs, vars, slots, lets, st, fuel);
    CellsInRange(p.st, w.st, link0, care);
    link := map c | c in link0 && (p.st[c].name !in care.hidden || link0[c] < |vars|) :: link0[c];
    forall c | c in link ensures CellRel(c, p.st, st, link, Careless()) {
      RestoredCell(inputs, vars, slots, lets, st, link0, link, c, fuel);
    }
    RestoredScope(inputs, vars, slots, lets, w, link0, link, fuel);
  }

  /** The links that matter: to cells that cannot have changed, and to slot cells. */
  ghost predicate Narrowed(inputs: seq<Input>, vars: seq<VarSlot>, lets: set<string>, st1: Store,
                           link0: Link, link: Link)
  {
    var hidden := VolatileAt(inputs, |inputs|, Names(vars), lets);
    && (forall c :: c in link0 ==> c < |st1|)
    && link == map c | c in link0 && (st1[c].name !in hidden || link0[c] < |vars|) :: link0[c]
  }

  lemma RestoredCell(inputs: seq<Input>, vars: seq<VarSlot>, slots: seq<Word>, lets: set<string>, st: Store,
                     link0: Link, link: Link, c: nat, fuel: nat)
    requires Setting(inputs, |inputs|, vars, slots, lets, fuel)
    requires var w := Replayed(inputs, |inputs|, vars, slots, lets, fuel);
             && Rebuilt(inputs, |inputs|, vars, slots, lets, Program(inputs, fuel), w, link0)
             && Grows(w.st, st) && |vars| <= |st|
             && (forall d :: |vars| <= d < |w.st| ==> st[d] == w.st[d])
    requires forall i :: 0 <= i < |vars| ==> st[i].value == IntV(slots[vars[i].idx])
    requires Narrowed(inputs, vars, lets, Program(inputs, fuel).st, link0, link) && c in link
    ensures CellRel(c, Program(inputs, fuel).st, st, link, Careless())
  {
    hide Program, RunTop, Replayed, TidyEnv, EnvRel, Stirred, VolatileAt, OwnLinks, LiveLinks, ClosuresTame, Exact;
    var p, w := Program(inputs, fuel), Replayed(inputs, |inputs|, vars, slots, lets, fuel);
    WholeIsPrefix(inputs);
    ProgramTidy(inputs, |inputs|, fuel);
    assert CellRel(c, p.st, w.st, link0, CareTo(inputs, |inputs|, Names(vars), lets));
    if link0[c] < |vars| {
      assert vars[link0[c]].name in p.env;
    } else {
      var v := p.st[c].value;
      assert TidyValue(v, p.st, LitsTo(inputs, |inputs|));
      if v.CloV? {
        RestoredScopeOf(inputs, vars, slots, lets, v, w.st[link0[c]].value, w, link0, link, fuel);
      }
    }
  }

  lemma RestoredScopeOf(inputs: seq<Input>, vars: seq<VarSlot>, slots: seq<Word>, lets: set<string>,
                        v: Value, v': Value, w: Top, link0: Link, link: Link, fuel: nat)
    requires Setting(inputs, |inputs|, vars, slots, lets, fuel)
    requires Rebuilt(inputs, |inputs|, vars, slots, lets, Program(inputs, fuel), w, link0)
    requires v.CloV? && TidyValue(v, Program(inputs, fuel).st, LitsTo(inputs, |inputs|))
    requires ValRel(v, v', link0, CareTo(inputs, |inputs|, Names(vars), lets))
    requires Narrowed(inputs, vars, lets, Program(inputs, fuel).st, link0, link)
    ensures ValRel(v, v', link, Careless())
  {
    hide Program, RunTop, StoreRel, TidyStore, SlotLinks, Setting, VolatileAt, OwnLinks, LiveLinks, LitsTo;
    forall y | y in v.env ensures v.env[y] in link {
      CapturedIsLinked(inputs, vars, slots, lets, v, y, w, link0, fuel);
    }
  }

  lemma RestoredScope(inputs: seq<Input>, vars: seq<VarSlot>, slots: seq<Word>, lets: set<string>,
                      w: Top, link0: Link, link: Link, fuel: nat)
    requires Setting(inputs, |inputs|, vars, slots, lets, fuel)
    requires Rebuilt(inputs, |inputs|, vars, slots, lets, Program(inputs, fuel), w, link0)
    requires Narrowed(inputs, vars, lets, Program(inputs, fuel).st, link0, link)
    ensures EnvRel(Program(inputs, fuel).env, w.env, link)
  {
    hide Program, RunTop, TidyStore, SlotLinks, Stirred, ChangedFrom, OwnLinks, LiveLinks, ClosuresTame, Exact, LitsTo;
    var p := Program(inputs, fuel);
    WholeIsPrefix(inputs);
    ProgramTidy(inputs, |inputs|, fuel);
    forall x | x in p.env ensures p.env[x] in link {
      assert Bound(x, p.env, p.st);
    }
  }

  /** A captured variable that may have changed is a slot variable, in its slot's cell. */
  lemma CapturedIsLinked(inputs: seq<Input>, vars: seq<VarSlot>, slots: seq<Word>, lets: set<string>,
                         v: Value, y: string, w: Top, link0: Link, fuel: nat)
    requires Setting(inputs, |inputs|, vars, slots, lets, fuel)
    requires Rebuilt(inputs, |inputs|, vars, slots, lets, Program(inputs, fuel), w, link0)
    requires v.CloV? && TidyValue(v, Program(inputs, fuel).st, LitsTo(inputs, |inputs|))
    requires y in v.env && v.env[y] in link0
    ensures var p := Program(inputs, fuel);
            && v.env[y] < |p.st|
            && (p.st[v.env[y]].name !in VolatileAt(inputs, |inputs|, Names(vars), lets) || link0[v.env[y]] < |vars|)
  {
    hide Program, RunTop, TidyStore, SteadySlots, StoreRel, LiveLinks, Exact;
    var p := Program(inputs, fuel);
    assert Bound(y, v.env, p.st);
    if y in VolatileAt(inputs, |inputs|, Names(vars), lets) {
      var i :| 0 <= i < |inputs| && IsLit(v.lambda, CodeAt(inputs, i));
      assert Captures(v.lambda, y) && y in VolatileAt(inputs, 0, Names(vars), lets);
      assert !Touched(inputs, y, Declaring) && p.env[y] == v.env[y];
      var j :| 0 <= j < |vars| && vars[j].name == y;
      assert link0[p.env[y]] == w.env[y] == j;
    }
  }

  // ---------------------------------------------------------------------------------------
  // The user's statement, the stores and the tail.
  // ---------------------------------------------------------------------------------------

  /** The value the once-through program would display for its last input. */
  function Shown(inp: Input, p: Top): Value
    requires p.Going?
  {
    if inp.LetIn? then
      if inp.name in p.env && p.env[inp.name] < |p.st| then p.st[p.env[inp.name]].value else UnitV
    else p.value
  }

  /** Two values print alike. */
  predicate Alike(v: Value, w: Value) {
    v == w || (v.CloV? && w.CloV? && v.lambda == w.lambda)
  }

  /** From corresponding states, the user's statements do in the wrapper what the input does in the
      program. */
  lemma UserSim(inp: Input, p: Top, q: Top, r: Outcome, m: Machine, link: Link, fuel: nat) returns (link': Link)
    requires p.Going? && r == ExecStmt(StmtOf(inp), p.env, p.st, false, fuel) && r.Done?
    requires q == Going(EnvAfter(StmtOf(inp), p.env, r.store), r.store, r.value, p.out + r.out)
    requires EnvRel(p.env, m.env, link) && StoreRel(p.st, m.st, link, Careless())
    ensures var t := RunTop(UserStmts(inp), m.env, m.st, false, fuel);
            && t.Going? && t.out == r.out && Alike(Shown(inp, q), t.value)
            && EnvRel(q.env, t.env, link') && StoreRel(q.st, t.st, link', Careless())
  {
    hide Stable, Calm, Eval, Grows;
    var s, ss := StmtOf(inp), UserStmts(inp);
    StableForNothing(Code(s));
    CarelessIsCalm();
    link' := SimStmt(s, p.env, p.st, m.env, m.st, link, Careless(), false, fuel);
    var r2 := ExecStmt(s, m.env, m.st, false, fuel);
    RunOne(s, m.env, m.st, fuel);
    if inp.LetIn? {
      assert ButLast(ss) == [s];
      var c := q.env[inp.name];
      assert c in link' && CellRel(c, q.st, r2.store, link', Careless());
      var env2 := EnvAfter(s, m.env, r2.store);
      assert Bound(inp.name, env2, r2.store);
      EvalIdent(inp.name, env2, r2.store, false, fuel);
      assert r2.out + [] == r2.out;
    } else {
      assert ss == [s];
    }
  }

  lemma EvalIdent(x: string, env: Env, st: Store, quiet: bool, fuel: nat)
    requires Bound(x, env, st)
    ensures Eval(Ident(x), env, st, quiet, fuel) == Done(st[env[x]].value, st, [])
  {
    assert EvalAll(Ident(x), 0, env, st, quiet, fuel) == All([], st, []);
  }

  /** Reading the tail name back gives the value it was bound to. */
  lemma ReadBack(x: string, m: Machine, fuel: nat)
    requires Bound(x, m.env, m.st)
    ensures RunW([Run(Expression(Ident(x)))], m, fuel) == WDone(m.st[m.env[x]].value, m, [])
  {
    EvalIdent(x, m.env, m.st, m.replaying, fuel);
  }

  /** The empty block a wrapper is made to end in. */
  lemma EndsInUnit(m: Machine, fuel: nat)
    ensures RunW([Run(Expression(Block([])))], m, fuel) == WDone(UnitV, m, [])
  {
    var e, none: seq<Stmt> := Block([]), [];
    assert ExecBlock(none, m.env, m.st, m.replaying, fuel) == Done(UnitV, m.st, []);
    assert Apply(e, [], m.env, m.st, m.replaying, fuel) == Done(UnitV, m.st, []);
    assert EvalAll(e, 0, m.env, m.st, m.replaying, fuel) == All([], m.st, []);
    assert Eval(e, m.env, m.st, m.replaying, fuel) == Done(UnitV, m.st, []);
    assert ExecStmt(Expression(e), m.env, m.st, m.replaying, fuel) == Done(UnitV, m.st, []);
  }

  lemma RunOne(s: Stmt, env: Env, st: Store, fuel: nat)
    ensures var t, r := RunTop([s], env, st, false, fuel), ExecStmt(s, env, st, false, fuel);
            r.Done? ==> t == Going(EnvAfter(s, env, r.store), r.store, r.value, r.out)
  {
    assert ButLast([s]) == [];
    var r := ExecStmt(s, env, st, false, fuel);
    if r.Done? { assert [] + r.out == r.out; }
  }

  /** The wrapper's final machine and value, given how the user's statements run after the prefix. */
  ghost predicate Finished(r: WOutcome, vars: seq<VarSlot>, slots: seq<Word>, t: Top, value: Value)
    requires t.Going?
  {
    && r.WDone? && r.value == value && r.out == t.out && !r.m.replaying && |r.m.slots| == |slots|
    && Stored(vars, r.m.slots, t.env, t.st)
  }

  /** Whatever shape the tail takes, the user's code runs once, every slot is stored after it, and
      the value is the user's, or unit if a `return` appears anywhere. */
  lemma BodyRuns(vars: seq<VarSlot>, replay: seq<Stmt>, inp: Input, m0: Machine, m: Machine, fuel: nat)
    requires GoodVars(vars, m.slots) && TAIL !in Names(vars)
    requires var r := RunW(Prefix(vars, replay), m0, fuel); r.WDone? && r.m == m && r.out == []
    requires !m.replaying
    requires var t := RunTop(UserStmts(inp), m.env, m.st, false, fuel);
             t.Going? && SlotVariablesBound(vars, t.env, t.st)
    ensures var t := RunTop(UserStmts(inp), m.env, m.st, false, fuel);
            var hasReturn := BlockReaches(Returns, UserStmts(inp), Return) || BlockReaches(Returns, replay, Return);
            Finished(RunW(BuildBody(vars, replay, UserStmts(inp)), m0, fuel), vars, m.slots, t,
                     if hasReturn then UnitV else t.value)
  {
    var user := UserStmts(inp);
    var t := RunTop(user, m.env, m.st, false, fuel);
    var body := Prefix(vars, replay) + Codes(user);
    var m1 := m.(env := t.env, st := t.st);
    assert vars[..|vars|] == vars;
    CodesRun(user, m, fuel);
    RunWThen(Prefix(vars, replay), Codes(user), m0, m, fuel);
    assert RunW(body, m0, fuel) == WDone(t.value, m1, [] + t.out);
    ScanFindsReturnsInBlock(user);
    ScanFindsReturnsInBlock(replay);
    var hasReturn := BlockContainsReturn(user) || BlockContainsReturn(replay);
    assert Last(body) == Run(Last(user));
    if hasReturn {
      ReturnTail(vars, replay, inp, m0, m, fuel);
    } else if Stores(vars) != [] {
      KeptTail(vars, replay, inp, m0, m, fuel);
    } else {
      StoresOfNothing(vars, m.slots);
    }
  }

  lemma StoresOfNothing(vars: seq<VarSlot>, slots: seq<Word>)
    requires GoodVars(vars, slots) && Stores(vars) == []
    ensures vars == []
  {
  }

  lemma AllStoresRun(vars: seq<VarSlot>, m: Machine, fuel: nat)
    requires GoodVars(vars, m.slots) && SlotVariablesBound(vars, m.env, m.st)
    ensures var r := RunW(Stores(vars), m, fuel);
            && r.WDone? && r.out == [] && r.m == m.(slots := r.m.slots) && |r.m.slots| == |m.slots|
            && Stored(vars, r.m.slots, m.env, m.st)
  {
    StoresRun(vars, |vars|, m, fuel);
    assert vars[..|vars|] == vars;
  }

  /** Every slot variable is in scope and holds an `Int`. */
  ghost predicate SlotVariablesBound(vars: seq<VarSlot>, env: Env, st: Store) {
    forall i :: 0 <= i < |vars| ==> Bound(vars[i].name, env, st) && st[env[vars[i].name]].value.IntV?
  }

  /** Every slot holds its variable's value. */
  ghost predicate Stored(vars: seq<VarSlot>, slots: seq<Word>, env: Env, st: Store) {
    forall i :: 0 <= i < |vars| && vars[i].idx < |slots| ==>
      Bound(vars[i].name, env, st) && IntV(slots[vars[i].idx]) == st[env[vars[i].name]].value
  }

  /** Binding the tail name hides no slot variable. */
  lemma TailIsNoSlot(vars: seq<VarSlot>, env: Env, st: Store, v: Value)
    requires TAIL !in Names(vars) && SlotVariablesBound(vars, env, st)
    ensures SlotVariablesBound(vars, env[TAIL := |st|], Alloc(st, TAIL, v))
    ensures forall slots :: Stored(vars, slots, env[TAIL := |st|], Alloc(st, TAIL, v)) ==> Stored(vars, slots, env, st)
  {
    forall i | 0 <= i < |vars| ensures vars[i].name != TAIL {
      assert vars[i].name in Names(vars);
    }
  }

  /** Evaluating the tail, storing the slots, reading the tail back. */
  lemma TailThenStores(vars: seq<VarSlot>, e: Expr, m: Machine, fuel: nat)
    requires GoodVars(vars, m.slots) && TAIL !in Names(vars)
    requires var r := Eval(e, m.env, m.st, m.replaying, fuel); r.Done? && SlotVariablesBound(vars, m.env, r.store)
    ensures var r := Eval(e, m.env, m.st, m.replaying, fuel);
            var w := RunW([Run(Let(false, TAIL, e))] + (Stores(vars) + [Run(Expression(Ident(TAIL)))]), m, fuel);
            && w.WDone? && w.value == r.value && w.out == r.out && w.m.replaying == m.replaying
            && |w.m.slots| == |m.slots| && Stored(vars, w.m.slots, m.env, r.store)
  {
    hide RunW, Eval, Stored, SlotVariablesBound, GoodVars, Stores;
    var r := Eval(e, m.env, m.st, m.replaying, fuel);
    var read := [Run(Expression(Ident(TAIL)))];
    var m2 := m.(env := m.env[TAIL := |r.store|], st := Alloc(r.store, TAIL, r.value));
    RunSingle(Run(Let(false, TAIL, e)), m, fuel);
    TailIsNoSlot(vars, m.env, r.store, r.value);
    AllStoresRun(vars, m2, fuel);
    var m3 := RunW(Stores(vars), m2, fuel).m;
    ReadBack(TAIL, m3, fuel);
    RunWThen(Stores(vars), read, m2, m3, fuel);
    RunWThen([Run(Let(false, TAIL, e))], Stores(vars) + read, m, m2, fuel);
  }

  lemma LastStep(ss: seq<Stmt>, env: Env, st: Store, fuel: nat)
    requires ss != [] && Last(ss).Expression? && RunTop(ss, env, st, false, fuel).Going?
    ensures var f, t := RunTop(ButLast(ss), env, st, false, fuel), RunTop(ss, env, st, false, fuel);
            && f.Going?
            && var r := Eval(Last(ss).e, f.env, f.st, false, fuel);
               r.Done? && t == Going(f.env, r.store, r.value, f.out + r.out)
  {
  }

  /** The tail value is bound before the stores and read back after them. */
  lemma KeptTail(vars: seq<VarSlot>, replay: seq<Stmt>, inp: Input, m0: Machine, m: Machine, fuel: nat)
    requires GoodVars(vars, m.slots) && TAIL !in Names(vars)
    requires var r := RunW(Prefix(vars, replay), m0, fuel); r.WDone? && r.m == m && r.out == []
    requires !m.replaying
    requires var t := RunTop(UserStmts(inp), m.env, m.st, false, fuel);
             t.Going? && SlotVariablesBound(vars, t.env, t.st)
    ensures var t := RunTop(UserStmts(inp), m.env, m.st, false, fuel);
            Finished(RunW(KeepTail(Prefix(vars, replay) + Codes(UserStmts(inp)), Stores(vars)), m0, fuel),
                     vars, m.slots, t, t.value)
  {
    hide RunW, RunTop, Eval, Prefix, Stores, Stored, SlotVariablesBound, GoodVars;
    var user := UserStmts(inp);
    var e := Last(user).e;
    LastStep(user, m.env, m.st, fuel);
    var front := RunTop(ButLast(user), m.env, m.st, false, fuel);
    var a := Prefix(vars, replay) + Codes(ButLast(user));
    var m1 := m.(env := front.env, st := front.st);
    CodesRun(ButLast(user), m, fuel);
    RunWThen(Prefix(vars, replay), Codes(ButLast(user)), m0, m, fuel);
    TailThenStores(vars, e, m1, fuel);
    KeepTailForm(Prefix(vars, replay), user, Stores(vars));
    RunWThen(a, [Run(Let(false, TAIL, e))] + (Stores(vars) + [Run(Expression(Ident(TAIL)))]), m0, m1, fuel);
  }

  lemma KeepTailForm(pre: seq<WStmt>, user: seq<Stmt>, stores: seq<WStmt>)
    requires user != [] && Last(user).Expression?
    ensures KeepTail(pre + Codes(user), stores)
         == (pre + Codes(ButLast(user)))
            + ([Run(Let(false, TAIL, Last(user).e))] + (stores + [Run(Expression(Ident(TAIL)))]))
  {
    assert ButLast(pre + Codes(user)) == pre + Codes(ButLast(user));
  }

  /** A dropped display read would have changed nothing. */
  lemma DroppedRead(vars: seq<VarSlot>, replay: seq<Stmt>, inp: Input, m0: Machine, m: Machine, fuel: nat)
    requires var r := RunW(Prefix(vars, replay), m0, fuel); r.WDone? && r.m == m && r.out == []
    requires !m.replaying && RunTop(UserStmts(inp), m.env, m.st, false, fuel).Going?
    requires Last(UserStmts(inp)).e.Ident?
    ensures var t := RunTop(UserStmts(inp), m.env, m.st, false, fuel);
            var body := ButLast(Prefix(vars, replay) + Codes(UserStmts(inp))) + [Run(Expression(Block([])))];
            var r := RunW(body, m0, fuel);
            r == WDone(UnitV, m.(env := t.env, st := t.st), t.out)
  {
    var user, pre := UserStmts(inp), Prefix(vars, replay);
    LastStep(user, m.env, m.st, fuel);
    var front := RunTop(ButLast(user), m.env, m.st, false, fuel);
    var m1 := m.(env := front.env, st := front.st);
    assert ButLast(pre + Codes(user)) == pre + Codes(ButLast(user));
    CodesRun(ButLast(user), m, fuel);
    RunWThen(pre, Codes(ButLast(user)), m0, m, fuel);
    EndsInUnit(m1, fuel);
    RunWThen(pre + Codes(ButLast(user)), [Run(Expression(Block([])))], m0, m1, fuel);
    var x := Last(user).e.name;
    assert EvalAll(Ident(x), 0, front.env, front.st, false, fuel) == All([], front.st, []);
    EvalIdent(x, front.env, front.st, false, fuel);
    assert [] + front.out == front.out + [] == front.out;
  }

  /** With a `return` in sight the stores still happen, and the wrapper ends in unit. */
  lemma ReturnTail(vars: seq<VarSlot>, replay: seq<Stmt>, inp: Input, m0: Machine, m: Machine, fuel: nat)
    requires GoodVars(vars, m.slots)
    requires var r := RunW(Prefix(vars, replay), m0, fuel); r.WDone? && r.m == m && r.out == []
    requires !m.replaying
    requires var t := RunTop(UserStmts(inp), m.env, m.st, false, fuel);
             t.Going? && SlotVariablesBound(vars, t.env, t.st)
    ensures var t := RunTop(UserStmts(inp), m.env, m.st, false, fuel);
            var body := Prefix(vars, replay) + Codes(UserStmts(inp));
            Finished(RunW(EndInUnit(if Stores(vars) == [] then body else body + Stores(vars)), m0, fuel),
                     vars, m.slots, t, UnitV)
  {
    hide RunW, RunTop, GoodVars, SlotVariablesBound, Stores, Prefix;
    var user, pre := UserStmts(inp), Prefix(vars, replay);
    var unit := [Run(Expression(Block([])))];
    var t := RunTop(user, m.env, m.st, false, fuel);
    var m1 := m.(env := t.env, st := t.st);
    var after := Stores(vars) + unit;
    StoresThenUnit(vars, m1, fuel);
    CodesRun(user, m, fuel);
    RunWThen(pre, Codes(user), m0, m, fuel);
    assert [] + t.out == t.out == t.out + [];
    if Stores(vars) == [] {
      StoresOfNothing(vars, m.slots);
      if Last(user).e.Ident? {
        DroppedRead(vars, replay, inp, m0, m, fuel);
      } else {
        EndsInUnit(m1, fuel);
        RunWThen(pre + Codes(user), unit, m0, m1, fuel);
      }
    } else {
      StoresEndInStore(vars);
      assert Last(pre + Codes(user) + Stores(vars)) == Last(Stores(vars));
      assert pre + Codes(user) + Stores(vars) + unit == pre + Codes(user) + after;
      RunWThen(pre + Codes(user), after, m0, m1, fuel);
    }
  }

  lemma {:induction false} StoresEndInStore(vars: seq<VarSlot>)
    requires Stores(vars) != []
    ensures Last(Stores(vars)).SlotStore?
  {
    if !Last(vars).ty.Int? {
      assert Stores(vars) == Stores(ButLast(vars));
      StoresEndInStore(ButLast(vars));
    }
  }

  lemma StoresThenUnit(vars: seq<VarSlot>, m: Machine, fuel: nat)
    requires GoodVars(vars, m.slots) && SlotVariablesBound(vars, m.env, m.st)
    ensures var r := RunW(Stores(vars) + [Run(Expression(Block([])))], m, fuel);
            && r.WDone? && r.value == UnitV && r.out == [] && r.m == m.(slots := r.m.slots) && |r.m.slots| == |m.slots|
            && Stored(vars, r.m.slots, m.env, m.st)
  {
    hide RunW, Stored, SlotVariablesBound, GoodVars, Stores;
    AllStoresRun(vars, m, fuel);
    var m2 := RunW(Stores(vars), m, fuel).m;
    EndsInUnit(m2, fuel);
    RunWThen(Stores(vars), [Run(Expression(Block([])))], m, m2, fuel);
  }
}
