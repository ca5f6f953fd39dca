/** A `return` in the history: when none is written, no wrapper is ever left early; when one fires in a
    replay, the session is silent from then on. */
module ReplReturns {
  import opened Common
  import opened ReplSyntax
  import opened ReplSemantics
  import opened ReplSteps
  import opened ReplFrames
  import opened ReplSession
  import opened ReplKinds
  import opened ReplReplay
  import opened ReplRuns
  import opened ReplTheorems
  import opened ReplFaithful

  // ---------------------------------------------------------------------------------------
  // No `return`, no early end.
  // ---------------------------------------------------------------------------------------

  lemma {:induction false} ReturnSnoc(ss: seq<Stmt>, s: Stmt)
    ensures BlockContainsReturn(ss + [s]) <==> BlockContainsReturn(ss) || ContainsReturn(Code(s))
  {
    if ss == [] {
      assert ([] + [s])[1..] == [] && ([] + [s])[0] == s;
    } else {
      ReturnSnoc(ss[1..], s);
      assert (ss + [s])[1..] == ss[1..] + [s];
    }
  }

  /** Rewriting a history for replay adds no `return`. */
  lemma {:induction false} CollectsNoReturn(history: seq<Stmt>, names: set<string>, lets: set<string>)
    requires !BlockContainsReturn(history)
    ensures !BlockContainsReturn(CollectReplay(history, names, lets))
  {
    hide ContainsReturn, BlockContainsReturn, RewriteForReplay;
    if history == [] {
      NoneReturns();
    } else {
      var front, s := ButLast(history), Last(history);
      assert history == front + [s];
      ReturnSnoc(front, s);
      CollectsNoReturn(front, names, lets);
      var kept, ss := RewriteForReplay(s, names, lets), CollectReplay(front, names, lets);
      assert ss + [] == ss;
      if kept.Some? {
        KeptForm(s, names, lets);
        ReturnSnoc(ss, kept.value);
      }
    }
  }

  lemma NoneReturns()
    ensures !BlockContainsReturn([])
  {
  }

  lemma {:induction false} TopNeverEnds(ss: seq<Stmt>, env: Env, st: Store, quiet: bool, fuel: nat)
    requires !BlockContainsReturn(ss)
    ensures !RunTop(ss, env, st, quiet, fuel).Ended?
    decreases |ss|
  {
    hide ContainsReturn, BlockContainsReturn, Eval;
    if ss != [] {
      var front, s := ButLast(ss), Last(ss);
      assert ss == front + [s];
      ReturnSnoc(front, s);
      TopNeverEnds(front, env, st, quiet, fuel);
      var t := RunTop(front, env, st, quiet, fuel);
      if t.Going? { ScanSeesReturns(Code(s), t.env, t.st, quiet, fuel); }
    }
  }

  /** If no `return` was ever recorded, no replay of the history ends early. */
  lemma ReplayNeverEnds(history: seq<Stmt>, names: set<string>, lets: set<string>, env: Env, st: Store, fuel: nat)
    requires !BlockContainsReturn(history)
    ensures !RunTop(CollectReplay(history, names, lets), env, st, true, fuel).Ended?
  {
    CollectsNoReturn(history, names, lets);
    TopNeverEnds(CollectReplay(history, names, lets), env, st, true, fuel);
  }

  /** No statement a wrapper runs contains a `return`. */
  ghost predicate Returnless(ws: seq<WStmt>) {
    forall i :: 0 <= i < |ws| && ws[i].Run? ==> !ContainsReturn(Code(ws[i].stmt))
  }

  lemma {:induction false} NeverExits(ws: seq<WStmt>, m: Machine, fuel: nat)
    requires Returnless(ws)
    ensures !RunW(ws, m, fuel).WExit?
    decreases |ws|
  {
    if ws != [] {
      if ws[0].Run? { ScanSeesReturns(Code(ws[0].stmt), m.env, m.st, m.replaying, fuel); }
      var r := StepW(ws[0], m, fuel);
      if r.WDone? && |ws| > 1 {
        assert Returnless(ws[1..]);
        NeverExits(ws[1..], r.m, fuel);
      }
    }
  }

  lemma {:induction false} CodesReturnless(ss: seq<Stmt>)
    requires !BlockContainsReturn(ss)
    ensures Returnless(Codes(ss))
  {
    if ss != [] {
      CodesReturnless(ss[1..]);
      assert forall i :: 0 < i < |ss| ==> Codes(ss)[i] == Codes(ss[1..])[i - 1];
    }
  }

  lemma {:induction false} SlotCodeReturnless(vars: seq<VarSlot>, replay: seq<Stmt>)
    ensures Returnless(Loads(vars)) && Returnless(Refreshes(vars, replay)) && Returnless(Stores(vars))
  {
    if vars != [] { SlotCodeReturnless(ButLast(vars), replay); }
  }

  lemma ReturnlessJoin(a: seq<WStmt>, b: seq<WStmt>)
    requires Returnless(a) && Returnless(b)
    ensures Returnless(a + b)
  {
  }

  lemma BodyReturnless(vars: seq<VarSlot>, replay: seq<Stmt>, user: seq<Stmt>)
    requires !BlockContainsReturn(replay) && !BlockContainsReturn(user)
    ensures Returnless(BuildBody(vars, replay, user))
  {
    hide ContainsReturn, BlockContainsReturn, BlockMutatesSlot;
    SlotCodeReturnless(vars, replay);
    CodesReturnless(replay);
    CodesReturnless(user);
    ReturnlessJoin(Prefix(vars, replay), Codes(user));
    var body := Prefix(vars, replay) + Codes(user);
    TailReturnless(body, Stores(vars));
  }

  lemma TailReturnless(body: seq<WStmt>, stores: seq<WStmt>)
    requires Returnless(body) && Returnless(stores)
    ensures Returnless(KeepTail(body, stores))
  {
    if body != [] && IsExpression(Last(body)) {
      var tail := Run(Let(false, TAIL, Last(body).stmt.e));
      assert Returnless([tail]) && Returnless([Run(Expression(Ident(TAIL)))]) && Returnless(ButLast(body));
    }
  }

  /** So a session in which no `return` was entered never leaves a wrapper early. */
  lemma StepNeverLeaves(s: Sess, inp: Input, fuel: nat)
    requires !BlockContainsReturn(s.history) && !BlockContainsReturn(UserStmts(inp))
    ensures !Step(s, inp, fuel).EarlyExit?
  {
    hide RunW, BuildBody, CollectReplay, Probe, BlockContainsReturn;
    var vars := Probe(s.vars, inp);
    CollectsNoReturn(s.history, Names(vars), LetNames(s.lets));
    BodyReturnless(vars, CollectReplay(s.history, Names(vars), LetNames(s.lets)), UserStmts(inp));
    NeverExits(WrapperFor(s, inp), Machine(map[], [], s.slots, s.replaying), fuel);
  }

  // ---------------------------------------------------------------------------------------
  // A `return` that fires in the replay region.
  // ---------------------------------------------------------------------------------------

  ghost predicate ReplayReturns(s: Sess, fuel: nat) {
    && GoodVars(s.vars, s.slots)
    && RunTop(CollectReplay(s.history, Names(s.vars), LetNames(s.lets)),
              LoadedEnv(s.vars), LoadedStore(s.vars, s.slots), true, fuel).Ended?
  }

  /** Left early, with nothing printed, no slot stored, and the flag up. */
  ghost predicate LeavesSilently(s: Sess, r: StepResult) {
    r.EarlyExit? && r.out == [] && r.s.slots == s.slots && r.s.replaying
  }

  /** The wrapper is left there and then: nothing is printed, no slot is stored, and the
      suppression flag stays up. */
  lemma ReplayedReturnSilences(s: Sess, e: Expr, fuel: nat)
    requires ReplayReturns(s, fuel)
    ensures LeavesSilently(s, Step(s, ExprIn(e), fuel))
  {
    var replay := CollectReplay(s.history, Names(s.vars), LetNames(s.lets));
    var m0 := Machine(map[], [], s.slots, s.replaying);
    var m1 := Machine(LoadedEnv(s.vars), LoadedStore(s.vars, s.slots), s.slots, s.replaying);
    var on := m1.(replaying := true);
    LoadsRun(s.vars, s.slots, s.replaying, fuel);
    var body := WrapperFor(s, ExprIn(e));
    var rest := BodyAfterReplay(s.vars, replay, [Expression(e)]);
    RunWAppend(Loads(s.vars), [SetReplaying(true)] + (Codes(replay) + rest), m0, fuel);
    RunWAppend([SetReplaying(true)], Codes(replay) + rest, m1, fuel);
    RunWAppend(Codes(replay), rest, on, fuel);
    CodesReturn(replay, on, fuel);
  }

  /** What comes before the end of the replayed statements in a wrapper. */
  function HeadOf(vars: seq<VarSlot>, replay: seq<Stmt>): seq<WStmt> {
    Loads(vars) + ([SetReplaying(true)] + Codes(replay))
  }

  lemma PrefixStartsWithHead(vars: seq<VarSlot>, replay: seq<Stmt>, user: seq<Stmt>)
    requires replay != []
    ensures HeadOf(vars, replay) <= Prefix(vars, replay) + Codes(user)
    ensures |HeadOf(vars, replay)| < |Prefix(vars, replay) + Codes(user)|
  {
    hide Loads, Codes, Refreshes;
    var head, rest := HeadOf(vars, replay), [SetReplaying(false)] + Refreshes(vars, replay);
    assert Prefix(vars, replay) == head + rest;
    assert Prefix(vars, replay) + Codes(user) == head + (rest + Codes(user));
  }

  /** What follows the replayed statements in a wrapper. */
  lemma BodyAfterReplay(vars: seq<VarSlot>, replay: seq<Stmt>, user: seq<Stmt>) returns (rest: seq<WStmt>)
    requires replay != []
    ensures rest != []
    ensures BuildBody(vars, replay, user) == Loads(vars) + ([SetReplaying(true)] + (Codes(replay) + rest))
  {
    var head := HeadOf(vars, replay);
    var body := Prefix(vars, replay) + Codes(user);
    PrefixStartsWithHead(vars, replay, user);
    var hasReturn := BlockContainsReturn(user) || BlockContainsReturn(replay);
    TailKeepsHead(head, body, Stores(vars));
    var stored := if Stores(vars) == [] then body
                  else if hasReturn then body + Stores(vars)
                  else KeepTail(body, Stores(vars));
    TailKeepsHead(head, stored, []);
    var full := BuildBody(vars, replay, user);
    rest := full[|head|..];
    Regroup(full, Loads(vars), [SetReplaying(true)], Codes(replay), rest);
  }

  lemma Regroup<T>(full: seq<T>, a: seq<T>, b: seq<T>, c: seq<T>, d: seq<T>)
    requires a + (b + c) <= full && d == full[|a + (b + c)|..]
    ensures full == a + (b + (c + d))
  {
    assert full == (a + (b + c)) + d;
  }

  /** The rewrites of a wrapper's tail leave what comes before its last statement alone. */
  lemma TailKeepsHead(head: seq<WStmt>, body: seq<WStmt>, stores: seq<WStmt>)
    requires head <= body && |head| < |body|
    ensures head <= KeepTail(body, stores) && |head| < |KeepTail(body, stores)|
    ensures head <= body + stores && |head| < |body + stores|
    ensures head <= EndInUnit(body) && |head| < |EndInUnit(body)|
  {
    assert head <= ButLast(body);
  }

  /** Plain code that returns makes the wrapper exit, with slots and flag as they were. */
  lemma {:induction false} CodesReturn(ss: seq<Stmt>, m: Machine, fuel: nat)
    requires RunTop(ss, m.env, m.st, m.replaying, fuel).Ended?
    ensures var r := RunW(Codes(ss), m, fuel);
            r.WExit? && r.m.slots == m.slots && r.m.replaying == m.replaying && (m.replaying ==> r.out == [])
  {
    if ss != [] {
      assert Codes(ss) == Codes(ButLast(ss)) + [Run(Last(ss))];
      RunWAppend(Codes(ButLast(ss)), [Run(Last(ss))], m, fuel);
      var t := RunTop(ButLast(ss), m.env, m.st, m.replaying, fuel);
      if t.Ended? {
        CodesReturn(ButLast(ss), m, fuel);
      } else {
        CodesRun(ButLast(ss), m, fuel);
      }
    }
  }

  /** The session after a list of expression inputs, following early exits too. */
  function After(s: Sess, es: seq<Expr>, fuel: nat): Option<(Sess, seq<Value>)> {
    if es == [] then Some((s, []))
    else
      match After(s, ButLast(es), fuel)
      case None => None
      case Some(t) =>
        match Step(t.0, ExprIn(Last(es)), fuel)
        case Next(s', _, o) => Some((s', t.1 + o))
        case EarlyExit(s', o) => Some((s', t.1 + o))
        case Stuck => None
  }

  /** The input is recorded all the same, and the next replay ends where this one did. */
  lemma ReturnsAgain(s: Sess, e: Expr, fuel: nat)
    requires ReplayReturns(s, fuel) && LeavesSilently(s, Step(s, ExprIn(e), fuel))
    ensures ReplayReturns(Step(s, ExprIn(e), fuel).s, fuel)
  {
    hide RunW, BuildBody, RunTop, LoadedEnv, LoadedStore, GoodVars, RewriteForReplay;
    var inp, names, lets := ExprIn(e), Names(s.vars), LetNames(s.lets);
    if IsRecorded(inp) {
      var h, ss := s.history + [StmtOf(inp)], CollectReplay(s.history, names, lets);
      assert ButLast(h) == s.history;
      var kept := RewriteForReplay(StmtOf(inp), names, lets);
      assert ss + [] == ss;
      if kept.Some? {
        RunTopSnoc(ss, kept.value, LoadedEnv(s.vars), LoadedStore(s.vars, s.slots), true, fuel);
      }
    }
  }

  /** Once a replayed `return` has fired, it fires in every later wrapper: whatever expressions are
      entered, none runs, nothing is ever printed again and no slot ever changes. */
  lemma {:induction false} ReturnInReplayIsForever(s: Sess, es: seq<Expr>, fuel: nat)
    requires ReplayReturns(s, fuel)
    ensures var t := After(s, es, fuel);
            t.Some? && t.value.1 == [] && t.value.0.slots == s.slots && ReplayReturns(t.value.0, fuel)
  {
    hide Step, ReplayReturns;
    if es != [] {
      ReturnInReplayIsForever(s, ButLast(es), fuel);
      var t := After(s, ButLast(es), fuel).value.0;
      ReplayedReturnSilences(t, Last(es), fuel);
      ReturnsAgain(t, Last(es), fuel);
    }
  }

  // ---------------------------------------------------------------------------------------
  // When a guarded `return` fires in the replay.
  // ---------------------------------------------------------------------------------------

  /** `if x == c { return }`. */
  function Guard(x: string, c: Word): Expr {
    If(Binary(Equal, Ident(x), IntLit(c)), [Expression(Return)], [])
  }

  lemma GuardRuns(x: string, c: Word, n: Word, env: Env, st: Store, quiet: bool, fuel: nat)
    requires Bound(x, env, st) && st[env[x]].value == IntV(n)
    ensures Eval(Guard(x, c), env, st, quiet, fuel) == if n == c then Returned(st, []) else Done(UnitV, st, [])
  {
    hide Eval, ExecBlock;
    var e := Guard(x, c);
    ConditionRuns(x, c, n, env, st, quiet, fuel);
    EvalUnary(e, env, st, quiet, fuel);
    BlockOfOne(Return, env, st, quiet, fuel);
    NoStatements(env, st, quiet, fuel);
    ReturnRuns(env, st, quiet, fuel);
  }

  lemma ConditionRuns(x: string, c: Word, n: Word, env: Env, st: Store, quiet: bool, fuel: nat)
    requires Bound(x, env, st) && st[env[x]].value == IntV(n)
    ensures Eval(Binary(Equal, Ident(x), IntLit(c)), env, st, quiet, fuel) == Done(BoolV(n == c), st, [])
  {
    hide Eval;
    EvalLeaf(Ident(x), env, st, quiet, fuel);
    EvalLeaf(IntLit(c), env, st, quiet, fuel);
    EvalBinary(Binary(Equal, Ident(x), IntLit(c)), env, st, quiet, fuel);
  }

  lemma ReturnRuns(env: Env, st: Store, quiet: bool, fuel: nat)
    ensures Eval(Return, env, st, quiet, fuel) == Returned(st, [])
  {
    assert EvalAll(Return, 0, env, st, quiet, fuel) == All([], st, []);
  }

  lemma NoStatements(env: Env, st: Store, quiet: bool, fuel: nat)
    ensures ExecBlock([], env, st, quiet, fuel) == Done(UnitV, st, [])
  {
  }

  /** Running two lists of statements one after the other. */
  lemma {:induction false} RunTopJoin(a: seq<Stmt>, b: seq<Stmt>, env: Env, st: Store, quiet: bool, fuel: nat)
    ensures var t, r := RunTop(a, env, st, quiet, fuel), RunTop(a + b, env, st, quiet, fuel);
            && (t.Ended? ==> r.Ended?)
            && (t.Broken? ==> r.Broken?)
            && (t.Going? ==> (r.Ended? <==> RunTop(b, t.env, t.st, quiet, fuel).Ended?))
            && (t.Going? ==> (r.Going? <==> RunTop(b, t.env, t.st, quiet, fuel).Going?))
            && (r.Going? ==> var u := RunTop(b, t.env, t.st, quiet, fuel); r.env == u.env && r.st == u.st)
    decreases |b|
  {
    hide ExecStmt;
    if b == [] {
      assert a + b == a;
    } else {
      RunTopJoin(a, ButLast(b), env, st, quiet, fuel);
      assert ButLast(a + b) == a + ButLast(b) && Last(a + b) == Last(b);
    }
  }

  /** Statements that declare no `x` leave it bound to its cell. */
  lemma {:induction false} TopKeepsBinding(ss: seq<Stmt>, env: Env, st: Store, quiet: bool, fuel: nat, x: string)
    requires x in env && forall i :: 0 <= i < |ss| && ss[i].Let? ==> ss[i].name != x
    requires RunTop(ss, env, st, quiet, fuel).Going?
    ensures var t := RunTop(ss, env, st, quiet, fuel); x in t.env && t.env[x] == env[x]
  {
    hide ExecStmt;
    if ss != [] {
      TopKeepsBinding(ButLast(ss), env, st, quiet, fuel, x);
      assert ss[|ss| - 1] == Last(ss);
    }
  }

  /** Code that changes no slot variable `x`, then a guarded `return`, then code without a `return`: the
      replay ends early exactly if the slot has the guard's value. */
  lemma GuardedReplayEndsIff(vars: seq<VarSlot>, slots: seq<Word>, before: seq<Stmt>, i: nat, c: Word, after: seq<Stmt>,
                             fuel: nat)
    requires GoodVars(vars, slots) && i < |vars|
    requires RunTop(before, LoadedEnv(vars), LoadedStore(vars, slots), true, fuel).Going?
    requires Unassigned(before, vars[i].name) && !BlockContainsReturn(after)
    requires forall j :: 0 <= j < |before| && before[j].Let? ==> before[j].name != vars[i].name
    ensures var replay := before + [Expression(Guard(vars[i].name, c))] + after;
            RunTop(replay, LoadedEnv(vars), LoadedStore(vars, slots), true, fuel).Ended? <==> slots[vars[i].idx] == c
  {
    hide RunTop, Eval, Guard, BlockContainsReturn, Unassigned;
    var x, env, st := vars[i].name, LoadedEnv(vars), LoadedStore(vars, slots);
    var t := RunTop(before, env, st, true, fuel);
    var guard := Expression(Guard(x, c));
    LoadedEnvAt(vars);
    TopKeepsBinding(before, env, st, true, fuel, x);
    UnassignedStays(before, env, st, true, fuel, x);
    assert t.st[i] == st[i];
    GuardRuns(x, c, slots[vars[i].idx], t.env, t.st, true, fuel);
    RunTopSnoc(before, guard, env, st, true, fuel);
    RunTopJoin(before + [guard], after, env, st, true, fuel);
    if slots[vars[i].idx] != c { TopNeverEnds(after, t.env, t.st, true, fuel); }
  }

  ghost predicate DeclaresNone(ss: seq<Stmt>, names: set<string>) {
    forall i :: 0 <= i < |ss| && ss[i].Let? ==> ss[i].name !in names
  }

  lemma {:induction false} NoSlotDeclared(history: seq<Stmt>, names: set<string>, lets: set<string>)
    ensures DeclaresNone(CollectReplay(history, names, lets), names)
  {
    hide RewriteForReplay;
    if history != [] {
      NoSlotDeclared(ButLast(history), names, lets);
      var ss, kept := CollectReplay(ButLast(history), names, lets), RewriteForReplay(Last(history), names, lets);
      if kept.Some? {
        KeptForm(Last(history), names, lets);
        assert DeclaresNone(ss + [kept.value], names);
      } else {
        assert ss + [] == ss;
      }
    }
  }

  /** The same for a session: after a history that has a guarded `return` on a slot variable which the
      replay before it does not assign, and none after it, every wrapper is left early in its replay
      exactly if the variable's slot has the guard's value. */
  lemma GuardedSessionEndsIff(s: Sess, h1: seq<Stmt>, i: nat, c: Word, h2: seq<Stmt>, fuel: nat)
    requires GoodVars(s.vars, s.slots) && i < |s.vars|
    requires s.history == h1 + [Expression(Guard(s.vars[i].name, c))] + h2 && !BlockContainsReturn(h2)
    requires var before := CollectReplay(h1, Names(s.vars), LetNames(s.lets));
             && Unassigned(before, s.vars[i].name)
             && RunTop(before, LoadedEnv(s.vars), LoadedStore(s.vars, s.slots), true, fuel).Going?
    ensures ReplayReturns(s, fuel) <==> s.slots[s.vars[i].idx] == c
  {
    hide RunTop, BlockContainsReturn, Unassigned, GoodVars, LoadedStore, LoadedEnv;
    var names, lets := Names(s.vars), LetNames(s.lets);
    var guard := Expression(Guard(s.vars[i].name, c));
    var before, after := CollectReplay(h1, names, lets), CollectReplay(h2, names, lets);
    CollectJoin(h1 + [guard], h2, names, lets);
    CollectJoin(h1, [guard], names, lets);
    CollectOne(guard, names, lets);
    CollectsNoReturn(h2, names, lets);
    NoSlotDeclared(h1, names, lets);
    assert s.vars[i].name in names;
    GuardedReplayEndsIff(s.vars, s.slots, before, i, c, after, fuel);
  }

  lemma CollectOne(s: Stmt, names: set<string>, lets: set<string>)
    requires s.Expression? && !s.e.Assign? && !s.e.CompoundAssign?
    ensures CollectReplay([s], names, lets) == [s]
  {
    assert ButLast([s]) == [];
  }

  // ---------------------------------------------------------------------------------------
  // Sessions that get there.
  // ---------------------------------------------------------------------------------------

  lemma GuardIsPlain(x: string, c: Word, y: string, t: Touch)
    ensures LitFree(Guard(x, c)) && !Writes(Guard(x, c), y, t)
  {
    hide Writes, BlockWrites, IsLit, BlockHasLit;
    var e := Guard(x, c);
    LeafIsPlain(Ident(x), y, t);
    LeafIsPlain(IntLit(c), y, t);
    BinaryIsPlain(e.cond, y, t);
    ReturnIsPlain(y, t);
    GuardParts(x, c, y, t);
  }

  lemma GuardParts(x: string, c: Word, y: string, t: Touch)
    ensures var e := Guard(x, c);
            && (Writes(e, y, t) ==> Writes(e.cond, y, t) || BlockWrites([Expression(Return)], y, t))
            && forall l :: IsLit(l, e) ==> IsLit(l, e.cond) || BlockHasLit(l, [Expression(Return)])
  {
    assert Bodies(Guard(x, c)) == [[Expression(Return)], []];
  }

  lemma ReturnIsPlain(y: string, t: Touch)
    ensures !BlockWrites([Expression(Return)], y, t) && forall l :: !BlockHasLit(l, [Expression(Return)])
  {
    LeafIsPlain(Return, y, t);
    OneWrites(Return, y, t);
    forall l ensures !BlockHasLit(l, [Expression(Return)]) {
      OneHasLit(Return, l);
    }
  }

  function LetN(a: Word): Input {
    LetIn(true, "n", IntLit(a), true)
  }

  /** `let n = a`, `if n == c { return }`, `n = d`. */
  function Guarded(a: Word, c: Word, d: Word): seq<Input> {
    [LetN(a), ExprIn(Guard("n", c)), ExprIn(Assign("n", IntLit(d)))]
  }

  function JustN(n: Word): Store {
    [Cell("n", IntV(n))]
  }

  lemma GuardedForm(a: Word, c: Word, d: Word)
    ensures var inputs := Guarded(a, c, d);
            && |inputs| == 3 && inputs[..0] == [] && inputs[..1] == [LetN(a)]
            && inputs[..2] == inputs[..1] + [inputs[1]]
            && inputs[0] == LetN(a) && inputs[1] == ExprIn(Guard("n", c)) && inputs[2] == ExprIn(Assign("n", IntLit(d)))
            && inputs == inputs[..2] + [inputs[2]]
  {
  }

  lemma LetNRuns(a: Word, fuel: nat)
    ensures Program([LetN(a)], fuel) == Going(map["n" := 0], JustN(a), UnitV, [])
  {
    hide Program, Eval;
    NothingPrinted([], fuel);
    ProgramStart([], fuel);
    EvalLeaf(IntLit(a), map[], [], false, fuel);
    ProgramGoes([], LetN(a), fuel);
    assert [] + [LetN(a)] == [LetN(a)];
  }

  lemma GuardedProgram(a: Word, c: Word, d: Word, fuel: nat)
    requires a != c
    ensures var inputs := Guarded(a, c, d);
            && Program(inputs[..1], fuel) == Going(map["n" := 0], JustN(a), UnitV, [])
            && Program(inputs[..2], fuel).Going?
            && (var q := Program(inputs, fuel); q.Going? && q.env == map["n" := 0] && q.st == JustN(d))
  {
    hide Program, Eval, Guarded, Guard;
    var inputs := Guarded(a, c, d);
    GuardedForm(a, c, d);
    LetNRuns(a, fuel);
    GuardRuns("n", c, a, map["n" := 0], JustN(a), false, fuel);
    ProgramGoes(inputs[..1], inputs[1], fuel);
    EvalLeaf(IntLit(d), map["n" := 0], JustN(a), false, fuel);
    EvalUnary(inputs[2].expr, map["n" := 0], JustN(a), false, fuel);
    assert JustN(a)[0 := Cell("n", IntV(d))] == JustN(d);
    ProgramGoes(inputs[..2], inputs[2], fuel);
  }

  /** The slot table of these sessions. */
  function SlotN(): seq<VarSlot> {
    [VarSlot("n", Int, 0, true)]
  }

  lemma NamesN()
    ensures Names(SlotN()) == {"n"} && Position(SlotN(), "n") == 0
  {
    assert SlotN()[0].name == "n";
  }

  lemma TableN(a: Word, rest: seq<Input>)
    requires forall i :: 0 <= i < |rest| ==> rest[i].ExprIn?
    ensures Probe([], LetN(a)) == SlotN() && Table([]) == [] && Table([LetN(a)] + rest) == SlotN()
  {
    NamesN();
    if rest == [] {
      assert [LetN(a)] + rest == [LetN(a)] && ButLast([LetN(a)]) == [];
      assert Register(SlotN(), "n", Int, true).0 == SlotN();
      assert Tabled([], LetN(a)) == SlotN();
    } else {
      TableN(a, ButLast(rest));
      assert ButLast([LetN(a)] + rest) == [LetN(a)] + ButLast(rest) && Last([LetN(a)] + rest) == Last(rest);
    }
  }

  /** A history of `let n = a` and a guard. */
  ghost predicate IsGuarded(front: seq<Input>, a: Word, c: Word) {
    front == [LetN(a)] || front == [LetN(a), ExprIn(Guard("n", c))]
  }

  lemma GuardedIsSteadfast(front: seq<Input>, a: Word, c: Word, fuel: nat)
    requires IsGuarded(front, a, c)
    ensures Steadfast(front, {"n"}, LetSet(front), fuel) && Transparent(front, {"n"})
  {
    hide Program, Guard, Faithful;
    forall x, t ensures LitFree(IntLit(a)) && (Writes(IntLit(a), x, t) <==> WritesHere(IntLit(a), x, t)) {
      LeafIsPlain(IntLit(a), x, t);
    }
    forall x, t ensures LitFree(Guard("n", c)) && !Writes(Guard("n", c), x, t) {
      GuardIsPlain("n", c, x, t);
    }
    LeafIsPlain(IntLit(a), "n", Mutating);
    GuardIsPlain("n", c, "n", Mutating);
    forall i | 0 <= i < |front| ensures LitFree(CodeAt(front, i)) {
    }
    if |front| == 2 {
      forall j | 1 <= j < |front| ensures j == 1 && !Writes(CodeAt(front, j), "n", Mutating) {
      }
      IsAnIf("n", c);
      assert VolatileAt(front, 1, {"n"}, LetSet(front)) == iset{};
      NothingVolatileIsFaithful(front, 1, {"n"}, LetSet(front));
    }
  }

  lemma IsAnIf(x: string, c: Word)
    ensures Guard(x, c).If?
  {
  }

  lemma LetNIsSteady(a: Word, fuel: nat)
    ensures SteadyAt([], LetN(a), fuel)
  {
    hide Program, Steadfast, Transparent;
    LetNRuns(a, fuel);
    NamesN();
    TableN(a, []);
    NothingIsSteadfast({"n"}, fuel);
    assert [] + [LetN(a)] == [LetN(a)];
  }

  lemma GuardedSteadyAt(front: seq<Input>, a: Word, c: Word, inp: Input, fuel: nat)
    requires IsGuarded(front, a, c) && inp.ExprIn?
    ensures SteadyAt(front, inp, fuel)
  {
    hide Program, Guard, Steadfast, Transparent;
    NamesN();
    TableN(a, front[1..]);
    assert front == [LetN(a)] + front[1..];
    GuardedIsSteadfast(front, a, c, fuel);
  }

  lemma GuardedIsSteady(a: Word, c: Word, d: Word, fuel: nat)
    ensures Steady(Guarded(a, c, d), fuel)
  {
    hide Guarded, Guard, SteadyAt;
    var inputs := Guarded(a, c, d);
    GuardedForm(a, c, d);
    LetNIsSteady(a, fuel);
    GuardedSteadyAt(inputs[..1], a, c, inputs[1], fuel);
    GuardedSteadyAt(inputs[..2], a, c, inputs[2], fuel);
  }

  lemma NothingIsSteadfast(names: set<string>, fuel: nat)
    ensures Steadfast([], names, LetSet([]), fuel) && Transparent([], names)
  {
  }

  /** `let n = a`, `if n == c { return }` with another value, then `n = d`: every later wrapper is left in
      its replay exactly if `d` is the guard's value. */
  lemma GuardedRun(a: Word, c: Word, d: Word, fuel: nat)
    requires a != c
    ensures Session(Guarded(a, c, d), fuel).Some?
    ensures ReplayReturns(Session(Guarded(a, c, d), fuel).value.0, fuel) <==> d == c
  {
    hide Program, Guarded, Guard, Session, Steady, Synced, ShowsAt, ReplayReturns;
    var inputs := Guarded(a, c, d);
    GuardedProgram(a, c, d, fuel);
    GuardedIsSteady(a, c, d, fuel);
    SteadySessionIsOnceThrough(inputs, fuel);
    GuardedState(a, c, d, Session(inputs, fuel).value.0, fuel);
  }

  lemma GuardedState(a: Word, c: Word, d: Word, s: Sess, fuel: nat)
    requires Synced(Guarded(a, c, d), s, fuel)
    requires var q := Program(Guarded(a, c, d), fuel); q.Going? && q.env == map["n" := 0] && q.st == JustN(d)
    ensures ReplayReturns(s, fuel) <==> d == c
  {
    hide Program, Guarded, Guard, ReplayReturns, BlockContainsReturn, RunTop;
    GuardedForm(a, c, d);
    var inputs := Guarded(a, c, d);
    TableN(a, inputs[1..]);
    assert inputs == [LetN(a)] + inputs[1..];
    NamesN();
    GuardedHistory(a, c, d);
    NothingBefore(a, LetNames(s.lets), LoadedEnv(s.vars), LoadedStore(s.vars, s.slots), fuel);
    GuardedSessionEndsIff(s, [Let(true, "n", IntLit(a))], 0, c, [Expression(Assign("n", IntLit(d)))], fuel);
  }

  lemma GuardedHistory(a: Word, c: Word, d: Word)
    ensures Recorded(Guarded(a, c, d))
         == [Let(true, "n", IntLit(a))] + [Expression(Guard("n", c))] + [Expression(Assign("n", IntLit(d)))]
    ensures !BlockContainsReturn([Expression(Assign("n", IntLit(d)))])
  {
    var inputs := Guarded(a, c, d);
    assert ButLast(inputs) == inputs[..2] && ButLast(inputs[..2]) == inputs[..1] && ButLast(inputs[..1]) == [];
    assert Recorded(inputs[..1]) == [Let(true, "n", IntLit(a))];
    assert Recorded(inputs[..2]) == [Let(true, "n", IntLit(a))] + [Expression(Guard("n", c))];
    assert Last(inputs) == inputs[2] && IsRecorded(inputs[2]);
    var b := [Expression(Assign("n", IntLit(d)))];
    assert b[1..] == [] && !ContainsReturn(Code(b[0]));
  }

  lemma NothingBefore(a: Word, lets: set<string>, env: Env, st: Store, fuel: nat)
    ensures var before := CollectReplay([Let(true, "n", IntLit(a))], {"n"}, lets);
            before == [] && Unassigned(before, "n") && RunTop(before, env, st, true, fuel).Going?
  {
    assert ButLast([Let(true, "n", IntLit(a))]) == [];
  }

  /** An input that contains a `return`, in its wrapper. */
  lemma ReturningBody(vars: seq<VarSlot>, replay: seq<Stmt>, e: Expr)
    requires e.If? && ContainsReturn(e)
    ensures BuildBody(vars, replay, [Expression(e)])
         == Prefix(vars, replay) + ([Run(Expression(e))] + (Stores(vars) + [Run(Expression(Block([])))]))
  {
    hide Prefix, Stores;
    var pre, user, stores := Prefix(vars, replay), Run(Expression(e)), Stores(vars);
    assert Codes([Expression(e)]) == [user] && BlockContainsReturn([Expression(e)]);
    if stores == [] {
      assert Last(pre + [user]) == user;
    } else {
      StoresEndInStore(vars);
      assert Last(pre + [user] + stores) == Last(stores);
    }
  }

  /** If it does return, the wrapper is left there, with the slots as they were. */
  lemma UserReturns(vars: seq<VarSlot>, replay: seq<Stmt>, e: Expr, m0: Machine, m: Machine, fuel: nat)
    requires var r := RunW(Prefix(vars, replay), m0, fuel); r.WDone? && r.m == m
    requires Eval(e, m.env, m.st, m.replaying, fuel).Returned? && e.If? && ContainsReturn(e)
    ensures var r := RunW(BuildBody(vars, replay, [Expression(e)]), m0, fuel);
            r.WExit? && r.m.slots == m.slots && r.m.replaying == m.replaying
  {
    hide RunW, Eval, Prefix, Stores, BuildBody, ContainsReturn;
    var rest := Stores(vars) + [Run(Expression(Block([])))];
    ReturningBody(vars, replay, e);
    RunSingle(Run(Expression(e)), m, fuel);
    RunWAppend([Run(Expression(e))], rest, m, fuel);
    RunWAppend(Prefix(vars, replay), [Run(Expression(e))] + rest, m0, fuel);
  }

  /** `let n = c`, then `if n == c { return }`: the input that leaves is recorded too, and from then on the
      session is silent. */
  lemma ReturnIsRecorded(c: Word, fuel: nat)
    ensures Session([LetN(c)], fuel).Some?
    ensures var r := Step(Session([LetN(c)], fuel).value.0, ExprIn(Guard("n", c)), fuel);
            r.EarlyExit? && ReplayReturns(r.s, fuel)
  {
    hide Program, Guard, Session, Steady, Synced, ShowsAt, ReplayReturns, Step;
    var inputs := [LetN(c)];
    LetNRuns(c, fuel);
    LetNIsSteady(c, fuel);
    assert Steady(inputs, fuel) by { OneIsSteady(LetN(c), fuel); }
    SteadySessionIsOnceThrough(inputs, fuel);
    RecordedReturn(c, Session(inputs, fuel).value.0, fuel);
  }

  lemma OneIsSteady(inp: Input, fuel: nat)
    requires SteadyAt([], inp, fuel)
    ensures Steady([inp], fuel)
  {
    hide SteadyAt;
    assert [inp][..0] == [];
  }

  lemma RecordedReturn(c: Word, s: Sess, fuel: nat)
    requires Synced([LetN(c)], s, fuel) && Program([LetN(c)], fuel) == Going(map["n" := 0], JustN(c), UnitV, [])
    ensures var r := Step(s, ExprIn(Guard("n", c)), fuel); r.EarlyExit? && ReplayReturns(r.s, fuel)
  {
    hide Program, Guard, RunW, RunTop, BuildBody, ReplayReturns, Eval, ContainsReturn, BlockContainsReturn, Unassigned,
         Table, CollectReplay;
    var inp, lets, m0 := ExprIn(Guard("n", c)), LetNames(s.lets), Machine(map[], [], s.slots, false);
    TableN(c, []);
    assert [LetN(c)] + [] == [LetN(c)];
    NamesN();
    RecordedLet(c);
    NothingBefore(c, lets, LoadedEnv(s.vars), LoadedStore(s.vars, s.slots), fuel);
    LoadsRun(s.vars, s.slots, false, fuel);
    PrefixOfNothing(s.vars);
    RegionOfNothing(s.vars);
    var m := m0.(env := LoadedEnv(s.vars), st := LoadedStore(s.vars, s.slots));
    LoadedEnvAt(s.vars);
    GuardRuns("n", c, c, m.env, m.st, false, fuel);
    GuardContains("n", c);
    UserReturns(s.vars, [], Guard("n", c), m0, m, fuel);
    var t := Step(s, inp, fuel).s;
    GuardedSessionEndsIff(t, [Let(true, "n", IntLit(c))], 0, c, [], fuel);
  }

  lemma GuardContains(x: string, c: Word)
    ensures Guard(x, c).If? && ContainsReturn(Guard(x, c)) && IsRecorded(ExprIn(Guard(x, c)))
    ensures !BlockContainsReturn([])
  {
    assert Code(Guard(x, c).thenBody[0]) == Return;
  }

  lemma RecordedLet(c: Word)
    ensures Recorded([LetN(c)]) == [Let(true, "n", IntLit(c))]
  {
    assert ButLast([LetN(c)]) == [];
  }

  lemma RegionOfNothing(vars: seq<VarSlot>)
    ensures Loads(vars) + Region([]) == Loads(vars)
  {
  }
}
