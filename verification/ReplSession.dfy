/** The REPL session: its slot table and recorded history, the wrapper it builds around each input,
    and the execution of that wrapper (`src/ruxen_repl/src/session.rs`, `.../eval.rs`). */
module ReplSession {
  import opened Common
  import opened ReplSyntax
  import opened ReplSemantics

  const REPL_MAX_SLOTS: nat := 256

  /** The name the wrapper binds the user's tail value to while slots are stored. */
  const TAIL: string := "__ruxen_repl_tail"

  datatype Ty = Int | Other

  datatype VarSlot = VarSlot(name: string, ty: Ty, idx: nat, mutable: bool)

  /** A statement of a wrapper body: replayed or user code, or one of the synthetic statements. */
  datatype WStmt =
    | SlotLoad(name: string, mutable: bool, idx: nat)
    | SetReplaying(on: bool)
    | Run(stmt: Stmt)
    | SlotRefresh(name: string, idx: nat)
    | SlotStore(idx: nat, name: string)

  /** An input that passed parsing and the checks. `isInt` is what type checking found about a
      `let`: is the bound value an `Int`? */
  datatype Input =
    | LetIn(mutable: bool, name: string, rhs: Expr, isInt: bool)
    | ExprIn(expr: Expr)

  /** The session's state as a value. */
  datatype Sess = Sess(vars: seq<VarSlot>, slots: seq<Word>, history: seq<Stmt>, lets: seq<Stmt>, replaying: bool)

  datatype StepResult =
    | Next(s: Sess, value: Value, out: seq<Value>)
    | EarlyExit(s: Sess, out: seq<Value>)
    | Stuck

  // ---------------------------------------------------------------------------------------
  // The slot table.
  // ---------------------------------------------------------------------------------------

  /** The first entry for `x`, or the table's length. */
  function Position(vars: seq<VarSlot>, x: string): (p: nat)
    ensures p <= |vars|
    ensures p < |vars| ==> vars[p].name == x
    ensures forall i :: 0 <= i < p ==> vars[i].name != x
  {
    if vars == [] || vars[0].name == x then 0 else 1 + Position(vars[1..], x)
  }

  function Names(vars: seq<VarSlot>): set<string> {
    set i | 0 <= i < |vars| :: vars[i].name
  }

  ghost predicate IndicesDistinct(vars: seq<VarSlot>) {
    forall i, j :: 0 <= i < j < |vars| ==> vars[i].idx != vars[j].idx
  }

  function LetNames(lets: seq<Stmt>): set<string> {
    set i | 0 <= i < |lets| && lets[i].Let? :: lets[i].name
  }

  /** `register_var`: an existing entry keeps its index, a new one gets the table's length. */
  function Register(vars: seq<VarSlot>, x: string, ty: Ty, mutable: bool): (seq<VarSlot>, Option<nat>) {
    var p := Position(vars, x);
    if p < |vars| then (vars[p := vars[p].(ty := ty, mutable := mutable)], Some(vars[p].idx))
    else if |vars| >= REPL_MAX_SLOTS then (vars, None)
    else (vars + [VarSlot(x, ty, |vars|, mutable)], Some(|vars|))
  }

  /** `unregister_var`. */
  function Unregister(vars: seq<VarSlot>, x: string): seq<VarSlot> {
    if vars == [] then []
    else Unregister(ButLast(vars), x) + (if Last(vars).name == x then [] else [Last(vars)])
  }

  /** Registering, with the place of the name given: an entry keeps its place and index, a new one goes to the end
      with the table's length, and the 257th is refused. */
  lemma RegisterIs(vars: seq<VarSlot>, x: string, ty: Ty, mutable: bool, p: nat)
    requires p <= |vars| && (forall i :: 0 <= i < p ==> vars[i].name != x) && (p < |vars| ==> vars[p].name == x)
    ensures Register(vars, x, ty, mutable) ==
            if p < |vars| then (vars[..p] + [VarSlot(x, ty, vars[p].idx, mutable)] + vars[p + 1..], Some(vars[p].idx))
            else if |vars| < 256 then (vars + [VarSlot(x, ty, |vars|, mutable)], Some(|vars|))
            else (vars, None)
  {
    assert Position(vars, x) == p;
    if p < |vars| {
      var v := VarSlot(x, ty, vars[p].idx, mutable);
      assert vars[p := v] == vars[..p] + [v] + vars[p + 1..];
    }
  }

  /** Unregistering goes entry by entry. */
  lemma {:induction false} UnregisterIs(a: seq<VarSlot>, b: seq<VarSlot>, v: VarSlot, x: string)
    ensures Unregister(a + b, x) == Unregister(a, x) + Unregister(b, x)
    ensures Unregister([v], x) == if v.name == x then [] else [v]
  {
    hide Unregister;
    UnregisterSnoc([], v, x);
    if b == [] {
      assert a + b == a && b + [v] == [v];
    } else {
      UnregisterIs(a, ButLast(b), v, x);
      assert a + b == (a + ButLast(b)) + [Last(b)] && b == ButLast(b) + [Last(b)];
      UnregisterSnoc(a + ButLast(b), Last(b), x);
      UnregisterSnoc(ButLast(b), Last(b), x);
    }
  }

  lemma UnregisterSnoc(vars: seq<VarSlot>, v: VarSlot, x: string)
    ensures Unregister(vars + [v], x) == Unregister(vars, x) + (if v.name == x then [] else [v])
    ensures Unregister([], x) == [] && [] + [v] == [v]
  {
    assert ButLast(vars + [v]) == vars && Last(vars + [v]) == v;
  }

  // ---------------------------------------------------------------------------------------
  // The wrapper.
  // ---------------------------------------------------------------------------------------

  /** `collect_replay_statements`. */
  function CollectReplay(history: seq<Stmt>, slotNames: set<string>, varNames: set<string>): seq<Stmt> {
    if history == [] then []
    else
      var kept := RewriteForReplay(Last(history), slotNames, varNames);
      CollectReplay(ButLast(history), slotNames, varNames) + (if kept.Some? then [kept.value] else [])
  }

  function Codes(ss: seq<Stmt>): seq<WStmt> {
    seq(|ss|, i requires 0 <= i < |ss| => Run(ss[i]))
  }

  /** Step (1): load every slot. */
  function Loads(vars: seq<VarSlot>): seq<WStmt> {
    if vars == [] then []
    else Loads(ButLast(vars)) +
         (var v := Last(vars); if v.ty.Int? then [SlotLoad(v.name, v.mutable, v.idx)] else [])
  }

  /** Step (2): the replay region, bracketed by the suppression flag. */
  function Region(replay: seq<Stmt>): seq<WStmt> {
    if replay == [] then [] else [SetReplaying(true)] + Codes(replay) + [SetReplaying(false)]
  }

  /** Step (3): refresh the slots the region may have changed. */
  function Refreshes(vars: seq<VarSlot>, replay: seq<Stmt>): seq<WStmt> {
    if vars == [] then []
    else Refreshes(ButLast(vars), replay) +
         (var v := Last(vars);
          if v.ty.Int? && BlockMutatesSlot(replay, v.name) then [SlotRefresh(v.name, v.idx)] else [])
  }

  /** Step (5): store every slot. */
  function Stores(vars: seq<VarSlot>): seq<WStmt> {
    if vars == [] then []
    else Stores(ButLast(vars)) +
         (var v := Last(vars); if v.ty.Int? then [SlotStore(v.idx, v.name)] else [])
  }

  predicate IsExpression(w: WStmt) {
    w.Run? && w.stmt.Expression?
  }

  /** Bind a final expression to the tail name, store, and read the tail back. */
  function KeepTail(body: seq<WStmt>, stores: seq<WStmt>): seq<WStmt> {
    if body != [] && IsExpression(Last(body)) then
      ButLast(body) + [Run(Let(false, TAIL, Last(body).stmt.e))] + stores + [Run(Expression(Ident(TAIL)))]
    else body + stores
  }

  /** With a `return` somewhere, the wrapper is made to end in a unit value. */
  function EndInUnit(body: seq<WStmt>): seq<WStmt> {
    (if body != [] && IsExpression(Last(body)) && Last(body).stmt.e.Ident? then ButLast(body) else body)
    + [Run(Expression(Block([])))]
  }

  /** Steps (1) to (3): everything before the user's own statements. */
  function Prefix(vars: seq<VarSlot>, replay: seq<Stmt>): seq<WStmt> {
    Loads(vars) + Region(replay) + (if replay == [] then [] else Refreshes(vars, replay))
  }

  /** Steps (4) and (5) and the tail, after the user's statements have been added to the body. */
  function Ending(body: seq<WStmt>, stores: seq<WStmt>, hasReturn: bool): seq<WStmt> {
    var stored := if stores == [] then body
                  else if hasReturn then body + stores
                  else KeepTail(body, stores);
    if hasReturn then EndInUnit(stored) else stored
  }

  /** `build_program`: the body of the wrapper. */
  function BuildBody(vars: seq<VarSlot>, replay: seq<Stmt>, user: seq<Stmt>): seq<WStmt> {
    Ending(Prefix(vars, replay) + Codes(user), Stores(vars), BlockContainsReturn(user) || BlockContainsReturn(replay))
  }

  ghost predicate IsLoaded(vars: seq<VarSlot>, w: WStmt) {
    exists v :: v in vars && v.ty.Int? && w == SlotLoad(v.name, v.mutable, v.idx)
  }

  ghost predicate IsStored(vars: seq<VarSlot>, w: WStmt) {
    exists v :: v in vars && v.ty.Int? && w == SlotStore(v.idx, v.name)
  }

  /** What is loaded and stored: every variable with a slot, with its own mutability and index. */
  lemma {:induction false} LoadsAndStoresAre(vars: seq<VarSlot>, w: WStmt)
    ensures w in Loads(vars) <==> IsLoaded(vars, w)
    ensures w in Stores(vars) <==> IsStored(vars, w)
  {
    if vars != [] {
      LoadsAndStoresAre(ButLast(vars), w);
      assert vars == ButLast(vars) + [Last(vars)];
    }
  }

  lemma {:induction false} StoresAreNone(vars: seq<VarSlot>)
    ensures Stores(vars) == [] <==> !exists v :: v in vars && v.ty.Int?
    ensures Stores(vars) != [] ==> !IsExpression(Last(Stores(vars)))
  {
    if vars != [] {
      StoresAreNone(ButLast(vars));
      assert vars == ButLast(vars) + [Last(vars)];
    }
  }

  /** What is replayed goes statement by statement. */
  lemma {:induction false} CollectJoin(a: seq<Stmt>, b: seq<Stmt>, names: set<string>, lets: set<string>)
    ensures CollectReplay(a + b, names, lets) == CollectReplay(a, names, lets) + CollectReplay(b, names, lets)
    decreases |b|
  {
    hide RewriteForReplay;
    if b == [] {
      assert a + b == a;
    } else {
      CollectJoin(a, ButLast(b), names, lets);
      assert ButLast(a + b) == a + ButLast(b) && Last(a + b) == Last(b);
    }
  }

  lemma CollectOne(s: Stmt, slotNames: set<string>, varNames: set<string>)
    ensures CollectReplay([s], slotNames, varNames) ==
            if !(exists x :: x in slotNames && IsAbout(s, x)) then [s]
            else if s.Let? && CallsInSight(Code(s), varNames) then [Expression(Code(s))]
            else []
  {
    hide RewriteForReplay, CallsInSight;
    RewriteKeeps(s, slotNames, varNames);
    assert ButLast([s]) == [];
  }

  /** The expression whose value an input shows: for a `let` the new name. */
  function Asked(inp: Input): Expr {
    match inp
    case LetIn(_, x, _, _) => Ident(x)
    case ExprIn(e) => e
  }

  /** The wrapper of every input, statement by statement, in each of the four cases: with or without a `return` in
      sight, with or without slots to store. */
  lemma WrapperIs(vars: seq<VarSlot>, replay: seq<Stmt>, inp: Input)
    ensures var mayReturn := BlockReaches(Returns, [StmtOf(inp)], Return) || BlockReaches(Returns, replay, Return);
            var slotted := exists v :: v in vars && v.ty.Int?;
            var e, end := Asked(inp), [Run(Expression(Block([])))];
            BuildBody(vars, replay, UserStmts(inp)) ==
            Prefix(vars, replay)
            + (if inp.LetIn? then [Run(Let(inp.mutable, inp.name, inp.rhs))] else [])
            + (if mayReturn && slotted then [Run(Expression(e))] + Stores(vars) + end
               else if mayReturn then (if e.Ident? then [] else [Run(Expression(e))]) + end
               else if slotted then [Run(Let(false, TAIL, e))] + Stores(vars) + [Run(Expression(Ident(TAIL)))]
               else [Run(Expression(e))])
  {
    hide Prefix, Stores, BlockContainsReturn, BlockReaches, Ending;
    StoresAreNone(vars);
    ScanOfInput(inp);
    ScanFindsReturnsInBlock(replay);
    var head, e := Prefix(vars, replay), Asked(inp);
    var first := if inp.LetIn? then [Run(Let(inp.mutable, inp.name, inp.rhs))] else [];
    assert Codes(UserStmts(inp)) == first + [Run(Expression(e))];
    assert head + Codes(UserStmts(inp)) == (head + first) + [Run(Expression(e))];
    EndingIs(head + first, e, Stores(vars), BlockContainsReturn(UserStmts(inp)) || BlockContainsReturn(replay));
  }

  lemma EndingIs(before: seq<WStmt>, e: Expr, stores: seq<WStmt>, hasReturn: bool)
    requires stores != [] ==> !IsExpression(Last(stores))
    ensures var end := [Run(Expression(Block([])))];
            Ending(before + [Run(Expression(e))], stores, hasReturn) ==
            before
            + (if hasReturn && stores != [] then [Run(Expression(e))] + stores + end
               else if hasReturn then (if e.Ident? then [] else [Run(Expression(e))]) + end
               else if stores != [] then [Run(Let(false, TAIL, e))] + stores + [Run(Expression(Ident(TAIL)))]
               else [Run(Expression(e))])
  {
    var body := before + [Run(Expression(e))];
    assert Last(body) == Run(Expression(e)) && ButLast(body) == before;
    if hasReturn && stores != [] { assert Last(body + stores) == Last(stores); }
  }

  /** A body that does not end in an expression has no value to keep or to drop. */
  lemma EndingWithoutValue(body: seq<WStmt>, stores: seq<WStmt>, hasReturn: bool)
    requires body == [] || !Last(body).Run? || Last(body).stmt.Let?
    requires stores != [] ==> !Last(stores).Run?
    ensures Ending(body, stores, hasReturn) == body + stores + if hasReturn then [Run(Expression(Block([])))] else []
  {
    if stores != [] { assert Last(body + stores) == Last(stores); } else { assert body + stores == body; }
    assert body + stores + [] == body + stores;
  }

  lemma ScanOfInput(inp: Input)
    ensures BlockContainsReturn(UserStmts(inp)) <==> BlockReaches(Returns, [StmtOf(inp)], Return)
  {
    hide Reaches, ContainsReturn;
    var e := Code(StmtOf(inp));
    ScanFindsReturns(e);
    assert [StmtOf(inp)][0] == StmtOf(inp);
    assert UserStmts(inp)[0] == StmtOf(inp);
    if inp.LetIn? { IdentReturnsNot(inp.name, UserStmts(inp)[1..]); }
    else { assert UserStmts(inp)[1..] == []; }
  }

  lemma IdentReturnsNot(x: string, ss: seq<Stmt>)
    requires ss == [Expression(Ident(x))]
    ensures !BlockContainsReturn(ss)
  {
    assert ss[1..] == [] && Code(ss[0]) == Ident(x);
  }

  // ---------------------------------------------------------------------------------------
  // Running a wrapper.
  // ---------------------------------------------------------------------------------------

  datatype Machine = Machine(env: Env, st: Store, slots: seq<Word>, replaying: bool)

  datatype WOutcome =
    | WDone(value: Value, m: Machine, out: seq<Value>)
    | WExit(m: Machine, out: seq<Value>)
    | WFail

  function WPrepend(o: seq<Value>, r: WOutcome): WOutcome {
    match r
    case WDone(v, m, o') => WDone(v, m, o + o')
    case WExit(m, o') => WExit(m, o + o')
    case WFail => WFail
  }

  /** A wrapper never changes how many slots there are. */
  ghost predicate KeepsSlots(m: Machine, r: WOutcome) {
    !r.WFail? ==> |r.m.slots| == |m.slots|
  }

  function StepW(w: WStmt, m: Machine, fuel: nat): (r: WOutcome)
    ensures KeepsSlots(m, r)
  {
    match w
    case SlotLoad(x, _, i) =>
      if i < |m.slots| then
        WDone(UnitV, m.(env := m.env[x := |m.st|], st := Alloc(m.st, x, IntV(m.slots[i]))), [])
      else WFail
    case SetReplaying(on) => WDone(UnitV, m.(replaying := on), [])
    case Run(s) =>
      (match ExecStmt(s, m.env, m.st, m.replaying, fuel)
       case Done(v, st, o) => WDone(v, m.(env := EnvAfter(s, m.env, st), st := st), o)
       case Returned(st, o) => WExit(m.(st := st), o)
       case Fail => WFail)
    case SlotRefresh(x, i) =>
      if i < |m.slots| then
        match Put(x, IntV(m.slots[i]), m.env, m.st)
        case Done(v, st, o) => WDone(v, m.(st := st), o)
        case _ => WFail
      else WFail
    case SlotStore(i, x) =>
      if i < |m.slots| && Bound(x, m.env, m.st) && m.st[m.env[x]].value.IntV? then
        WDone(UnitV, m.(slots := m.slots[i := m.st[m.env[x]].value.n]), [])
      else WFail
  }

  function RunW(ws: seq<WStmt>, m: Machine, fuel: nat): (r: WOutcome)
    ensures KeepsSlots(m, r)
    decreases |ws|
  {
    if ws == [] then WDone(UnitV, m, [])
    else
      match StepW(ws[0], m, fuel)
      case WDone(v, m1, o1) =>
        if |ws| == 1 then WDone(v, m1, o1) else WPrepend(o1, RunW(ws[1..], m1, fuel))
      case other => other
  }

  // ---------------------------------------------------------------------------------------
  // One input.
  // ---------------------------------------------------------------------------------------

  /** The statement an input contributes to the program. */
  function StmtOf(inp: Input): Stmt {
    match inp
    case LetIn(mut, x, rhs, _) => Let(mut, x, rhs)
    case ExprIn(e) => Expression(e)
  }

  /** What the wrapper runs for it: a `let` is followed by a read of the new name. */
  function UserStmts(inp: Input): seq<Stmt> {
    match inp
    case LetIn(mut, x, rhs, _) => [Let(mut, x, rhs), Expression(Ident(x))]
    case ExprIn(e) => [Expression(e)]
  }

  predicate IsRecorded(inp: Input) {
    inp.LetIn? || IsSideEffect(inp.expr)
  }

  /** The slot table after the probe: a new `Int` is registered, a name turned non-`Int` dropped. */
  function Probe(vars: seq<VarSlot>, inp: Input): seq<VarSlot> {
    if inp.ExprIn? then vars
    else
      var known := Position(vars, inp.name) < |vars|;
      if inp.isInt && !known then Register(vars, inp.name, Int, inp.mutable).0
      else if known && !inp.isInt then Unregister(vars, inp.name)
      else vars
  }

  lemma ProbeOfExpression(vars: seq<VarSlot>, inp: Input)
    requires inp.ExprIn?
    ensures Probe(vars, inp) == vars
  {
  }

  /** The slot table after the whole input. */
  function Tabled(vars: seq<VarSlot>, inp: Input): seq<VarSlot> {
    var probed := Probe(vars, inp);
    if inp.LetIn? && inp.isInt then Register(probed, inp.name, Int, inp.mutable).0 else probed
  }

  function WrapperFor(s: Sess, inp: Input): seq<WStmt> {
    var vars := Probe(s.vars, inp);
    BuildBody(vars, CollectReplay(s.history, Names(vars), LetNames(s.lets)), UserStmts(inp))
  }

  /** The bookkeeping after a run that ended: the input is recorded even if it left early. */
  function Record(s: Sess, inp: Input, m: Machine): Sess {
    Sess(Tabled(s.vars, inp),
         m.slots,
         if IsRecorded(inp) then s.history + [StmtOf(inp)] else s.history,
         if inp.LetIn? then s.lets + [StmtOf(inp)] else s.lets,
         m.replaying)
  }

  function Step(s: Sess, inp: Input, fuel: nat): StepResult {
    match RunW(WrapperFor(s, inp), Machine(map[], [], s.slots, s.replaying), fuel)
    case WDone(v, m, o) => Next(Record(s, inp, m), v, o)
    case WExit(m, o) => EarlyExit(Record(s, inp, m), o)
    case WFail => Stuck
  }

  /** A session that has seen no input. */
  function Fresh(): Sess {
    Sess([], seq(REPL_MAX_SLOTS, _ => 0), [], [], false)
  }

  /** The session object. Its fields are updated in place; the functions above say how. */
  class ReplSession {
    var varSlots: seq<VarSlot>
    const slots: array<Word>
    var history: seq<Stmt>
    var letBindings: seq<Stmt>
    var replaying: bool
    var lastOutput: seq<Value>

    ghost predicate Valid()
      reads this
    {
      slots.Length == REPL_MAX_SLOTS
    }

    ghost function View(): (s: Sess)
      reads this, slots
    {
      Sess(varSlots, slots[..], history, letBindings, replaying)
    }

    constructor ()
      ensures Valid() && fresh(slots) && View() == Fresh() && lastOutput == []
      ensures varSlots == [] && history == [] && letBindings == [] && !replaying
      ensures slots.Length == 256 && forall i :: 0 <= i < 256 ==> slots[i] == 0
    {
      slots := new Word[REPL_MAX_SLOTS](_ => 0);
      varSlots, history, letBindings, replaying, lastOutput := [], [], [], false, [];
    }

    /** Where the entry for `x` is, by a front-to-back search. */
    method Search(x: string) returns (p: nat)
      ensures p == Position(varSlots, x)
    {
      p := 0;
      while p < |varSlots| && varSlots[p].name != x
        invariant p <= |varSlots|
        invariant Position(varSlots, x) == p + Position(varSlots[p..], x)
      {
        assert varSlots[p..][1..] == varSlots[p + 1..];
        p := p + 1;
      }
    }

    method RegisterVar(x: string, ty: Ty, mutable: bool) returns (idx: Option<nat>)
      modifies this`varSlots
      ensures varSlots == Register(old(varSlots), x, ty, mutable).0
      ensures idx == Register(old(varSlots), x, ty, mutable).1
      ensures idx.None? <==> |old(varSlots)| >= 256 && forall v :: v in old(varSlots) ==> v.name != x
    {
      var p := Search(x);
      if p < |varSlots| {
        idx := Some(varSlots[p].idx);
        varSlots := varSlots[p := varSlots[p].(ty := ty, mutable := mutable)];
      } else if |varSlots| >= REPL_MAX_SLOTS {
        idx := None;
      } else {
        idx := Some(|varSlots|);
        varSlots := varSlots + [VarSlot(x, ty, |varSlots|, mutable)];
      }
    }

    method UnregisterVar(x: string) returns (removed: bool)
      modifies this`varSlots
      ensures varSlots == Unregister(old(varSlots), x)
      ensures removed <==> |varSlots| != |old(varSlots)|
    {
      var kept: seq<VarSlot> := [];
      for i := 0 to |varSlots|
        invariant kept == Unregister(varSlots[..i], x)
      {
        assert ButLast(varSlots[..i + 1]) == varSlots[..i];
        if varSlots[i].name != x {
          kept := kept + [varSlots[i]];
        }
      }
      assert varSlots[..|varSlots|] == varSlots;
      removed := |kept| != |varSlots|;
      varSlots := kept;
    }

    /** `:reset` leaves the state of a new session; only the replay flag, which belongs to the
        runtime, is not touched. */
    method Reset()
      requires Valid()
      modifies this, slots
      ensures Valid() && View() == Fresh().(replaying := old(replaying)) && lastOutput == []
    {
      history, letBindings, lastOutput := [], [], [];
      for i := 0 to slots.Length
        invariant forall j :: 0 <= j < i ==> slots[j] == 0
        invariant history == [] && letBindings == [] && lastOutput == [] && replaying == old(replaying)
      {
        slots[i] := 0;
      }
      varSlots := [];
    }

    method ReplayStatements() returns (replay: seq<Stmt>)
      ensures replay == CollectReplay(history, Names(varSlots), LetNames(letBindings))
    {
      var slotNames, varNames := Names(varSlots), LetNames(letBindings);
      replay := [];
      for i := 0 to |history|
        invariant replay == CollectReplay(history[..i], slotNames, varNames)
      {
        assert ButLast(history[..i + 1]) == history[..i];
        var kept := RewriteForReplay(history[i], slotNames, varNames);
        if kept.Some? {
          replay := replay + [kept.value];
        }
      }
      assert history[..|history|] == history;
    }

    /** Assemble the wrapper body by pushing, popping and re-pushing, as the original does. */
    method BuildProgram(replay: seq<Stmt>, user: seq<Stmt>) returns (body: seq<WStmt>)
      ensures body == BuildBody(varSlots, replay, user)
    {
      hide BlockContainsReturn, BlockMutatesSlot, Ending, Codes;
      var statements: seq<WStmt> := [];
      if replay != [] {
        statements := [SetReplaying(true)] + Codes(replay) + [SetReplaying(false)];
      }
      var bodyHasReturn := BlockContainsReturn(user) || BlockContainsReturn(replay);
      body := [];
      var stores: seq<WStmt> := [];
      for i := 0 to |varSlots|
        invariant body == Loads(varSlots[..i]) && stores == Stores(varSlots[..i])
      {
        var v := varSlots[i];
        assert ButLast(varSlots[..i + 1]) == varSlots[..i];
        if v.ty.Int? {
          body := body + [SlotLoad(v.name, v.mutable, v.idx)];
          stores := stores + [SlotStore(v.idx, v.name)];
        }
      }
      body := body + statements;
      if replay != [] {
        var before := body;
        for i := 0 to |varSlots|
          invariant body == before + Refreshes(varSlots[..i], replay)
        {
          var v := varSlots[i];
          assert ButLast(varSlots[..i + 1]) == varSlots[..i];
          if v.ty.Int? && BlockMutatesSlot(replay, v.name) {
            body := body + [SlotRefresh(v.name, v.idx)];
          }
        }
      }
      assert varSlots[..|varSlots|] == varSlots;
      assert body == Prefix(varSlots, replay);
      body := StoreAndEnd(body + Codes(user), stores, bodyHasReturn);
    }

    /** The last part of it: step (5) and the tail. */
    method StoreAndEnd(before: seq<WStmt>, stores: seq<WStmt>, bodyHasReturn: bool) returns (body: seq<WStmt>)
      ensures body == Ending(before, stores, bodyHasReturn)
    {
      body := before;
      if stores != [] {
        if !bodyHasReturn && body != [] && IsExpression(Last(body)) {
          var tail := Last(body).stmt.e;
          body := ButLast(body) + [Run(Let(false, TAIL, tail))] + stores + [Run(Expression(Ident(TAIL)))];
        } else {
          body := body + stores;
        }
      }
      if bodyHasReturn {
        if body != [] && IsExpression(Last(body)) && Last(body).stmt.e.Ident? {
          body := ButLast(body);
        }
        body := body + [Run(Expression(Block([])))];
      }
    }

    /** The probe and the wrapper built after it. */
    method Prepare(inp: Input) returns (body: seq<WStmt>)
      modifies this`varSlots
      ensures varSlots == Probe(old(varSlots), inp)
      ensures body == WrapperFor(old(View()), inp)
    {
      if inp.LetIn? {
        var p := Search(inp.name);
        if inp.isInt && p == |varSlots| {
          var _ := RegisterVar(inp.name, Int, inp.mutable);
        } else if p < |varSlots| && !inp.isInt {
          var _ := UnregisterVar(inp.name);
        }
      }
      var replay := ReplayStatements();
      body := BuildProgram(replay, UserStmts(inp));
    }

    /** Evaluate one input: probe, build, run, record. */
    method EvalInput(inp: Input, fuel: nat) returns (r: StepResult)
      requires Valid()
      modifies this, slots
      ensures Valid() && r == Step(old(View()), inp, fuel)
      ensures r.Stuck? ==> View() == old(View()).(vars := Probe(old(varSlots), inp))
      ensures !r.Stuck? ==> View() == r.s && lastOutput == r.out
    {
      hide RunW, BuildBody, CollectReplay, Probe;
      var body := Prepare(inp);
      match RunW(body, Machine(map[], [], slots[..], replaying), fuel)
      case WFail => r := Stuck;
      case WDone(v, m, o) =>
        Finish(inp, m, o);
        r := Next(Sess(varSlots, slots[..], history, letBindings, replaying), v, o);
      case WExit(m, o) =>
        Finish(inp, m, o);
        r := EarlyExit(Sess(varSlots, slots[..], history, letBindings, replaying), o);
    }

    /** The post-run hooks. */
    method Finish(inp: Input, m: Machine, out: seq<Value>)
      requires Valid() && |m.slots| == REPL_MAX_SLOTS
      modifies this, slots
      ensures Valid() && lastOutput == out && slots[..] == m.slots && replaying == m.replaying
      ensures varSlots == if inp.LetIn? && inp.isInt then Register(old(varSlots), inp.name, Int, inp.mutable).0
                          else old(varSlots)
      ensures history == old(history) + if IsRecorded(inp) then [StmtOf(inp)] else []
      ensures letBindings == old(letBindings) + if inp.LetIn? then [StmtOf(inp)] else []
    {
      forall i | 0 <= i < slots.Length { slots[i] := m.slots[i]; }
      replaying, lastOutput := m.replaying, out;
      if inp.LetIn? && inp.isInt {
        var _ := RegisterVar(inp.name, Int, inp.mutable);
      }
      if IsRecorded(inp) {
        history := history + [StmtOf(inp)];
      }
      if inp.LetIn? {
        letBindings := letBindings + [StmtOf(inp)];
      }
    }
  }
}
