/** Replaying the rewritten history rebuilds what the history built: the state a wrapper is in
    after its replay region corresponds to the state of the once-through program. */
module ReplReplay {
  import opened Common
  import opened ReplSyntax
  import opened ReplSemantics
  import opened ReplFrames
  import opened ReplSimulation
  import opened ReplSession

  // ---------------------------------------------------------------------------------------
  // Running statements in order in one scope.
  // ---------------------------------------------------------------------------------------

  datatype Top =
    | Going(env: Env, st: Store, value: Value, out: seq<Value>)
    | Ended(st: Store, out: seq<Value>)
    | Broken

  function RunTop(ss: seq<Stmt>, env: Env, st: Store, quiet: bool, fuel: nat): (r: Top)
    ensures r.Going? ==> Grows(st, r.st) && (quiet ==> r.out == [])
    decreases |ss|
  {
    if ss == [] then Going(env, st, UnitV, [])
    else
      match RunTop(ButLast(ss), env, st, quiet, fuel)
      case Going(env1, st1, _, o1) =>
        (match ExecStmt(Last(ss), env1, st1, quiet, fuel)
         case Done(v, st2, o2) => Going(EnvAfter(Last(ss), env1, st2), st2, v, o1 + o2)
         case Returned(st2, o2) => Ended(st2, o1 + o2)
         case Fail => Broken)
      case other => other
  }

  lemma RunTopStart(env: Env, st: Store, quiet: bool, fuel: nat)
    ensures RunTop([], env, st, quiet, fuel) == Going(env, st, UnitV, [])
  {
  }

  lemma RunTopSnoc(ss: seq<Stmt>, s: Stmt, env: Env, st: Store, quiet: bool, fuel: nat)
    ensures RunTop(ss + [s], env, st, quiet, fuel) ==
            match RunTop(ss, env, st, quiet, fuel)
            case Going(env1, st1, _, o1) =>
              (match ExecStmt(s, env1, st1, quiet, fuel)
               case Done(v, st2, o2) => Going(EnvAfter(s, env1, st2), st2, v, o1 + o2)
               case Returned(st2, o2) => Ended(st2, o1 + o2)
               case Fail => Broken)
            case other => other
  {
    assert ButLast(ss + [s]) == ss;
  }

  function Stmts(inputs: seq<Input>): seq<Stmt> {
    seq(|inputs|, i requires 0 <= i < |inputs| => StmtOf(inputs[i]))
  }

  /** The program whose meaning a session is measured against: every input once, in order. */
  function Program(inputs: seq<Input>, fuel: nat): Top {
    RunTop(Stmts(inputs), map[], [], false, fuel)
  }

  /** One more input is one more statement. */
  lemma ProgramStep(inputs: seq<Input>, k: nat, fuel: nat)
    requires k < |inputs| && Program(inputs[..k + 1], fuel).Going?
    ensures Program(inputs[..k], fuel).Going?
    ensures var s, p, q := StmtOf(inputs[k]), Program(inputs[..k], fuel), Program(inputs[..k + 1], fuel);
            var r := ExecStmt(s, p.env, p.st, false, fuel);
            r.Done? && q == Going(EnvAfter(s, p.env, r.store), r.store, r.value, p.out + r.out)
  {
    assert ButLast(Stmts(inputs[..k + 1])) == Stmts(inputs[..k]);
  }

  /** One more statement of a program that runs through. */
  lemma ProgramGoes(inputs: seq<Input>, inp: Input, fuel: nat)
    requires Program(inputs, fuel).Going?
    requires var p := Program(inputs, fuel); ExecStmt(StmtOf(inp), p.env, p.st, false, fuel).Done?
    ensures var p := Program(inputs, fuel); var r := ExecStmt(StmtOf(inp), p.env, p.st, false, fuel);
            Program(inputs + [inp], fuel) ==
            Going(EnvAfter(StmtOf(inp), p.env, r.store), r.store, r.value, p.out + r.out)
  {
    RunTopSnoc(Stmts(inputs), StmtOf(inp), map[], [], false, fuel);
    assert Stmts(inputs + [inp]) == Stmts(inputs) + [StmtOf(inp)];
  }

  lemma ProgramStart(inputs: seq<Input>, fuel: nat)
    ensures Program(inputs[..0], fuel) == Going(map[], [], UnitV, [])
  {
  }

  lemma WholeIsPrefix(inputs: seq<Input>)
    ensures inputs[..|inputs|] == inputs
  {
  }

  lemma {:induction false} ProgramPrefix(inputs: seq<Input>, k: nat, fuel: nat)
    requires k <= |inputs| && Program(inputs, fuel).Going?
    ensures Program(inputs[..k], fuel).Going?
    decreases |inputs| - k
  {
    assert inputs[..|inputs|] == inputs;
    if k < |inputs| {
      ProgramPrefix(inputs, k + 1, fuel);
      ProgramStep(inputs, k, fuel);
    }
  }

  // ---------------------------------------------------------------------------------------
  // What a list of inputs declares and touches.
  // ---------------------------------------------------------------------------------------

  function CodeAt(inputs: seq<Input>, i: nat): Expr
    requires i < |inputs|
  {
    Code(StmtOf(inputs[i]))
  }

  predicate Declares(inp: Input, x: string) {
    inp.LetIn? && inp.name == x
  }

  ghost predicate Declared(inputs: seq<Input>, x: string) {
    exists i :: 0 <= i < |inputs| && Declares(inputs[i], x)
  }

  /** The `j`-th input declares `x`, and an earlier one did. */
  ghost predicate Redeclares(inputs: seq<Input>, j: nat, x: string)
    requires j < |inputs|
  {
    Declares(inputs[j], x) && exists i :: 0 <= i < j && Declares(inputs[i], x)
  }

  ghost predicate RedeclaredBetween(inputs: seq<Input>, k: nat, n: nat, x: string) {
    exists j :: k <= j < n && j < |inputs| && Redeclares(inputs, j, x)
  }

  ghost predicate RedeclaredFrom(inputs: seq<Input>, k: nat, x: string) {
    RedeclaredBetween(inputs, k, |inputs|, x)
  }

  ghost predicate Touched(inputs: seq<Input>, x: string, t: Touch) {
    exists i :: 0 <= i < |inputs| && Writes(CodeAt(inputs, i), x, t)
  }

  /** The `k`-th input or a later one writes `x` or declares it again. */
  ghost predicate ChangedFrom(inputs: seq<Input>, k: nat, x: string) {
    || RedeclaredFrom(inputs, k, x)
    || exists j :: k <= j < |inputs| && Writes(CodeAt(inputs, j), x, Mutating)
  }

  /** `l` is a closure literal of one of the first `k` inputs. */
  predicate HasLit(inputs: seq<Input>, k: nat, l: Lambda) {
    exists i :: 0 <= i < k && i < |inputs| && IsLit(l, CodeAt(inputs, i))
  }

  ghost function LitsTo(inputs: seq<Input>, k: nat): iset<Lambda> {
    iset l | HasLit(inputs, k, l)
  }

  ghost predicate LitWrites(inputs: seq<Input>, k: nat, x: string) {
    exists l :: HasLit(inputs, k, l) && LambdaWrites(l, x, Mutating)
  }

  ghost predicate Captured(inputs: seq<Input>, x: string) {
    exists l :: HasLit(inputs, |inputs|, l) && Captures(l, x)
  }

  /** A variable without a slot that outlives an input: a session variable, or one a closure holds. */
  ghost predicate Kept(inputs: seq<Input>, names: set<string>, x: string) {
    x !in names && (Declared(inputs, x) || Captured(inputs, x))
  }

  function LetSet(inputs: seq<Input>): set<string> {
    set i | 0 <= i < |inputs| && inputs[i].LetIn? :: inputs[i].name
  }

  /** The recorded history of a session that was given `inputs`. */
  function Recorded(inputs: seq<Input>): seq<Stmt> {
    if inputs == [] then []
    else Recorded(ButLast(inputs)) + (if IsRecorded(Last(inputs)) then [StmtOf(Last(inputs))] else [])
  }

  predicate IsReplayed(inp: Input, names: set<string>, lets: set<string>) {
    IsRecorded(inp) && RewriteForReplay(StmtOf(inp), names, lets).Some?
  }

  // ---------------------------------------------------------------------------------------
  // When replay is exact. `names` are the names in the slot table of the wrapper that replays,
  // `lets` all names the session has bound.
  // ---------------------------------------------------------------------------------------

  /** The replay itself, or a closure, may write `x`. */
  ghost predicate Stirred(inputs: seq<Input>, names: set<string>, lets: set<string>, x: string) {
    || LitWrites(inputs, |inputs|, x)
    || exists i :: 0 <= i < |inputs| && IsReplayed(inputs[i], names, lets) && Writes(CodeAt(inputs, i), x, Mutating)
  }

  /** The slot variables whose values before the `k`-th input the replay may not see: those changed
      by it or since, and those the replay itself changes. */
  ghost function VolatileAt(inputs: seq<Input>, k: nat, names: set<string>, lets: set<string>): iset<string> {
    iset x | x in names && (Stirred(inputs, names, lets, x) || ChangedFrom(inputs, k, x))
  }

  lemma NotVolatile(inputs: seq<Input>, k: nat, names: set<string>, lets: set<string>, x: string)
    requires x !in names
    ensures x !in VolatileAt(inputs, k, names, lets)
  {
  }

  /** The `i`-th input leaves `x` as it is, be it that it calls no closure or that none writes `x`. */
  ghost predicate Spares(inputs: seq<Input>, i: nat, x: string)
    requires i < |inputs|
  {
    || !Writes(CodeAt(inputs, i), x, Calling)
    || (!Writes(CodeAt(inputs, i), x, Mutating) && !LitWrites(inputs, i + 1, x))
  }

  /** The `i`-th input writes no variable without a slot, and declares none: whether and how it is
      replayed does not matter, since the slots are reloaded afterwards. */
  ghost predicate Harmless(inputs: seq<Input>, i: nat, names: set<string>)
    requires i < |inputs|
  {
    && (inputs[i].LetIn? ==> inputs[i].name in names)
    && forall x :: Kept(inputs, names, x) ==> Spares(inputs, i, x)
  }

  ghost function CareAt(inputs: seq<Input>, i: nat, names: set<string>, lets: set<string>, calls: bool): Care {
    Care(VolatileAt(inputs, i, names, lets), LitsTo(inputs, i + 1), calls)
  }

  /** The `i`-th input is replayed, and reads no slot variable that it changes or that has changed since,
      except to update that variable; nor do the closures known by then, if it calls any. */
  ghost predicate Faithful(inputs: seq<Input>, i: nat, names: set<string>, lets: set<string>)
    requires i < |inputs|
  {
    && IsReplayed(inputs[i], names, lets)
    && exists calls :: var care := CareAt(inputs, i, names, lets, calls); Calm(care) && Stable(CodeAt(inputs, i), care)
  }

  ghost predicate Exact(inputs: seq<Input>, i: nat, names: set<string>, lets: set<string>)
    requires i < |inputs|
  {
    Harmless(inputs, i, names) || Faithful(inputs, i, names, lets)
  }

  /** A slot variable that a closure holds is not declared again afterwards by one of the first `n` inputs;
      and if it ever changes, no nested variable has its name. */
  ghost predicate ClosuresTame(inputs: seq<Input>, n: nat, names: set<string>, lets: set<string>) {
    forall i, l, x :: 0 <= i < |inputs| && IsLit(l, CodeAt(inputs, i)) && Captures(l, x) && x in names ==>
      && !RedeclaredBetween(inputs, i, n, x)
      && (x in VolatileAt(inputs, 0, names, lets) ==> !Touched(inputs, x, Declaring))
  }

  /** The syntactic condition under which the first `n` inputs of a history can be replayed exactly. */
  ghost predicate ReplayableTo(inputs: seq<Input>, n: nat, names: set<string>, lets: set<string>) {
    && ClosuresTame(inputs, n, names, lets)
    && forall i :: 0 <= i < n && i < |inputs| ==> Exact(inputs, i, names, lets)
  }

  ghost predicate Replayable(inputs: seq<Input>, names: set<string>, lets: set<string>) {
    ReplayableTo(inputs, |inputs|, names, lets)
  }

  // ---------------------------------------------------------------------------------------
  // The once-through program, step by step.
  // ---------------------------------------------------------------------------------------

  lemma LitsClosed(inputs: seq<Input>, k: nat)
    ensures Closed(LitsTo(inputs, k))
    ensures forall i :: 0 <= i < k && i < |inputs| ==> Knows(LitsTo(inputs, k), CodeAt(inputs, i))
  {
    var known := LitsTo(inputs, k);
    forall l, inner | l in known && BlockHasLit(inner, l.body) ensures inner in known {
      var i :| 0 <= i < k && i < |inputs| && IsLit(l, CodeAt(inputs, i));
      LitsNest(inner, l, CodeAt(inputs, i));
    }
  }

  lemma LitsGrow(inputs: seq<Input>, j: nat, k: nat)
    requires j <= k
    ensures LitsTo(inputs, j) <= LitsTo(inputs, k)
  {
  }

  lemma TidyMore(st: Store, few: iset<Lambda>, many: iset<Lambda>)
    requires TidyStore(st, few) && few <= many
    ensures TidyStore(st, many)
  {
    forall c | 0 <= c < |st| ensures TidyValue(st[c].value, st, many) {
      assert TidyValue(st[c].value, st, few);
    }
  }

  /** Closures from literals that do not write `x` do not write `x`. */
  lemma LitsShy(known: iset<Lambda>, st: Store, x: string, t: Touch)
    requires TidyStore(st, known)
    requires t.Calling? || forall l :: l in known ==> !LambdaWrites(l, x, t)
    ensures ShyStore(st, x, t)
  {
    forall c | 0 <= c < |st| ensures Shy(st[c].value, x, t) {
      assert TidyValue(st[c].value, st, known);
    }
  }

  lemma UnwrittenShy(inputs: seq<Input>, k: nat, st: Store, x: string)
    requires TidyStore(st, LitsTo(inputs, k)) && !LitWrites(inputs, k, x)
    ensures ShyStore(st, x, Mutating)
  {
    LitsShy(LitsTo(inputs, k), st, x, Mutating);
  }

  /** Closures of a program declare no more than the program does. */
  lemma UndeclaredShy(inputs: seq<Input>, k: nat, st: Store, x: string)
    requires TidyStore(st, LitsTo(inputs, k)) && !Touched(inputs, x, Declaring)
    ensures ShyStore(st, x, Declaring)
  {
    forall l | l in LitsTo(inputs, k) ensures !LambdaWrites(l, x, Declaring) {
      var i :| 0 <= i < k && i < |inputs| && IsLit(l, CodeAt(inputs, i));
      if LambdaWrites(l, x, Declaring) { LitsWriteLess(l, CodeAt(inputs, i), x, Declaring); }
    }
    LitsShy(LitsTo(inputs, k), st, x, Declaring);
  }

  /** The shape of the program's state after `k` inputs. */
  lemma {:induction false} ProgramTidy(inputs: seq<Input>, k: nat, fuel: nat)
    requires k <= |inputs| && Program(inputs, fuel).Going?
    ensures var p := Program(inputs[..k], fuel);
            && p.Going?
            && TidyEnv(p.env, p.st)
            && TidyStore(p.st, LitsTo(inputs, k))
            && (forall x :: x in p.env ==> exists i :: 0 <= i < k && Declares(inputs[i], x))
    decreases k
  {
    ProgramPrefix(inputs, k, fuel);
    if k > 0 {
      ProgramTidy(inputs, k - 1, fuel);
      ProgramStep(inputs, k - 1, fuel);
      LitsClosed(inputs, k);
      var p := Program(inputs[..k - 1], fuel);
      LitsGrow(inputs, k - 1, k);
      TidyMore(p.st, LitsTo(inputs, k - 1), LitsTo(inputs, k));
      assert Knows(LitsTo(inputs, k), CodeAt(inputs, k - 1));
      TidyStmt(StmtOf(inputs[k - 1]), p.env, p.st, false, fuel, LitsTo(inputs, k));
      var q := Program(inputs[..k], fuel);
      forall x | x in q.env ensures exists i :: 0 <= i < k && Declares(inputs[i], x) {
        if x !in p.env { assert Declares(inputs[k - 1], x); }
      }
    }
  }

  /** Every declared name is in scope from its declaration on. */
  lemma {:induction false} DeclaredInScope(inputs: seq<Input>, i: nat, k: nat, fuel: nat)
    requires i < k <= |inputs| && inputs[i].LetIn? && Program(inputs, fuel).Going?
    ensures Program(inputs[..k], fuel).Going? && inputs[i].name in Program(inputs[..k], fuel).env
    decreases k
  {
    ProgramPrefix(inputs, k, fuel);
    ProgramStep(inputs, k - 1, fuel);
    if i < k - 1 { DeclaredInScope(inputs, i, k - 1, fuel); }
  }

  /** A variable nothing writes or redeclares from some point on keeps, from there to the end, its
      cell and its value. */
  lemma {:induction false} UntouchedToTheEnd(inputs: seq<Input>, k: nat, x: string, fuel: nat)
    requires k <= |inputs| && Program(inputs, fuel).Going? && Program(inputs[..k], fuel).Going?
    requires x in Program(inputs[..k], fuel).env
    requires !ChangedFrom(inputs, k, x) && !LitWrites(inputs, |inputs|, x)
    ensures var p, q := Program(inputs[..k], fuel), Program(inputs, fuel);
            && Bound(x, p.env, p.st)
            && x in q.env && q.env[x] == p.env[x] && |p.st| <= |q.st| && q.st[p.env[x]] == p.st[p.env[x]]
    decreases |inputs| - k
  {
    hide Program, RunTop, Eval, Writes, TidyStore, ShyStore;
    ProgramTidy(inputs, k, fuel);
    WholeIsPrefix(inputs);
    if k < |inputs| {
      ProgramPrefix(inputs, k + 1, fuel);
      ProgramStep(inputs, k, fuel);
      var p := Program(inputs[..k], fuel);
      LitsGrow(inputs, k, |inputs|);
      UnwrittenShy(inputs, k, p.st, x);
      assert !Writes(CodeAt(inputs, k), x, Mutating);
      FrameStmt(StmtOf(inputs[k]), p.env, p.st, false, fuel, x, Mutating);
      var i :| 0 <= i < k && Declares(inputs[i], x);
      assert !Declares(inputs[k], x) by { assert !Redeclares(inputs, k, x); }
      UntouchedToTheEnd(inputs, k + 1, x, fuel);
    }
  }

  // ---------------------------------------------------------------------------------------
  // The wrapper's side.
  // ---------------------------------------------------------------------------------------

  /** The scope and store a wrapper has after loading its slots. */
  function LoadedEnv(vars: seq<VarSlot>): Env {
    if vars == [] then map[] else LoadedEnv(ButLast(vars))[Last(vars).name := |vars| - 1]
  }

  function LoadedStore(vars: seq<VarSlot>, slots: seq<Word>): Store
    requires GoodVars(vars, slots)
  {
    seq(|vars|, i requires 0 <= i < |vars| => Cell(vars[i].name, IntV(slots[vars[i].idx])))
  }

  /** A slot table in which no two entries share a name or a slot. */
  ghost predicate GoodVars(vars: seq<VarSlot>, slots: seq<Word>) {
    && (forall i :: 0 <= i < |vars| ==> vars[i].ty == Int && vars[i].idx < |slots|)
    && (forall i, j :: 0 <= i < j < |vars| ==> vars[i].name != vars[j].name && vars[i].idx != vars[j].idx)
  }

  lemma {:induction false} LoadedEnvAt(vars: seq<VarSlot>)
    requires forall i, j :: 0 <= i < j < |vars| ==> vars[i].name != vars[j].name
    ensures forall i :: 0 <= i < |vars| ==> vars[i].name in LoadedEnv(vars) && LoadedEnv(vars)[vars[i].name] == i
    ensures forall x :: x in LoadedEnv(vars) ==> exists i :: 0 <= i < |vars| && vars[i].name == x
  {
    if vars != [] {
      LoadedEnvAt(ButLast(vars));
      var env := LoadedEnv(ButLast(vars));
      forall x | x in LoadedEnv(vars) ensures exists i :: 0 <= i < |vars| && vars[i].name == x {
        if x in env {
          var i :| 0 <= i < |ButLast(vars)| && ButLast(vars)[i].name == x;
          assert vars[i].name == x;
        } else {
          assert vars[|vars| - 1].name == x;
        }
      }
    }
  }

  /** The part of a wrapper's state that slots account for. */
  ghost predicate SlotsInPlace(vars: seq<VarSlot>, env: Env, st: Store) {
    && |vars| <= |st|
    && forall i :: 0 <= i < |vars| ==>
         && vars[i].name in env && env[vars[i].name] == i
         && st[i].name == vars[i].name && st[i].value.IntV?
  }

  /** The slots the replay does not write still hold what was loaded. */
  ghost predicate SteadySlots(inputs: seq<Input>, vars: seq<VarSlot>, slots: seq<Word>, lets: set<string>, st: Store) {
    forall i ::
      0 <= i < |vars| <= |st| && vars[i].idx < |slots| && !Stirred(inputs, Names(vars), lets, vars[i].name) ==>
        st[i].value == IntV(slots[vars[i].idx])
  }

  /** Only the program's current cell of a slot variable is linked to the slot's cell. */
  ghost predicate SlotLinks(vars: seq<VarSlot>, env: Env, link: Link) {
    forall c :: c in link && link[c] < |vars| ==>
      vars[link[c]].name in env && env[vars[link[c]].name] == c
  }

  /** Of a slot variable whose name no nested variable has, only the current cell is linked. */
  ghost predicate OwnLinks(inputs: seq<Input>, names: set<string>, env: Env, st: Store, link: Link) {
    forall c :: c in link && c < |st| && st[c].name in names && !Touched(inputs, st[c].name, Declaring) ==>
      st[c].name in env && env[st[c].name] == c
  }

  /** Linked cells are those of variables that outlive an input. */
  ghost predicate LiveLinks(inputs: seq<Input>, names: set<string>, st: Store, link: Link) {
    forall c :: c in link ==> c < |st| && (st[c].name in names || Kept(inputs, names, st[c].name))
  }

  ghost function CareTo(inputs: seq<Input>, k: nat, names: set<string>, lets: set<string>): Care {
    Care(VolatileAt(inputs, k, names, lets), LitsTo(inputs, k), true)
  }

  /** The discipline of the wrapper's own state after `k` inputs. */
  ghost predicate WrapperTidy(inputs: seq<Input>, k: nat, vars: seq<VarSlot>, slots: seq<Word>, lets: set<string>,
                              w: Top)
  {
    && w.Going?
    && TidyEnv(w.env, w.st) && TidyStore(w.st, LitsTo(inputs, k))
    && SlotsInPlace(vars, w.env, w.st)
    && SteadySlots(inputs, vars, slots, lets, w.st)
  }

  /** The correspondence between the program after `k` inputs and a wrapper after replaying them. */
  ghost predicate Rebuilt(inputs: seq<Input>, k: nat, vars: seq<VarSlot>, slots: seq<Word>, lets: set<string>,
                          p: Top, w: Top, link: Link) {
    && p.Going?
    && WrapperTidy(inputs, k, vars, slots, lets, w)
    && EnvRel(p.env, w.env, link)
    && StoreRel(p.st, w.st, link, CareTo(inputs, k, Names(vars), lets))
    && SlotLinks(vars, p.env, link)
    && OwnLinks(inputs, Names(vars), p.env, p.st, link)
    && LiveLinks(inputs, Names(vars), p.st, link)
  }

  /** What a wrapper with this slot table makes of the first `k` inputs. */
  function Replayed(inputs: seq<Input>, k: nat, vars: seq<VarSlot>, slots: seq<Word>, lets: set<string>, fuel: nat): Top
    requires k <= |inputs| && GoodVars(vars, slots)
  {
    RunTop(CollectReplay(Recorded(inputs[..k]), Names(vars), lets),
           LoadedEnv(vars), LoadedStore(vars, slots), true, fuel)
  }

  /** How one more input changes what is replayed. */
  lemma CollectStep(inputs: seq<Input>, k: nat, names: set<string>, lets: set<string>)
    requires k < |inputs|
    ensures CollectReplay(Recorded(inputs[..k + 1]), names, lets) ==
            CollectReplay(Recorded(inputs[..k]), names, lets) +
            if IsReplayed(inputs[k], names, lets) then [RewriteForReplay(StmtOf(inputs[k]), names, lets).value]
            else []
  {
    hide RewriteForReplay;
    assert ButLast(inputs[..k + 1]) == inputs[..k];
    var h := Recorded(inputs[..k]);
    var ss := CollectReplay(h, names, lets);
    assert h + [] == h && ss + [] == ss;
    if IsRecorded(inputs[k]) {
      assert ButLast(h + [StmtOf(inputs[k])]) == h;
    }
  }

  /** How one more input changes the replay's run. */
  lemma ReplayedStep(inputs: seq<Input>, k: nat, vars: seq<VarSlot>, slots: seq<Word>, lets: set<string>, fuel: nat)
    requires k < |inputs| && GoodVars(vars, slots)
    ensures var w, w' := Replayed(inputs, k, vars, slots, lets, fuel), Replayed(inputs, k + 1, vars, slots, lets, fuel);
            if IsReplayed(inputs[k], Names(vars), lets) then
              var kept := RewriteForReplay(StmtOf(inputs[k]), Names(vars), lets).value;
              && (w'.Going? ==> w.Going?)
              && (w.Going? ==>
                    var r := ExecStmt(kept, w.env, w.st, true, fuel);
                    && (r.Done? <==> w'.Going?)
                    && (r.Done? ==> w'.st == r.store && w'.env == EnvAfter(kept, w.env, r.store)))
            else w' == w
  {
    hide RunTop, ExecStmt, RewriteForReplay, CollectReplay, GoodVars, LoadedStore, LoadedEnv;
    var names := Names(vars);
    CollectStep(inputs, k, names, lets);
    var ss := CollectReplay(Recorded(inputs[..k]), names, lets);
    if IsReplayed(inputs[k], names, lets) {
      RunTopSnoc(ss, RewriteForReplay(StmtOf(inputs[k]), names, lets).value,
                 LoadedEnv(vars), LoadedStore(vars, slots), true, fuel);
    } else {
      assert ss + [] == ss;
    }
  }

  /** The slots hold the program's values of the variables it has declared. */
  ghost predicate SlotsAgree(vars: seq<VarSlot>, slots: seq<Word>, p: Top) {
    && p.Going?
    && forall i :: 0 <= i < |vars| && vars[i].idx < |slots| && vars[i].name in p.env ==>
         && p.env[vars[i].name] < |p.st|
         && p.st[p.env[vars[i].name]].value == IntV(slots[vars[i].idx])
  }

  /** A wrapper with a good slot table, in step with the program, whose first `n` inputs can be
      replayed exactly. */
  ghost predicate Setting(inputs: seq<Input>, n: nat, vars: seq<VarSlot>, slots: seq<Word>, lets: set<string>,
                          fuel: nat)
  {
    && ReplayableTo(inputs, n, Names(vars), lets)
    && GoodVars(vars, slots)
    && SlotsAgree(vars, slots, Program(inputs, fuel))
    && forall k :: 0 <= k < |inputs| ==> BindsInt(inputs, k, Names(vars), fuel)
  }

  /** A `let` of a variable with a slot binds an `Int`. */
  ghost predicate BindsInt(inputs: seq<Input>, k: nat, names: set<string>, fuel: nat)
    requires k < |inputs|
  {
    inputs[k].LetIn? && inputs[k].name in names ==>
      var q, x := Program(inputs[..k + 1], fuel), inputs[k].name;
      q.Going? ==> x in q.env && q.env[x] < |q.st| && q.st[q.env[x]].value.IntV?
  }

  lemma SettingParts(inputs: seq<Input>, n: nat, vars: seq<VarSlot>, slots: seq<Word>, lets: set<string>, fuel: nat)
    requires Setting(inputs, n, vars, slots, lets, fuel)
    ensures Program(inputs, fuel).Going? && ClosuresTame(inputs, n, Names(vars), lets) && GoodVars(vars, slots)
    ensures SlotsAgree(vars, slots, Program(inputs, fuel))
    ensures forall i :: 0 <= i < n && i < |inputs| ==> Exact(inputs, i, Names(vars), lets)
    ensures forall i :: 0 <= i < |vars| ==> vars[i].name in Names(vars)
    ensures forall k :: 0 <= k < |inputs| ==> BindsInt(inputs, k, Names(vars), fuel)
  {
  }

  // ---------------------------------------------------------------------------------------
  // After each input: the links that still matter, and the variables that may be seen again.
  // ---------------------------------------------------------------------------------------

  /** The state after the `k`-th input, before the links are looked through. */
  ghost predicate Drafted(inputs: seq<Input>, k: nat, vars: seq<VarSlot>, slots: seq<Word>, lets: set<string>,
                          q: Top, w: Top, link: Link) {
    && q.Going?
    && WrapperTidy(inputs, k + 1, vars, slots, lets, w)
    && EnvRel(q.env, w.env, link)
    && StoreRel(q.st, w.st, link, CareAt(inputs, k, Names(vars), lets, true))
    && SlotLinks(vars, q.env, link)
    && OwnLinks(inputs, Names(vars), q.env, q.st, link)
  }

  /** Of a variable with a slot, the current cell or whatever closures hold; of others, what is kept. */
  ghost predicate StillMatters(inputs: seq<Input>, names: set<string>, x: string, c: nat, env: Env) {
    if x in names then Captured(inputs, x) || (x in env && env[x] == c) else Kept(inputs, names, x)
  }

  ghost function Pruned(inputs: seq<Input>, names: set<string>, env: Env, st: Store, link: Link): Link {
    map c | c in link && c < |st| && StillMatters(inputs, names, st[c].name, c, env) :: link[c]
  }

  /** A slot variable that is not volatile has the value its slot holds at the end. */
  lemma FinalValue(inputs: seq<Input>, k: nat, n: nat, i: nat, vars: seq<VarSlot>, slots: seq<Word>, lets: set<string>,
                   fuel: nat)
    requires Setting(inputs, n, vars, slots, lets, fuel) && k <= |inputs| && i < |vars|
    requires Program(inputs[..k], fuel).Going? && vars[i].name in Program(inputs[..k], fuel).env
    requires vars[i].name !in VolatileAt(inputs, k, Names(vars), lets)
    ensures var p := Program(inputs[..k], fuel); var x := vars[i].name;
            p.env[x] < |p.st| && p.st[p.env[x]].value == IntV(slots[vars[i].idx])
  {
    hide Program, RunTop, Exact, ClosuresTame, LitWrites, ChangedFrom;
    SettingParts(inputs, n, vars, slots, lets, fuel);
    assert vars[i].name in Names(vars);
    UntouchedToTheEnd(inputs, k, vars[i].name, fuel);
  }

  /** A scope whose variables still matter stays linked. */
  lemma PrunedScope(inputs: seq<Input>, names: set<string>, env: Env, st: Store, link: Link, scope: Env, scope2: Env)
    requires EnvRel(scope, scope2, link) && TidyEnv(scope, st)
    requires forall y :: y in scope ==> StillMatters(inputs, names, y, scope[y], env)
    ensures EnvRel(scope, scope2, Pruned(inputs, names, env, st, link))
  {
    hide StillMatters;
    var link' := Pruned(inputs, names, env, st, link);
    forall y | y in scope ensures scope[y] in link' && link'[scope[y]] == scope2[y] {
      assert Bound(y, scope, st);
    }
  }

  lemma CapturedMatters(inputs: seq<Input>, k: nat, names: set<string>, v: Value, st: Store, env: Env, y: string)
    requires v.CloV? && TidyValue(v, st, LitsTo(inputs, k)) && k <= |inputs| && y in v.env
    ensures StillMatters(inputs, names, y, v.env[y], env) && Captured(inputs, y)
  {
    assert HasLit(inputs, k, v.lambda) && Captures(v.lambda, y);
    assert HasLit(inputs, |inputs|, v.lambda);
  }

  /** A slot variable that leaves the volatile ones is linked by its own cell only. */
  lemma LeavesAlone(inputs: seq<Input>, k: nat, n: nat, vars: seq<VarSlot>, slots: seq<Word>, lets: set<string>,
                    q: Top, w: Top, link: Link, c: nat)
    requires ClosuresTame(inputs, n, Names(vars), lets) && Drafted(inputs, k, vars, slots, lets, q, w, link)
    requires c in Pruned(inputs, Names(vars), q.env, q.st, link)
    requires q.st[c].name in VolatileAt(inputs, k, Names(vars), lets)
    requires q.st[c].name !in VolatileAt(inputs, k + 1, Names(vars), lets)
    ensures var x := q.st[c].name; x in Names(vars) && x in q.env && q.env[x] == c
    ensures !Stirred(inputs, Names(vars), lets, q.st[c].name)
  {
    var x := q.st[c].name;
    assert ChangedFrom(inputs, 0, x);
    if Captured(inputs, x) {
      var l :| HasLit(inputs, |inputs|, l) && Captures(l, x);
      var i :| 0 <= i < |inputs| && IsLit(l, CodeAt(inputs, i));
      assert !Touched(inputs, x, Declaring);
    }
  }

  lemma PrunedCell(inputs: seq<Input>, k: nat, n: nat, vars: seq<VarSlot>, slots: seq<Word>, lets: set<string>,
                   w: Top, link: Link, c: nat, fuel: nat)
    requires Setting(inputs, n, vars, slots, lets, fuel) && k < |inputs|
    requires Drafted(inputs, k, vars, slots, lets, Program(inputs[..k + 1], fuel), w, link)
    requires var q := Program(inputs[..k + 1], fuel); c in Pruned(inputs, Names(vars), q.env, q.st, link)
    ensures var q := Program(inputs[..k + 1], fuel);
            CellRel(c, q.st, w.st, Pruned(inputs, Names(vars), q.env, q.st, link),
                    CareTo(inputs, k + 1, Names(vars), lets))
  {
    hide Program, RunTop, Exact, ClosuresTame, StillMatters, VolatileAt, Stirred, Captured, OwnLinks, SlotLinks;
    var q, names := Program(inputs[..k + 1], fuel), Names(vars);
    var link' := Pruned(inputs, names, q.env, q.st, link);
    var u := q.st[c].value;
    SettingParts(inputs, n, vars, slots, lets, fuel);
    ProgramTidy(inputs, k + 1, fuel);
    assert CellRel(c, q.st, w.st, link, CareAt(inputs, k, names, lets, true));
    if q.st[c].name !in VolatileAt(inputs, k, names, lets) {
      if u.CloV? {
        assert TidyValue(u, q.st, LitsTo(inputs, k + 1));
        forall y | y in u.env ensures StillMatters(inputs, names, y, u.env[y], q.env) {
          CapturedMatters(inputs, k + 1, names, u, q.st, q.env, y);
        }
        PrunedScope(inputs, names, q.env, q.st, link, u.env, w.st[link[c]].value.env);
      }
    } else if q.st[c].name !in VolatileAt(inputs, k + 1, names, lets) {
      LeavesAlone(inputs, k, n, vars, slots, lets, q, w, link, c);
      var i :| 0 <= i < |vars| && vars[i].name == q.st[c].name;
      FinalValue(inputs, k + 1, n, i, vars, slots, lets, fuel);
    }
  }

  lemma PrunedStore(inputs: seq<Input>, k: nat, n: nat, vars: seq<VarSlot>, slots: seq<Word>, lets: set<string>,
                    w: Top, link: Link, fuel: nat)
    requires Setting(inputs, n, vars, slots, lets, fuel) && k < |inputs|
    requires Drafted(inputs, k, vars, slots, lets, Program(inputs[..k + 1], fuel), w, link)
    ensures var q := Program(inputs[..k + 1], fuel);
            StoreRel(q.st, w.st, Pruned(inputs, Names(vars), q.env, q.st, link),
                     CareTo(inputs, k + 1, Names(vars), lets))
  {
    hide Program, RunTop, Setting, CellRel, VolatileAt, StillMatters, EnvRel, SlotLinks, OwnLinks, LitsTo, TidyStore,
         TidyEnv, SlotsInPlace, SteadySlots;
    var q := Program(inputs[..k + 1], fuel);
    var link', care := Pruned(inputs, Names(vars), q.env, q.st, link), CareTo(inputs, k + 1, Names(vars), lets);
    forall c | c in link' ensures CellRel(c, q.st, w.st, link', care) {
      PrunedCell(inputs, k, n, vars, slots, lets, w, link, c, fuel);
    }
  }

  lemma PrunedTop(inputs: seq<Input>, k: nat, names: set<string>, q: Top, w: Top, link: Link)
    requires q.Going? && w.Going? && k < |inputs| && EnvRel(q.env, w.env, link) && TidyEnv(q.env, q.st)
    requires forall x :: x in q.env ==> exists i :: 0 <= i < k + 1 && Declares(inputs[i], x)
    ensures EnvRel(q.env, w.env, Pruned(inputs, names, q.env, q.st, link))
  {
    hide Kept, Captured, EnvRel, TidyEnv;
    forall x | x in q.env ensures StillMatters(inputs, names, x, q.env[x], q.env) {
      DeclaredIsKept(inputs, k + 1, names, x);
    }
    PrunedScope(inputs, names, q.env, q.st, link, q.env, w.env);
  }

  lemma DraftedGoes(inputs: seq<Input>, k: nat, vars: seq<VarSlot>, slots: seq<Word>, lets: set<string>,
                    q: Top, w: Top, link: Link)
    requires Drafted(inputs, k, vars, slots, lets, q, w, link)
    ensures q.Going? && w.Going?
  {
  }

  /** After each input, links to dead variables can be dropped, and slot variables that do not change
      any more can be seen again: the program has bound them to the value their slots hold. */
  lemma Settle(inputs: seq<Input>, k: nat, n: nat, vars: seq<VarSlot>, slots: seq<Word>, lets: set<string>,
               w: Top, link: Link, fuel: nat) returns (link': Link)
    requires Setting(inputs, n, vars, slots, lets, fuel) && k < |inputs|
    requires Drafted(inputs, k, vars, slots, lets, Program(inputs[..k + 1], fuel), w, link)
    ensures Rebuilt(inputs, k + 1, vars, slots, lets, Program(inputs[..k + 1], fuel), w, link')
  {
    hide Program, RunTop, Setting, CellRel, VolatileAt, Captured, Kept, Stirred, WrapperTidy;
    var q, names := Program(inputs[..k + 1], fuel), Names(vars);
    SettingParts(inputs, n, vars, slots, lets, fuel);
    ProgramTidy(inputs, k + 1, fuel);
    link' := Pruned(inputs, names, q.env, q.st, link);
    DraftedGoes(inputs, k, vars, slots, lets, q, w, link);
    PrunedStore(inputs, k, n, vars, slots, lets, w, link, fuel);
    PrunedTop(inputs, k, names, q, w, link);
  }

  lemma DeclaredIsKept(inputs: seq<Input>, k: nat, names: set<string>, x: string)
    requires k <= |inputs| && exists i :: 0 <= i < k && Declares(inputs[i], x)
    ensures x !in names ==> Kept(inputs, names, x)
  {
  }

  // ---------------------------------------------------------------------------------------
  // The induction over the history.
  // ---------------------------------------------------------------------------------------

  /** A variable that outlives an input and is not volatile. */
  ghost predicate Relied(inputs: seq<Input>, k: nat, names: set<string>, lets: set<string>, x: string) {
    (x in names || Kept(inputs, names, x)) && x !in VolatileAt(inputs, k, names, lets)
  }

  /** Nothing changes that the replay may rely on. */
  ghost predicate StaysPut(inputs: seq<Input>, k: nat, names: set<string>, lets: set<string>, st: Store, st': Store) {
    && |st| <= |st'|
    && forall c :: 0 <= c < |st| && Relied(inputs, k, names, lets, st[c].name) ==> st'[c] == st[c]
  }

  /** A correspondence survives runs that leave every cell it vouches for alone. */
  lemma KeepRel(inputs: seq<Input>, k: nat, names: set<string>, lets: set<string>,
                st1: Store, st2: Store, st1': Store, st2': Store, link: Link)
    requires StoreRel(st1, st2, link, CareTo(inputs, k, names, lets)) && LiveLinks(inputs, names, st1, link)
    requires Grows(st1, st1') && Grows(st2, st2')
    requires StaysPut(inputs, k, names, lets, st1, st1') && StaysPut(inputs, k, names, lets, st2, st2')
    ensures StoreRel(st1', st2', link, CareAt(inputs, k, names, lets, true))
  {
    hide VolatileAt, Kept;
    LitsGrow(inputs, k, k + 1);
    forall c | c in link ensures CellRel(c, st1', st2', link, CareAt(inputs, k, names, lets, true)) {
      assert CellRel(c, st1, st2, link, CareTo(inputs, k, names, lets));
    }
  }

  /** Running the code of a harmless input changes nothing the replay relies on. */
  lemma HarmlessRun(inputs: seq<Input>, k: nat, names: set<string>, lets: set<string>, env: Env, st: Store,
                    quiet: bool, fuel: nat)
    requires k < |inputs| && Harmless(inputs, k, names) && TidyStore(st, LitsTo(inputs, k))
    requires Eval(CodeAt(inputs, k), env, st, quiet, fuel).Done?
    ensures StaysPut(inputs, k, names, lets, st, Eval(CodeAt(inputs, k), env, st, quiet, fuel).store)
  {
    hide Eval, TidyStore, Writes, Kept, LitWrites;
    var e := CodeAt(inputs, k);
    var st' := Eval(e, env, st, quiet, fuel).store;
    LitsGrow(inputs, k, k + 1);
    TidyMore(st, LitsTo(inputs, k), LitsTo(inputs, k + 1));
    forall c | 0 <= c < |st| && Relied(inputs, k, names, lets, st[c].name) ensures st'[c] == st[c] {
      var x := st[c].name;
      if Kept(inputs, names, x) {
        assert Spares(inputs, k, x);
        SparedRun(inputs, k, env, st, quiet, fuel, x);
      } else {
        LitWritesLess(inputs, k + 1, x);
        UnwrittenShy(inputs, k + 1, st, x);
        Frame(e, env, st, quiet, fuel, x, Mutating);
      }
    }
  }

  lemma LitWritesLess(inputs: seq<Input>, k: nat, x: string)
    requires !LitWrites(inputs, |inputs|, x)
    ensures !LitWrites(inputs, k, x)
  {
    forall l | HasLit(inputs, k, l) ensures HasLit(inputs, |inputs|, l) {
    }
  }

  /** A variable an input spares is not changed by running its code. */
  lemma SparedRun(inputs: seq<Input>, k: nat, env: Env, st: Store, quiet: bool, fuel: nat, x: string)
    requires k < |inputs| && Spares(inputs, k, x) && TidyStore(st, LitsTo(inputs, k + 1))
    requires Eval(CodeAt(inputs, k), env, st, quiet, fuel).Done?
    ensures var st' := Eval(CodeAt(inputs, k), env, st, quiet, fuel).store;
            |st| <= |st'| && forall c :: 0 <= c < |st| && st[c].name == x ==> st'[c] == st[c]
  {
    var e := CodeAt(inputs, k);
    if !Writes(e, x, Calling) {
      LitsShy(LitsTo(inputs, k + 1), st, x, Calling);
      Frame(e, env, st, quiet, fuel, x, Calling);
    } else {
      UnwrittenShy(inputs, k + 1, st, x);
      Frame(e, env, st, quiet, fuel, x, Mutating);
    }
  }

  /** Running the code of a replayed input leaves the slots the replay does not write as they are. */
  lemma SteadyRun(inputs: seq<Input>, k: nat, vars: seq<VarSlot>, slots: seq<Word>, lets: set<string>,
                  env: Env, st: Store, fuel: nat)
    requires k < |inputs| && |vars| <= |st| && TidyStore(st, LitsTo(inputs, k))
    requires IsReplayed(inputs[k], Names(vars), lets)
    requires forall j :: 0 <= j < |vars| ==> st[j].name == vars[j].name
    requires SteadySlots(inputs, vars, slots, lets, st)
    requires Eval(CodeAt(inputs, k), env, st, true, fuel).Done?
    ensures SteadySlots(inputs, vars, slots, lets, Eval(CodeAt(inputs, k), env, st, true, fuel).store)
  {
    hide Eval, TidyStore, Writes, LitWrites;
    var st' := Eval(CodeAt(inputs, k), env, st, true, fuel).store;
    forall j | 0 <= j < |vars| <= |st'| && vars[j].idx < |slots| && !Stirred(inputs, Names(vars), lets, vars[j].name)
      ensures st'[j].value == IntV(slots[vars[j].idx])
    {
      LitsGrow(inputs, k, |inputs|);
      TidyMore(st, LitsTo(inputs, k), LitsTo(inputs, |inputs|));
      UnwrittenShy(inputs, |inputs|, st, vars[j].name);
      Frame(CodeAt(inputs, k), env, st, true, fuel, vars[j].name, Mutating);
    }
  }

  /** Of a name no nested variable has, running an input's code makes no new cell. */
  lemma NoNewCells(inputs: seq<Input>, k: nat, env: Env, st: Store, quiet: bool, fuel: nat, x: string)
    requires k < |inputs| && TidyStore(st, LitsTo(inputs, k)) && !Touched(inputs, x, Declaring)
    requires Eval(CodeAt(inputs, k), env, st, quiet, fuel).Done?
    ensures var st' := Eval(CodeAt(inputs, k), env, st, quiet, fuel).store;
            forall c :: |st| <= c < |st'| ==> st'[c].name != x
  {
    UndeclaredShy(inputs, k, st, x);
    Frame(CodeAt(inputs, k), env, st, quiet, fuel, x, Declaring);
  }

  /** After an input's code has run, still only current cells are linked. */
  lemma OwnLinksLater(inputs: seq<Input>, k: nat, names: set<string>, p: Top, st2: Store, st': Store,
                      link: Link, link': Link, fuel: nat)
    requires k < |inputs| && p.Going? && TidyStore(p.st, LitsTo(inputs, k))
    requires OwnLinks(inputs, names, p.env, p.st, link) && Extends(link, link', p.st, st2)
    requires forall c :: c in link ==> c < |p.st|
    requires var r := Eval(CodeAt(inputs, k), p.env, p.st, false, fuel); r.Done? && st' == r.store
    ensures OwnLinks(inputs, names, p.env, st', link')
  {
    hide Eval, TidyStore;
    forall c | c in link' && c < |st'| && st'[c].name in names && !Touched(inputs, st'[c].name, Declaring)
      ensures st'[c].name in p.env && p.env[st'[c].name] == c
    {
      NoNewCells(inputs, k, p.env, p.st, false, fuel, st'[c].name);
      if c in link { assert p.st[c].name == st'[c].name; }
    }
  }

  /** The links after a `let` of `x`: its new cell `c` takes over cell `i` from its old one. */
  function Relink(link: Link, env: Env, x: string, c: nat, i: nat): Link {
    (map d | d in link && !(x in env && d == env[x]) :: link[d])[c := i]
  }

  lemma RelinkScopes(vars: seq<VarSlot>, i: nat, env1: Env, st1: Store, env2: Env, st2: Store, st1': Store, link: Link)
    requires i < |vars| && Grows(st1, st1') && TidyEnv(env1, st1)
    requires EnvRel(env1, env2, link) && SlotLinks(vars, env1, link) && SlotsInPlace(vars, env2, st2)
    requires OneToOne(link) && forall c :: c in link ==> c < |st1'|
    ensures var x := vars[i].name; var link', env1' := Relink(link, env1, x, |st1'|, i), env1[x := |st1'|];
            OneToOne(link') && EnvRel(env1', env2, link') && SlotLinks(vars, env1', link')
  {
    var x := vars[i].name;
    var link' := Relink(link, env1, x, |st1'|, i);
    forall c, d | c in link' && d in link' && link'[c] == link'[d] ensures c == d {
      assert forall b :: b in link && link[b] == i ==> x in env1 && b == env1[x];
    }
    forall y | y in env1 && y != x ensures env1[y] in link' && link'[env1[y]] == env2[y] {
      assert Bound(y, env1, st1) && (x in env1 ==> Bound(x, env1, st1));
    }
  }

  lemma RelinkOwn(inputs: seq<Input>, names: set<string>, env: Env, st: Store, v: Value, link: Link, x: string, i: nat)
    requires OwnLinks(inputs, names, env, st, link) && forall c :: c in link ==> c < |st|
    ensures OwnLinks(inputs, names, env[x := |st|], Alloc(st, x, v), Relink(link, env, x, |st|, i))
  {
  }

  lemma CellsInRange(st1: Store, st2: Store, link: Link, care: Care)
    requires StoreRel(st1, st2, link, care)
    ensures OneToOne(link) && forall c :: c in link ==> c < |st1|
  {
    forall c | c in link ensures c < |st1| { assert CellRel(c, st1, st2, link, care); }
  }

  /** A `let` of a slot variable: the program's new cell takes over the slot's cell. */
  lemma BindSlot(inputs: seq<Input>, k: nat, n: nat, i: nat, vars: seq<VarSlot>, slots: seq<Word>, lets: set<string>,
                 st: Store, v: Value, w: Top, link: Link, fuel: nat) returns (link': Link)
    requires Setting(inputs, n, vars, slots, lets, fuel) && k < |inputs| && k < n && i < |vars|
    requires Declares(inputs[k], vars[i].name) && WrapperTidy(inputs, k + 1, vars, slots, lets, w)
    requires var p, q := Program(inputs[..k], fuel), Program(inputs[..k + 1], fuel);
             && p.Going? && q.Going? && Grows(p.st, st)
             && q.st == Alloc(st, vars[i].name, v) && q.env == p.env[vars[i].name := |st|]
             && EnvRel(p.env, w.env, link) && SlotLinks(vars, p.env, link)
             && OwnLinks(inputs, Names(vars), p.env, st, link)
    requires StoreRel(st, w.st, link, CareAt(inputs, k, Names(vars), lets, true))
    ensures Drafted(inputs, k, vars, slots, lets, Program(inputs[..k + 1], fuel), w, link')
  {
    hide Program, RunTop, Setting, Grows, ClosuresTame, TidyStore, TidyEnv, EnvRel, SteadySlots, SlotLinks,
         OneToOne, CellRel, ValRel, Relink, SlotsInPlace, LitsTo, VolatileAt, OwnLinks, Names;
    var p, care := Program(inputs[..k], fuel), CareAt(inputs, k, Names(vars), lets, true);
    link' := Relink(link, p.env, vars[i].name, |st|, i);
    SettingParts(inputs, n, vars, slots, lets, fuel);
    ProgramTidy(inputs, k, fuel);
    CellsInRange(st, w.st, link, care);
    RelinkScopes(vars, i, p.env, p.st, w.env, w.st, st, link);
    RelinkOwn(inputs, Names(vars), p.env, st, v, link, vars[i].name, i);
    forall c | c in link' ensures CellRel(c, Alloc(st, vars[i].name, v), w.st, link', care) {
      BindSlotCell(inputs, k, n, i, vars, slots, lets, st, v, w, link, c, fuel);
    }
  }

  lemma BindSlotCell(inputs: seq<Input>, k: nat, n: nat, i: nat, vars: seq<VarSlot>, slots: seq<Word>,
                     lets: set<string>, st: Store, v: Value, w: Top, link: Link, c: nat, fuel: nat)
    requires Setting(inputs, n, vars, slots, lets, fuel) && k < |inputs| && k < n && i < |vars|
    requires Declares(inputs[k], vars[i].name)
    requires var p, q := Program(inputs[..k], fuel), Program(inputs[..k + 1], fuel);
             && p.Going? && q.Going? && Grows(p.st, st)
             && q.st == Alloc(st, vars[i].name, v) && q.env == p.env[vars[i].name := |st|]
    requires WrapperTidy(inputs, k + 1, vars, slots, lets, w)
    requires StoreRel(st, w.st, link, CareAt(inputs, k, Names(vars), lets, true))
    requires c in Relink(link, Program(inputs[..k], fuel).env, vars[i].name, |st|, i)
    ensures CellRel(c, Alloc(st, vars[i].name, v), w.st,
                    Relink(link, Program(inputs[..k], fuel).env, vars[i].name, |st|, i),
                    CareAt(inputs, k, Names(vars), lets, true))
  {
    hide Program, RunTop, Setting, Grows, ClosuresTame, ValRel, LitsTo, VolatileAt, EnvRel, Stirred;
    var p, care := Program(inputs[..k], fuel), CareAt(inputs, k, Names(vars), lets, true);
    var link' := Relink(link, p.env, vars[i].name, |st|, i);
    SettingParts(inputs, n, vars, slots, lets, fuel);
    if c == |st| {
      assert BindsInt(inputs, k, Names(vars), fuel);
      if vars[i].name !in VolatileAt(inputs, k, Names(vars), lets) {
        LessVolatile(inputs, k, Names(vars), lets, vars[i].name);
        FinalValue(inputs, k + 1, n, i, vars, slots, lets, fuel);
        SameInt(v, w.st[i].value, link', care);
      }
    } else {
      assert CellRel(c, st, w.st, link, care);
      LinkWithoutOldCell(inputs, k, n, vars, lets, vars[i].name, st, v, w, link, link', c, fuel);
    }
  }

  lemma LessVolatile(inputs: seq<Input>, k: nat, names: set<string>, lets: set<string>, x: string)
    requires x in names && x !in VolatileAt(inputs, k, names, lets)
    ensures x !in VolatileAt(inputs, k + 1, names, lets) && !Stirred(inputs, names, lets, x)
  {
  }

  lemma SameInt(v: Value, w: Value, link: Link, care: Care)
    ensures v.IntV? && v == w ==> ValRel(v, w, link, care)
  {
  }

  /** No closure holds the cell a rebinding retires. */
  lemma OldCellNotHeld(inputs: seq<Input>, k: nat, n: nat, names: set<string>, lets: set<string>, x: string, u: Value,
                       fuel: nat)
    requires k < |inputs| && k < n && Declares(inputs[k], x) && Program(inputs, fuel).Going? && x in names
    requires ClosuresTame(inputs, n, names, lets)
    requires var p, q := Program(inputs[..k], fuel), Program(inputs[..k + 1], fuel);
             && p.Going? && q.Going? && Grows(p.st, q.st) && x in p.env
             && u.CloV? && TidyValue(u, q.st, LitsTo(inputs, k + 1))
    ensures forall y :: y in u.env ==> u.env[y] != Program(inputs[..k], fuel).env[x]
  {
    hide VolatileAt, Program, RunTop, TidyStore, Touched;
    var p, q := Program(inputs[..k], fuel), Program(inputs[..k + 1], fuel);
    ProgramTidy(inputs, k, fuel);
    assert Redeclares(inputs, k, x);
    var i :| 0 <= i < k + 1 && i < |inputs| && IsLit(u.lambda, CodeAt(inputs, i));
    assert RedeclaredBetween(inputs, i, n, x);
    assert !Captures(u.lambda, x);
    forall y | y in u.env ensures u.env[y] != p.env[x] {
      assert Bound(y, u.env, q.st) && Bound(x, p.env, p.st);
    }
  }

  /** No linked value refers to the cell a rebinding retires. */
  lemma LinkWithoutOldCell(inputs: seq<Input>, k: nat, n: nat, vars: seq<VarSlot>, lets: set<string>, x: string,
                           st: Store, v: Value, w: Top, link: Link, link': Link, c: nat, fuel: nat)
    requires k < |inputs| && k < n && Declares(inputs[k], x) && Program(inputs, fuel).Going? && x in Names(vars)
    requires ClosuresTame(inputs, n, Names(vars), lets)
    requires var p, q := Program(inputs[..k], fuel), Program(inputs[..k + 1], fuel);
             && p.Going? && q.Going? && Grows(p.st, st) && q.st == Alloc(st, x, v)
    requires w.Going? && c in link && c < |st| && CellRel(c, st, w.st, link, CareAt(inputs, k, Names(vars), lets, true))
    requires var p := Program(inputs[..k], fuel);
             forall d :: d in link && !(x in p.env && d == p.env[x]) ==> d in link' && link'[d] == link[d]
    requires c in link' && link'[c] == link[c]
    ensures CellRel(c, Program(inputs[..k + 1], fuel).st, w.st, link', CareAt(inputs, k, Names(vars), lets, true))
  {
    hide VolatileAt, Program, RunTop, ClosuresTame, TidyStore, LitsTo, Names;
    var p, q := Program(inputs[..k], fuel), Program(inputs[..k + 1], fuel);
    ProgramTidy(inputs, k + 1, fuel);
    GrowsAlloc(p.st, st, x, v);
    var u := q.st[c].value;
    TidyCell(q.st, c, LitsTo(inputs, k + 1));
    if u.CloV? && x in p.env {
      OldCellNotHeld(inputs, k, n, Names(vars), lets, x, u, fuel);
    }
  }

  lemma GrowsAlloc(st: Store, st': Store, x: string, v: Value)
    requires Grows(st, st')
    ensures Grows(st, Alloc(st', x, v))
  {
  }

  lemma TidyCell(st: Store, c: nat, known: iset<Lambda>)
    requires TidyStore(st, known) && c < |st|
    ensures TidyValue(st[c].value, st, known)
  {
  }

  /** One replayed statement keeps the wrapper's own discipline. */
  lemma WrapperStep(inputs: seq<Input>, k: nat, vars: seq<VarSlot>, slots: seq<Word>, lets: set<string>, s: Stmt,
                    w: Top, fuel: nat)
    requires k < |inputs| && Code(s) == CodeAt(inputs, k) && IsReplayed(inputs[k], Names(vars), lets)
    requires s.Let? ==> s.name !in Names(vars)
    requires WrapperTidy(inputs, k, vars, slots, lets, w)
    requires ExecStmt(s, w.env, w.st, true, fuel).Done?
    ensures var r := ExecStmt(s, w.env, w.st, true, fuel);
            forall t: Top :: t.Going? && t.env == EnvAfter(s, w.env, r.store) && t.st == r.store ==>
              WrapperTidy(inputs, k + 1, vars, slots, lets, t)
  {
    hide Eval, TidyStore, TidyEnv, Knows, Closed, LitsTo, VolatileAt, Stirred;
    LitsClosed(inputs, k + 1);
    LitsGrow(inputs, k, k + 1);
    TidyMore(w.st, LitsTo(inputs, k), LitsTo(inputs, k + 1));
    TidyStmt(s, w.env, w.st, true, fuel, LitsTo(inputs, k + 1));
    SteadyRun(inputs, k, vars, slots, lets, w.env, w.st, fuel);
    forall j | 0 <= j < |vars| ensures vars[j].name in Names(vars) {
    }
  }

  lemma WrapperIdles(inputs: seq<Input>, k: nat, vars: seq<VarSlot>, slots: seq<Word>, lets: set<string>, w: Top)
    requires WrapperTidy(inputs, k, vars, slots, lets, w)
    ensures WrapperTidy(inputs, k + 1, vars, slots, lets, w)
  {
    LitsGrow(inputs, k, k + 1);
    TidyMore(w.st, LitsTo(inputs, k), LitsTo(inputs, k + 1));
  }

  /** A statement is replayed as it stands, or without the binding of a slot variable. */
  lemma KeptForm(s: Stmt, names: set<string>, lets: set<string>)
    requires RewriteForReplay(s, names, lets).Some?
    ensures var kept := RewriteForReplay(s, names, lets).value;
            && Code(kept) == Code(s)
            && (kept == s || (s.Let? && s.name in names && kept.Expression?))
            && (kept.Let? ==> kept == s && s.name !in names)
  {
  }

  /** Whatever the next input is, the wrapper keeps its discipline through the replay of it. */
  lemma WrapperGoesOn(inputs: seq<Input>, k: nat, vars: seq<VarSlot>, slots: seq<Word>, lets: set<string>, fuel: nat)
    requires k < |inputs| && GoodVars(vars, slots) && Replayed(inputs, k + 1, vars, slots, lets, fuel).Going?
    requires Replayed(inputs, k, vars, slots, lets, fuel).Going?
    requires WrapperTidy(inputs, k, vars, slots, lets, Replayed(inputs, k, vars, slots, lets, fuel))
    ensures WrapperTidy(inputs, k + 1, vars, slots, lets, Replayed(inputs, k + 1, vars, slots, lets, fuel))
  {
    hide Replayed, ExecStmt, WrapperTidy, Stirred, LitsTo;
    ReplayedStep(inputs, k, vars, slots, lets, fuel);
    var w := Replayed(inputs, k, vars, slots, lets, fuel);
    if IsReplayed(inputs[k], Names(vars), lets) {
      KeptForm(StmtOf(inputs[k]), Names(vars), lets);
      WrapperStep(inputs, k, vars, slots, lets, RewriteForReplay(StmtOf(inputs[k]), Names(vars), lets).value, w, fuel);
    } else {
      WrapperIdles(inputs, k, vars, slots, lets, w);
    }
  }

  lemma NothingMoves(inputs: seq<Input>, k: nat, names: set<string>, lets: set<string>, st: Store)
    ensures Grows(st, st) && StaysPut(inputs, k, names, lets, st, st)
  {
  }

  lemma RebuiltParts(inputs: seq<Input>, k: nat, vars: seq<VarSlot>, slots: seq<Word>, lets: set<string>,
                     p: Top, w: Top, link: Link)
    requires Rebuilt(inputs, k, vars, slots, lets, p, w, link)
    ensures w.Going? && TidyStore(w.st, LitsTo(inputs, k)) && forall c :: c in link ==> c < |p.st|
  {
  }

  /** What a harmless input does to the two states. */
  lemma HarmlessStep(inputs: seq<Input>, k: nat, vars: seq<VarSlot>, slots: seq<Word>, lets: set<string>, p: Top,
                     w: Top, w': Top, link: Link, fuel: nat)
    requires k < |inputs| && Harmless(inputs, k, Names(vars)) && Rebuilt(inputs, k, vars, slots, lets, p, w, link)
    requires TidyStore(p.st, LitsTo(inputs, k)) && w'.Going?
    requires Eval(CodeAt(inputs, k), p.env, p.st, false, fuel).Done?
    requires w' == w || (var r := Eval(CodeAt(inputs, k), w.env, w.st, true, fuel); r.Done? && w'.st == r.store)
    ensures var st := Eval(CodeAt(inputs, k), p.env, p.st, false, fuel).store;
            && StoreRel(st, w'.st, link, CareAt(inputs, k, Names(vars), lets, true))
            && OwnLinks(inputs, Names(vars), p.env, st, link)
  {
    hide Eval, StoreRel, EnvRel, TidyEnv, TidyStore, SlotsInPlace, SteadySlots, SlotLinks, Harmless, LitsTo, VolatileAt,
         StaysPut;
    RebuiltParts(inputs, k, vars, slots, lets, p, w, link);
    var st := Eval(CodeAt(inputs, k), p.env, p.st, false, fuel).store;
    HarmlessRun(inputs, k, Names(vars), lets, p.env, p.st, false, fuel);
    NothingMoves(inputs, k, Names(vars), lets, w.st);
    if w' != w { HarmlessRun(inputs, k, Names(vars), lets, w.env, w.st, true, fuel); }
    KeepRel(inputs, k, Names(vars), lets, p.st, w.st, st, w'.st, link);
    ExtendsSelf(link, p.st, w.st);
    OwnLinksLater(inputs, k, Names(vars), p, w.st, st, link, link, fuel);
  }

  /** A harmless input: no link need change, except that a `let` binds its slot. */
  lemma RebuildHarmless(inputs: seq<Input>, k: nat, n: nat, vars: seq<VarSlot>, slots: seq<Word>, lets: set<string>,
                        fuel: nat, link: Link) returns (link': Link)
    requires Setting(inputs, n, vars, slots, lets, fuel) && k < |inputs| && k < n && Harmless(inputs, k, Names(vars))
    requires Replayed(inputs, k + 1, vars, slots, lets, fuel).Going?
    requires Rebuilt(inputs, k, vars, slots, lets, Program(inputs[..k], fuel),
                     Replayed(inputs, k, vars, slots, lets, fuel), link)
    ensures Rebuilt(inputs, k + 1, vars, slots, lets, Program(inputs[..k + 1], fuel),
                    Replayed(inputs, k + 1, vars, slots, lets, fuel), link')
  {
    hide Program, RunTop, Replayed, Setting, StoreRel, EnvRel, TidyStore, TidyEnv, WrapperTidy, SlotLinks, OwnLinks,
         LiveLinks, Grows, Eval, VolatileAt, LitsTo;
    SettingParts(inputs, n, vars, slots, lets, fuel);
    ProgramPrefix(inputs, k + 1, fuel);
    ProgramStep(inputs, k, fuel);
    ProgramTidy(inputs, k, fuel);
    ReplayedStep(inputs, k, vars, slots, lets, fuel);
    WrapperGoesOn(inputs, k, vars, slots, lets, fuel);
    var s := StmtOf(inputs[k]);
    var p, w := Program(inputs[..k], fuel), Replayed(inputs, k, vars, slots, lets, fuel);
    var q, w' := Program(inputs[..k + 1], fuel), Replayed(inputs, k + 1, vars, slots, lets, fuel);
    var r := Eval(Code(s), p.env, p.st, false, fuel);
    HarmlessKept(inputs, k, vars, slots, lets, fuel);
    HarmlessStep(inputs, k, vars, slots, lets, p, w, w', link, fuel);
    link' := link;
    if s.Let? {
      var i :| 0 <= i < |vars| && vars[i].name == s.name;
      link' := BindSlot(inputs, k, n, i, vars, slots, lets, r.store, r.value, w', link, fuel);
    }
    link' := Settle(inputs, k, n, vars, slots, lets, w', link', fuel);
  }

  /** A harmless input is replayed as a bare expression, or not at all. */
  lemma HarmlessKept(inputs: seq<Input>, k: nat, vars: seq<VarSlot>, slots: seq<Word>, lets: set<string>, fuel: nat)
    requires k < |inputs| && GoodVars(vars, slots) && (inputs[k].LetIn? ==> inputs[k].name in Names(vars))
    requires Replayed(inputs, k + 1, vars, slots, lets, fuel).Going?
    ensures var w, w' := Replayed(inputs, k, vars, slots, lets, fuel), Replayed(inputs, k + 1, vars, slots, lets, fuel);
            && w.Going?
            && (w' == w || (var r := Eval(CodeAt(inputs, k), w.env, w.st, true, fuel);
                            r.Done? && w'.st == r.store && w'.env == w.env))
  {
    hide Replayed, Eval;
    ReplayedStep(inputs, k, vars, slots, lets, fuel);
    if IsReplayed(inputs[k], Names(vars), lets) { KeptForm(StmtOf(inputs[k]), Names(vars), lets); }
  }

  /** A faithful input: the replay does what the program did. */
  lemma RebuildFaithful(inputs: seq<Input>, k: nat, n: nat, vars: seq<VarSlot>, slots: seq<Word>, lets: set<string>,
                        fuel: nat, link: Link) returns (link': Link)
    requires Setting(inputs, n, vars, slots, lets, fuel) && k < |inputs| && k < n
    requires Faithful(inputs, k, Names(vars), lets)
    requires Rebuilt(inputs, k, vars, slots, lets, Program(inputs[..k], fuel),
                     Replayed(inputs, k, vars, slots, lets, fuel), link)
    ensures Replayed(inputs, k + 1, vars, slots, lets, fuel).Going?
    ensures Rebuilt(inputs, k + 1, vars, slots, lets, Program(inputs[..k + 1], fuel),
                    Replayed(inputs, k + 1, vars, slots, lets, fuel), link')
  {
    hide Program, RunTop, Replayed, Setting, StoreRel, EnvRel, TidyStore, TidyEnv, WrapperTidy, SlotLinks, OwnLinks,
         LiveLinks, Stable, Calm, Grows, Eval, Extends, VolatileAt, LitsTo;
    SettingParts(inputs, n, vars, slots, lets, fuel);
    ProgramPrefix(inputs, k + 1, fuel);
    ProgramStep(inputs, k, fuel);
    ProgramTidy(inputs, k, fuel);
    ReplayedStep(inputs, k, vars, slots, lets, fuel);
    var s := StmtOf(inputs[k]);
    var p, w := Program(inputs[..k], fuel), Replayed(inputs, k, vars, slots, lets, fuel);
    var w' := Replayed(inputs, k + 1, vars, slots, lets, fuel);
    var kept := RewriteForReplay(s, Names(vars), lets).value;
    KeptForm(s, Names(vars), lets);
    RebuiltParts(inputs, k, vars, slots, lets, p, w, link);
    var link1 := SimFaithful(inputs, k, vars, lets, p, w, link, fuel);
    var r := Eval(Code(s), p.env, p.st, false, fuel);
    WrapperGoesOn(inputs, k, vars, slots, lets, fuel);
    EnvRelLater(p.env, w.env, link, link1, p.st, w.st);
    OwnLinksLater(inputs, k, Names(vars), p, w.st, r.store, link, link1, fuel);
    SlotLinksLater(inputs, k, vars, slots, lets, p, w, link, link1);
    if kept == s {
      link' := Declare(inputs, k, vars, slots, lets, p, w, r, link1, fuel);
    } else {
      var i :| 0 <= i < |vars| && vars[i].name == s.name;
      link' := BindSlot(inputs, k, n, i, vars, slots, lets, r.store, r.value, w', link1, fuel);
    }
    link' := Settle(inputs, k, n, vars, slots, lets, w', link', fuel);
  }

  /** Running the code of a faithful input on both sides. */
  lemma SimFaithful(inputs: seq<Input>, k: nat, vars: seq<VarSlot>, lets: set<string>, p: Top, w: Top, link: Link,
                    fuel: nat)
    returns (link': Link)
    requires k < |inputs| && Faithful(inputs, k, Names(vars), lets) && p.Going? && w.Going?
    requires EnvRel(p.env, w.env, link) && StoreRel(p.st, w.st, link, CareTo(inputs, k, Names(vars), lets))
    requires Eval(CodeAt(inputs, k), p.env, p.st, false, fuel).Done?
    ensures var r1 := Eval(CodeAt(inputs, k), p.env, p.st, false, fuel);
            var r2 := Eval(CodeAt(inputs, k), w.env, w.st, true, fuel);
            var care := CareAt(inputs, k, Names(vars), lets, true);
            && r2.Done? && ValRel(r1.value, r2.value, link', care) && StoreRel(r1.store, r2.store, link', care)
    ensures Extends(link, link', p.st, w.st)
  {
    hide Eval, Stable, Calm, VolatileAt, LitsTo, EnvRel, StoreRel, Extends;
    var calls :| Calm(CareAt(inputs, k, Names(vars), lets, calls))
              && Stable(CodeAt(inputs, k), CareAt(inputs, k, Names(vars), lets, calls));
    var care := CareAt(inputs, k, Names(vars), lets, calls);
    LitsGrow(inputs, k, k + 1);
    RelFrom(p.st, w.st, link, CareTo(inputs, k, Names(vars), lets), care);
    link' := Sim(CodeAt(inputs, k), p.env, p.st, w.env, w.st, link, care, true, fuel);
    var r1 := Eval(CodeAt(inputs, k), p.env, p.st, false, fuel);
    var r2 := Eval(CodeAt(inputs, k), w.env, w.st, true, fuel);
    RelFrom(r1.store, r2.store, link', care, CareAt(inputs, k, Names(vars), lets, true));
  }

  /** What is hidden must stay hidden; more literals may be allowed. */
  lemma RelFrom(st1: Store, st2: Store, link: Link, care: Care, care': Care)
    requires StoreRel(st1, st2, link, care) && care.hidden <= care'.hidden && care.lits <= care'.lits
    ensures StoreRel(st1, st2, link, care')
  {
    forall c | c in link ensures CellRel(c, st1, st2, link, care') { assert CellRel(c, st1, st2, link, care); }
  }

  /** Cells allocated after the slots' do not become slot cells. */
  lemma SlotLinksLater(inputs: seq<Input>, k: nat, vars: seq<VarSlot>, slots: seq<Word>, lets: set<string>,
                       p: Top, w: Top, link: Link, link': Link)
    requires Rebuilt(inputs, k, vars, slots, lets, p, w, link) && Extends(link, link', p.st, w.st)
    ensures SlotLinks(vars, p.env, link')
  {
  }

  /** A statement replayed as it stands: a `let` declares the variable on both sides. */
  lemma Declare(inputs: seq<Input>, k: nat, vars: seq<VarSlot>, slots: seq<Word>, lets: set<string>, p: Top, w: Top,
                r: Outcome, link: Link, fuel: nat) returns (link': Link)
    requires k < |inputs| && p.Going? && WrapperTidy(inputs, k, vars, slots, lets, w)
    requires inputs[k].LetIn? ==> inputs[k].name !in Names(vars)
    requires r == Eval(CodeAt(inputs, k), p.env, p.st, false, fuel) && r.Done?
    requires var care := CareAt(inputs, k, Names(vars), lets, true);
             var r2 := Eval(CodeAt(inputs, k), w.env, w.st, true, fuel);
             r2.Done? && ValRel(r.value, r2.value, link, care) && StoreRel(r.store, r2.store, link, care)
    requires EnvRel(p.env, w.env, link) && SlotLinks(vars, p.env, link)
             && OwnLinks(inputs, Names(vars), p.env, r.store, link)
    ensures var s := StmtOf(inputs[k]);
            var q, w' := ExecStmt(s, p.env, p.st, false, fuel), ExecStmt(s, w.env, w.st, true, fuel);
            && q.Done? && w'.Done?
            && var env := EnvAfter(s, p.env, q.store);
               && EnvRel(env, EnvAfter(s, w.env, w'.store), link')
               && StoreRel(q.store, w'.store, link', CareAt(inputs, k, Names(vars), lets, true))
               && SlotLinks(vars, env, link') && OwnLinks(inputs, Names(vars), env, q.store, link')
  {
    hide Eval, StoreRel, EnvRel, ValRel, VolatileAt, LitsTo, TidyStore, TidyEnv, SteadySlots;
    link' := link;
    if inputs[k].LetIn? {
      var r2 := Eval(CodeAt(inputs, k), w.env, w.st, true, fuel);
      var care := CareAt(inputs, k, Names(vars), lets, true);
      CellsInRange(r.store, r2.store, link, care);
      link' := LinkLet(inputs[k].name, p.env, r.store, r.value, w.env, r2.store, r2.value, link, care);
      NoSlotLink(inputs, vars, inputs[k].name, p.env, r.store, r.value, r2.store, link, link');
    }
  }

  lemma NoSlotLink(inputs: seq<Input>, vars: seq<VarSlot>, x: string, env: Env, st: Store, v: Value, st2: Store,
                   link: Link, link': Link)
    requires x !in Names(vars) && SlotLinks(vars, env, link) && OwnLinks(inputs, Names(vars), env, st, link)
    requires |vars| <= |st2| && Extends(link, link', st, st2) && forall c :: c in link ==> c < |st|
    ensures SlotLinks(vars, env[x := |st|], link')
    ensures OwnLinks(inputs, Names(vars), env[x := |st|], Alloc(st, x, v), link')
  {
    forall c | c in link' && link'[c] < |vars|
      ensures vars[link'[c]].name in env && env[vars[link'[c]].name] == c && vars[link'[c]].name != x
    {
      assert vars[link'[c]].name in Names(vars);
    }
  }

  lemma RebuildStart(inputs: seq<Input>, n: nat, vars: seq<VarSlot>, slots: seq<Word>, lets: set<string>, fuel: nat)
    requires Setting(inputs, n, vars, slots, lets, fuel)
    ensures Rebuilt(inputs, 0, vars, slots, lets, Program(inputs[..0], fuel),
                    Replayed(inputs, 0, vars, slots, lets, fuel), map[])
  {
    hide Exact, ClosuresTame, Stirred, VolatileAt, LitsTo;
    LoadedEnvAt(vars);
  }

  /** Replaying the rewritten history rebuilds, cell by cell, what running the inputs once built:
      every variable without a slot, and every slot variable that does not change any more. */
  lemma {:induction false} Rebuild(inputs: seq<Input>, k: nat, n: nat, vars: seq<VarSlot>, slots: seq<Word>,
                                   lets: set<string>, fuel: nat) returns (link: Link)
    requires Setting(inputs, n, vars, slots, lets, fuel) && k <= n && k <= |inputs|
    requires Replayed(inputs, k, vars, slots, lets, fuel).Going?
    ensures Rebuilt(inputs, k, vars, slots, lets, Program(inputs[..k], fuel),
                    Replayed(inputs, k, vars, slots, lets, fuel), link)
    decreases k
  {
    hide Program, RunTop, Replayed, Rebuilt, Setting, GoodVars, SlotsAgree, Harmless, Faithful, ExecStmt;
    SettingParts(inputs, n, vars, slots, lets, fuel);
    if k == 0 {
      link := map[];
      RebuildStart(inputs, n, vars, slots, lets, fuel);
    } else {
      ReplayedStep(inputs, k - 1, vars, slots, lets, fuel);
      link := Rebuild(inputs, k - 1, n, vars, slots, lets, fuel);
      assert Exact(inputs, k - 1, Names(vars), lets);
      if Harmless(inputs, k - 1, Names(vars)) {
        link := RebuildHarmless(inputs, k - 1, n, vars, slots, lets, fuel, link);
      } else {
        link := RebuildFaithful(inputs, k - 1, n, vars, slots, lets, fuel, link);
      }
    }
  }
}
