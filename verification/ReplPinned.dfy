/** The rest of a history, once replay is no longer exact: the replay does what those inputs do when every
    variable with a slot is pinned to the value its slot holds now. */
module ReplPinned {
  import opened Common
  import opened ReplSyntax
  import opened ReplSemantics
  import opened ReplFrames
  import opened ReplSimulation
  import opened ReplSession
  import opened ReplReplay
  import opened ReplRuns
  import opened ReplTheorems
  import opened ReplLosses
  import opened ReplReads

  // ---------------------------------------------------------------------------------------
  // Running inputs on pinned variables.
  // ---------------------------------------------------------------------------------------

  /** A variable with a slot comes into scope with its slot's value. */
  function Pin(inp: Input, env: Env, st: Store, at: map<string, Word>): Top {
    if inp.LetIn? && inp.name in at && inp.name !in env then
      Going(env[inp.name := |st|], Alloc(st, inp.name, IntV(at[inp.name])), UnitV, [])
    else Going(env, st, UnitV, [])
  }

  /** What is left of an input when variables with slots are not bound anew. */
  function PinnedStep(inp: Input, env: Env, st: Store, at: map<string, Word>, names: set<string>, lets: set<string>,
                      fuel: nat): Top
  {
    if IsReplayed(inp, names, lets) then
      var kept := RewriteForReplay(StmtOf(inp), names, lets).value;
      match ExecStmt(kept, env, st, false, fuel)
      case Done(_, st1, _) => Pin(inp, EnvAfter(kept, env, st1), st1, at)
      case Returned(st1, o) => Ended(st1, o)
      case Fail => Broken
    else Pin(inp, env, st, at)
  }

  /** The inputs from the `k`-th to before the `j`-th, from the program's state before them with the slots' values. */
  function Pinned(inputs: seq<Input>, k: nat, j: nat, vars: seq<VarSlot>, slots: seq<Word>, lets: set<string>,
                  fuel: nat): Top
    requires k <= j <= |inputs|
    decreases j
  {
    if j == k then
      match Program(inputs[..k], fuel)
      case Going(env, st, v, o) => Going(env, Today(SlotInts(vars, slots), env, st), v, o)
      case other => other
    else
      match Pinned(inputs, k, j - 1, vars, slots, lets, fuel)
      case Going(env, st, _, _) =>
        PinnedStep(inputs[j - 1], env, st, SlotInts(vars, slots), Names(vars), lets, fuel)
      case other => other
  }

  // ---------------------------------------------------------------------------------------
  // The replay does the same.
  // ---------------------------------------------------------------------------------------

  ghost function PinCare(inputs: seq<Input>, names: set<string>, lets: set<string>, calls: bool): Care {
    CareFor(inputs, |inputs|, names, lets, calls)
  }

  /** From the `k`-th on, the inputs that are replayed read no slot variable that the replay writes, except to
      update it; nor do closures, if any is called. They may read all others, whether these change or not. */
  ghost predicate RereadsFrom(inputs: seq<Input>, k: nat, names: set<string>, lets: set<string>, calls: bool) {
    && Calm(PinCare(inputs, names, lets, calls))
    && forall j :: k <= j < |inputs| && IsReplayed(inputs[j], names, lets) ==>
         Stable(CodeAt(inputs, j), PinCare(inputs, names, lets, calls))
  }

  ghost predicate PinnedRel(inputs: seq<Input>, j: nat, vars: seq<VarSlot>, slots: seq<Word>, lets: set<string>,
                            r: Top, w: Top, link: Link, calls: bool)
  {
    && r.Going? && WrapperTidy(inputs, j, vars, slots, lets, w)
    && EnvRel(r.env, w.env, link) && StoreRel(r.st, w.st, link, PinCare(inputs, Names(vars), lets, calls))
    && SlotLinks(vars, r.env, link)
  }

  lemma PinnedStart(inputs: seq<Input>, k: nat, vars: seq<VarSlot>, slots: seq<Word>, lets: set<string>, fuel: nat,
                    calls: bool) returns (link: Link)
    requires Setting(inputs, k, vars, slots, lets, fuel) && k <= |inputs| && Unshadowed(inputs, Names(vars))
    requires Replayed(inputs, k, vars, slots, lets, fuel).Going?
    ensures PinnedRel(inputs, k, vars, slots, lets, Pinned(inputs, k, k, vars, slots, lets, fuel),
                      Replayed(inputs, k, vars, slots, lets, fuel), link, calls)
  {
    hide Program, Replayed, Setting, EnvRel, StoreRel, WrapperTidy, SlotLinks, OwnLinks, LiveLinks, Today, SlotInts,
         Unshadowed, LitsTo, Stirred;
    SettingParts(inputs, k, vars, slots, lets, fuel);
    link := Rebuild(inputs, k, k, vars, slots, lets, fuel);
    var p, w := Program(inputs[..k], fuel), Replayed(inputs, k, vars, slots, lets, fuel);
    TodayIsLoaded(inputs, k, vars, slots, lets, p, w, link, calls);
    LitsGrow(inputs, k + 1, |inputs| + 1);
    RelFrom(Today(SlotInts(vars, slots), p.env, p.st), w.st, link, CareFor(inputs, k, Names(vars), lets, calls),
            PinCare(inputs, Names(vars), lets, calls));
  }

  /** A new variable with a slot is linked to the slot's cell. */
  lemma PinLinks(inputs: seq<Input>, j: nat, vars: seq<VarSlot>, slots: seq<Word>, lets: set<string>, x: string,
                 r: Top, w: Top, link: Link, calls: bool) returns (link': Link)
    requires GoodVars(vars, slots) && PinnedRel(inputs, j, vars, slots, lets, r, w, link, calls)
    requires x in SlotInts(vars, slots) && x !in r.env
    ensures var st := Alloc(r.st, x, IntV(SlotInts(vars, slots)[x]));
            PinnedRel(inputs, j, vars, slots, lets, Going(r.env[x := |r.st|], st, UnitV, []), w, link', calls)
  {
    hide StoreRel, EnvRel, SlotLinks, TidyEnv, TidyStore, SlotsInPlace, SteadySlots, PinCare, SlotInts;
    var care := PinCare(inputs, Names(vars), lets, calls);
    var i := SlotOf(vars, slots, x);
    link' := link[|r.st| := i];
    CellsInRange(r.st, w.st, link, care);
    FreeSlot(vars, r.env, link, i);
    PinnedCell(inputs, j, vars, slots, lets, i, w, calls);
    PinStores(r.st, w.st, link, i, Cell(x, IntV(SlotInts(vars, slots)[x])), care);
    PinScopes(vars, i, r.env, |r.st|, w.env, link);
  }

  lemma SlotOf(vars: seq<VarSlot>, slots: seq<Word>, x: string) returns (i: nat)
    requires GoodVars(vars, slots) && x in SlotInts(vars, slots)
    ensures i < |vars| && vars[i].name == x && SlotInts(vars, slots)[x] == slots[vars[i].idx]
  {
    i :| i < |vars| && vars[i].name == x;
    SlotIntAt(vars, slots, i);
  }

  /** The slot's cell, unless the replay writes it, holds what was loaded. */
  lemma PinnedCell(inputs: seq<Input>, j: nat, vars: seq<VarSlot>, slots: seq<Word>, lets: set<string>, i: nat, w: Top,
                   calls: bool)
    requires GoodVars(vars, slots) && WrapperTidy(inputs, j, vars, slots, lets, w) && i < |vars|
    ensures var x := vars[i].name;
            && x in w.env && w.env[x] == i < |w.st| && w.st[i].name == x && w.st[i].value.IntV?
            && (x !in PinCare(inputs, Names(vars), lets, calls).hidden ==> w.st[i].value == IntV(slots[vars[i].idx]))
  {
    hide Stirred, LitsTo, TidyEnv, TidyStore;
    assert vars[i].name in Names(vars);
  }

  lemma PinStores(st1: Store, st2: Store, link: Link, i: nat, cell: Cell, care: Care)
    requires StoreRel(st1, st2, link, care) && (forall c :: c in link ==> c < |st1| && link[c] != i)
    requires i < |st2| && st2[i].name == cell.name && st2[i].value.IntV? && cell.value.IntV?
    requires cell.name !in care.hidden ==> st2[i].value == cell.value
    ensures StoreRel(st1 + [cell], st2, link[|st1| := i], care)
  {
    hide EnvRel;
    var st, link' := st1 + [cell], link[|st1| := i];
    forall c | c in link' ensures CellRel(c, st, st2, link', care) {
      if c != |st1| {
        assert CellRel(c, st1, st2, link, care);
        CellStays(c, st1, st2, st, link, link', care);
      }
    }
  }

  lemma PinScopes(vars: seq<VarSlot>, i: nat, env: Env, n: nat, env2: Env, link: Link)
    requires EnvRel(env, env2, link) && SlotLinks(vars, env, link) && (forall c :: c in link ==> c < n)
    requires i < |vars| && vars[i].name !in env && vars[i].name in env2 && env2[vars[i].name] == i
    ensures EnvRel(env[vars[i].name := n], env2, link[n := i])
    ensures SlotLinks(vars, env[vars[i].name := n], link[n := i])
  {
  }

  lemma FreeSlot(vars: seq<VarSlot>, env: Env, link: Link, i: nat)
    requires SlotLinks(vars, env, link) && i < |vars| && vars[i].name !in env
    ensures forall c :: c in link ==> link[c] != i
  {
  }

  lemma CellStays(c: nat, st1: Store, st2: Store, st: Store, link: Link, link': Link, care: Care)
    requires c in link && CellRel(c, st1, st2, link, care) && st1 <= st
    requires forall d :: d in link ==> d in link' && link'[d] == link[d]
    ensures CellRel(c, st, st2, link', care)
  {
  }

  /** One more input. */
  lemma PinnedGoesOn(inputs: seq<Input>, j: nat, vars: seq<VarSlot>, slots: seq<Word>, lets: set<string>, r: Top,
                     link: Link, calls: bool, fuel: nat) returns (link': Link)
    requires j < |inputs| && GoodVars(vars, slots) && Replayed(inputs, j, vars, slots, lets, fuel).Going?
    requires PinnedRel(inputs, j, vars, slots, lets, r, Replayed(inputs, j, vars, slots, lets, fuel), link, calls)
    requires Calm(PinCare(inputs, Names(vars), lets, calls))
    requires IsReplayed(inputs[j], Names(vars), lets) ==>
               Stable(CodeAt(inputs, j), PinCare(inputs, Names(vars), lets, calls))
    requires PinnedStep(inputs[j], r.env, r.st, SlotInts(vars, slots), Names(vars), lets, fuel).Going?
    ensures Replayed(inputs, j + 1, vars, slots, lets, fuel).Going?
    ensures PinnedRel(inputs, j + 1, vars, slots, lets,
                      PinnedStep(inputs[j], r.env, r.st, SlotInts(vars, slots), Names(vars), lets, fuel),
                      Replayed(inputs, j + 1, vars, slots, lets, fuel), link', calls)
  {
    hide Replayed, EnvRel, StoreRel, WrapperTidy, SlotLinks, SlotInts, ExecStmt, Stable, Calm, PinCare,
         RewriteForReplay;
    var w, w' := Replayed(inputs, j, vars, slots, lets, fuel), Replayed(inputs, j + 1, vars, slots, lets, fuel);
    var care := PinCare(inputs, Names(vars), lets, calls);
    ReplayedStep(inputs, j, vars, slots, lets, fuel);
    link' := link;
    var r1 := r;
    if IsReplayed(inputs[j], Names(vars), lets) {
      KeptForm(StmtOf(inputs[j]), Names(vars), lets);
      var kept := RewriteForReplay(StmtOf(inputs[j]), Names(vars), lets).value;
      link' := SimStmt(kept, r.env, r.st, w.env, w.st, link, care, true, fuel);
      var o := ExecStmt(kept, r.env, r.st, false, fuel);
      r1 := Going(EnvAfter(kept, r.env, o.store), o.store, UnitV, []);
      SlotLinksKept(inputs, j, vars, slots, lets, kept, r, w, link, link', o.store);
    }
    WrapperGoesOn(inputs, j, vars, slots, lets, fuel);
    if inputs[j].LetIn? && inputs[j].name in SlotInts(vars, slots) && inputs[j].name !in r1.env {
      link' := PinLinks(inputs, j + 1, vars, slots, lets, inputs[j].name, r1, w', link', calls);
    }
  }

  /** Cells allocated after the slots' do not become slot cells. */
  lemma SlotLinksKept(inputs: seq<Input>, j: nat, vars: seq<VarSlot>, slots: seq<Word>, lets: set<string>, kept: Stmt,
                      r: Top, w: Top, link: Link, link': Link, st: Store)
    requires r.Going? && WrapperTidy(inputs, j, vars, slots, lets, w) && SlotLinks(vars, r.env, link)
    requires Extends(link, link', r.st, w.st) && (kept.Let? ==> kept.name !in Names(vars))
    ensures SlotLinks(vars, EnvAfter(kept, r.env, st), link')
  {
    hide TidyStore, TidyEnv, SteadySlots;
    forall c | c in link' && link'[c] < |vars|
      ensures vars[link'[c]].name in r.env && r.env[vars[link'[c]].name] == c
      ensures kept.Let? ==> vars[link'[c]].name != kept.name
    {
      assert vars[link'[c]].name in Names(vars);
    }
  }

  lemma {:induction false} PinnedReplays(inputs: seq<Input>, k: nat, j: nat, vars: seq<VarSlot>, slots: seq<Word>,
                                         lets: set<string>, calls: bool, fuel: nat) returns (link: Link)
    requires Setting(inputs, k, vars, slots, lets, fuel) && k <= j <= |inputs| && Unshadowed(inputs, Names(vars))
    requires RereadsFrom(inputs, k, Names(vars), lets, calls)
    requires Replayed(inputs, k, vars, slots, lets, fuel).Going?
    requires Pinned(inputs, k, j, vars, slots, lets, fuel).Going?
    ensures Replayed(inputs, j, vars, slots, lets, fuel).Going?
    ensures PinnedRel(inputs, j, vars, slots, lets, Pinned(inputs, k, j, vars, slots, lets, fuel),
                      Replayed(inputs, j, vars, slots, lets, fuel), link, calls)
    decreases j
  {
    hide Program, Replayed, Setting, PinnedRel, PinnedStep, Today, SlotInts, Unshadowed, PinCare;
    SettingParts(inputs, k, vars, slots, lets, fuel);
    if j == k {
      link := PinnedStart(inputs, k, vars, slots, lets, fuel, calls);
    } else {
      link := PinnedReplays(inputs, k, j - 1, vars, slots, lets, calls, fuel);
      link := PinnedGoesOn(inputs, j - 1, vars, slots, lets, Pinned(inputs, k, j - 1, vars, slots, lets, fuel), link,
                           calls, fuel);
    }
  }

  /** The exact condition for the rest of a history. Let the first `k` inputs replay exactly. If the others run
      through on pinned variables, every later wrapper has in any variable without a slot, unless it is a closure,
      what that run leaves there; so it has what the program has exactly if the run on pinned variables and the
      program's own leave the same. */
  lemma StaleHistoryIff(inputs: seq<Input>, k: nat, inp: Input, s: Sess, v: string, calls: bool, fuel: nat)
    requires IntactTo(inputs, k, inp, s, fuel) && Unshadowed(inputs, NamesFor(inputs, inp))
    requires RereadsFrom(inputs, k, NamesFor(inputs, inp), LetSet(inputs), calls)
    requires var r := Pinned(inputs, k, |inputs|, Probe(s.vars, inp), s.slots, LetSet(inputs), fuel);
             r.Going? && Bound(v, r.env, r.st) && !r.st[r.env[v]].value.CloV? && v !in NamesFor(inputs, inp)
    ensures var r := Pinned(inputs, k, |inputs|, Probe(s.vars, inp), s.slots, LetSet(inputs), fuel);
            var t := Program(inputs, fuel);
            && t.Going? && WrapperSees(s, inp, v, fuel) == ValueIn(v, r.env, r.st)
            && (WrapperSees(s, inp, v, fuel) == ValueIn(v, t.env, t.st) <==>
                ValueIn(v, r.env, r.st) == ValueIn(v, t.env, t.st))
  {
    hide Program, RunW, Replayed, Setting, Prefix, GoodVars, SlotsInPlace, Synced, WrapperSees, Probe, Pinned,
         PrefixCompletes, LetSet, IntactTo, NamesFor, TidyStore, SteadySlots, Unshadowed, RereadsFrom, LitsTo, Stirred;
    var vars, lets := Probe(s.vars, inp), LetSet(inputs);
    IntactParts(inputs, k, inp, s, fuel);
    ReplayEnds(inputs, inp, s, fuel);
    ReplayGoesBack(inputs, k, |inputs|, vars, s.slots, lets, fuel);
    var link := PinnedReplays(inputs, k, |inputs|, vars, s.slots, lets, calls, fuel);
    var r, w := Pinned(inputs, k, |inputs|, vars, s.slots, lets, fuel),
                Replayed(inputs, |inputs|, vars, s.slots, lets, fuel);
    assert CellRel(r.env[v], r.st, w.st, link, PinCare(inputs, Names(vars), lets, calls));
    WrapperSeesReplay(inputs, inp, s, v, fuel);
  }
}
