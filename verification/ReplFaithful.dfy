/** Histories that replay without further assumptions: when every replayed input does in the replay
    what it did in the program, or is code that cannot fail, the replay region also runs to its end. */
module ReplFaithful {
  import opened Common
  import opened ReplSyntax
  import opened ReplSemantics
  import opened ReplFrames
  import opened ReplSimulation
  import opened ReplSession
  import opened ReplKinds
  import opened ReplReplay
  import opened ReplRuns
  import opened ReplTheorems

  /** What type checking knows of the variables in scope; those with a slot are `Int`s. */
  ghost function ScopeOf(p: Top, names: set<string>): Scope
    requires p.Going?
  {
    map x | x in p.env && p.env[x] < |p.st| :: if x in names then IntK else KindOf(p.st[p.env[x]].value)
  }

  /** The `i`-th input is replayed faithfully; or it touches only slot variables, and is left out of the
      replay or cannot fail in it. */
  ghost predicate Completes(inputs: seq<Input>, i: nat, names: set<string>, lets: set<string>, fuel: nat)
    requires i < |inputs|
  {
    || Faithful(inputs, i, names, lets)
    || (&& Harmless(inputs, i, names)
        && (|| !IsReplayed(inputs[i], names, lets)
            || (var p := Program(inputs[..i], fuel);
                p.Going? && Checks(CodeAt(inputs, i), ScopeOf(p, names)).Some?)))
  }

  ghost predicate Steadfast(inputs: seq<Input>, names: set<string>, lets: set<string>, fuel: nat) {
    && ClosuresTame(inputs, |inputs|, names, lets)
    && forall i :: 0 <= i < |inputs| ==> Completes(inputs, i, names, lets, fuel)
  }

  lemma SteadfastIsReplayable(inputs: seq<Input>, names: set<string>, lets: set<string>, fuel: nat)
    requires Steadfast(inputs, names, lets, fuel)
    ensures Replayable(inputs, names, lets)
  {
    hide Faithful, Harmless, ClosuresTame;
    forall i | 0 <= i < |inputs| ensures Exact(inputs, i, names, lets) {
      assert Completes(inputs, i, names, lets, fuel);
    }
  }

  /** In the wrapper, the variables the program has in scope are of the kinds known of them. */
  lemma ScopeFits(inputs: seq<Input>, k: nat, vars: seq<VarSlot>, slots: seq<Word>, lets: set<string>,
                  p: Top, w: Top, link: Link)
    requires Rebuilt(inputs, k, vars, slots, lets, p, w, link) && TidyEnv(p.env, p.st)
    ensures Fits(ScopeOf(p, Names(vars)), w.env, w.st)
  {
    hide TidyStore, SteadySlots, SlotLinks, OwnLinks, LiveLinks, Stirred, ChangedFrom, LitsTo;
    var scope := ScopeOf(p, Names(vars));
    forall x | x in scope ensures Bound(x, w.env, w.st) && KindOf(w.st[w.env[x]].value) == scope[x] {
      assert CellRel(p.env[x], p.st, w.st, link, CareTo(inputs, k, Names(vars), lets)) && Bound(x, p.env, p.st);
      if x in Names(vars) {
        var i :| 0 <= i < |vars| && vars[i].name == x;
      }
    }
  }

  /** Code that cannot fail is replayed to its end. */
  lemma CheckedReplays(inputs: seq<Input>, k: nat, vars: seq<VarSlot>, slots: seq<Word>, lets: set<string>,
                       p: Top, link: Link, fuel: nat)
    requires k < |inputs| && GoodVars(vars, slots) && p.Going? && TidyEnv(p.env, p.st)
    requires Rebuilt(inputs, k, vars, slots, lets, p, Replayed(inputs, k, vars, slots, lets, fuel), link)
    requires Checks(CodeAt(inputs, k), ScopeOf(p, Names(vars))).Some?
    ensures Replayed(inputs, k + 1, vars, slots, lets, fuel).Going?
  {
    hide Replayed, Eval, Checks, Fits, Rebuilt, ScopeOf, TidyEnv;
    var w := Replayed(inputs, k, vars, slots, lets, fuel);
    RebuiltParts(inputs, k, vars, slots, lets, p, w, link);
    ReplayedStep(inputs, k, vars, slots, lets, fuel);
    ScopeFits(inputs, k, vars, slots, lets, p, w, link);
    CheckedRuns(CodeAt(inputs, k), ScopeOf(p, Names(vars)), w.env, w.st, true, fuel);
    if IsReplayed(inputs[k], Names(vars), lets) {
      KeptForm(StmtOf(inputs[k]), Names(vars), lets);
    }
  }

  /** The replay of a steadfast history runs to its end, and rebuilds what the history built. */
  lemma {:induction false} ReplayCompletes(inputs: seq<Input>, k: nat, n: nat, vars: seq<VarSlot>, slots: seq<Word>,
                                           lets: set<string>, fuel: nat) returns (link: Link)
    requires Setting(inputs, n, vars, slots, lets, fuel) && k <= n <= |inputs|
    requires forall i :: 0 <= i < n ==> Completes(inputs, i, Names(vars), lets, fuel)
    ensures Replayed(inputs, k, vars, slots, lets, fuel).Going?
    ensures Rebuilt(inputs, k, vars, slots, lets, Program(inputs[..k], fuel),
                    Replayed(inputs, k, vars, slots, lets, fuel), link)
    decreases k
  {
    hide Program, RunTop, Replayed, GoodVars, SlotsAgree, Harmless, Faithful, Setting, Rebuilt, TidyEnv, TidyStore,
         ExecStmt, ScopeOf, Checks;
    SettingParts(inputs, n, vars, slots, lets, fuel);
    if k == 0 {
      link := map[];
      RebuildStart(inputs, n, vars, slots, lets, fuel);
      RebuiltParts(inputs, 0, vars, slots, lets, Program(inputs[..0], fuel),
                   Replayed(inputs, 0, vars, slots, lets, fuel), link);
    } else {
      link := ReplayCompletes(inputs, k - 1, n, vars, slots, lets, fuel);
      ProgramTidy(inputs, k - 1, fuel);
      ReplayedStep(inputs, k - 1, vars, slots, lets, fuel);
      assert Completes(inputs, k - 1, Names(vars), lets, fuel);
      if Faithful(inputs, k - 1, Names(vars), lets) {
        link := RebuildFaithful(inputs, k - 1, n, vars, slots, lets, fuel, link);
      } else {
        if IsReplayed(inputs[k - 1], Names(vars), lets) {
          CheckedReplays(inputs, k - 1, vars, slots, lets, Program(inputs[..k - 1], fuel), link, fuel);
        }
        link := RebuildHarmless(inputs, k - 1, n, vars, slots, lets, fuel, link);
      }
    }
  }

  /** In step with a program whose history is steadfast, the next wrapper's prefix runs to its end. */
  lemma PrefixGoes(inputs: seq<Input>, inp: Input, s: Sess, fuel: nat)
    requires Synced(inputs, s, fuel) && Admissible(inputs, inp, fuel)
    requires Steadfast(inputs, NamesFor(inputs, inp), LetSet(inputs), fuel)
    ensures PrefixCompletes(s, inp, fuel)
  {
    hide Program, RunTop, RunW, Admissible, GoodVars, SlotsAgree, Completes, Setting, EnvRel, StoreRel, InScope,
         TidyEnv, TidyStore, SteadySlots, SlotLinks, OwnLinks, LiveLinks, Prefix, Probe, ReplayableTo, Table;
    var vars, lets := Probe(s.vars, inp), LetSet(inputs);
    SteadfastIsReplayable(inputs, NamesFor(inputs, inp), lets, fuel);
    SettingHolds(inputs, |inputs|, inp, s, fuel);
    SettingParts(inputs, |inputs|, vars, s.slots, lets, fuel);
    var link := ReplayCompletes(inputs, |inputs|, |inputs|, vars, s.slots, lets, fuel);
    WholeIsPrefix(inputs);
    var w := Replayed(inputs, |inputs|, vars, s.slots, lets, fuel);
    var m := PrefixRuns(vars, s.slots, ReplayFor(inputs, vars, lets), w, fuel);
  }

  // ---------------------------------------------------------------------------------------
  // Whole sessions.
  // ---------------------------------------------------------------------------------------

  ghost predicate SteadyAt(front: seq<Input>, inp: Input, fuel: nat) {
    && Admissible(front, inp, fuel)
    && Steadfast(front, NamesFor(front, inp), LetSet(front), fuel)
    && Transparent(front, NamesFor(front, inp))
  }

  /** At every point the next input is admissible, and those so far are replayed faithfully, or left out,
      or cannot fail. */
  ghost predicate Steady(inputs: seq<Input>, fuel: nat) {
    forall k :: 0 <= k < |inputs| ==> SteadyAt(inputs[..k], inputs[k], fuel)
  }

  lemma SteadyFront(inputs: seq<Input>, fuel: nat)
    requires inputs != [] && Steady(inputs, fuel)
    ensures Steady(ButLast(inputs), fuel) && SteadyAt(ButLast(inputs), Last(inputs), fuel)
  {
    hide SteadyAt;
    var front, n := ButLast(inputs), |inputs| - 1;
    forall k | 0 <= k < |front| ensures SteadyAt(front[..k], front[k], fuel) {
      assert front[..k] == inputs[..k] && SteadyAt(inputs[..k], inputs[k], fuel);
    }
    assert inputs[..n] == front && SteadyAt(inputs[..n], inputs[n], fuel);
  }

  /** One more input keeps the session's conditions. */
  lemma SoundExtends(inputs: seq<Input>, fuel: nat)
    requires inputs != [] && Sound(ButLast(inputs), fuel) && SoundAt(ButLast(inputs), Last(inputs), fuel)
    ensures Sound(inputs, fuel)
  {
    hide SoundAt;
    var front, n := ButLast(inputs), |inputs| - 1;
    forall k | 0 <= k < |inputs| ensures SoundAt(inputs[..k], inputs[k], fuel) {
      assert front == inputs[..n];
      if k < n { assert front[..k] == inputs[..k] && SoundAt(front[..k], front[k], fuel); }
    }
  }

  /** Then no assumption about the wrappers is needed. */
  lemma {:induction false} SteadyIsSound(inputs: seq<Input>, fuel: nat)
    requires Steady(inputs, fuel) && Program(inputs, fuel).Going?
    ensures Sound(inputs, fuel)
  {
    hide Program, RunTop, Steady, Sound, Synced, Admissible, Steadfast, Replayable, Transparent, PrefixCompletes,
         Session, ShowsAt;
    if inputs == [] {
      NothingIsSound(inputs, fuel);
    } else {
      var front, n, names := ButLast(inputs), |inputs| - 1, NamesFor(ButLast(inputs), Last(inputs));
      WholeIsPrefix(inputs);
      ProgramPrefix(inputs, n, fuel);
      SteadyFront(inputs, fuel);
      SteadyIsSound(front, fuel);
      SessionIsOnceThrough(front, fuel);
      PrefixGoes(front, Last(inputs), Session(front, fuel).value.0, fuel);
      SteadfastIsReplayable(front, names, LetSet(front), fuel);
      SoundExtends(inputs, fuel);
    }
  }

  lemma NothingIsSound(inputs: seq<Input>, fuel: nat)
    requires inputs == []
    ensures Sound(inputs, fuel)
  {
  }

  /** The theorem without assumptions about replays: over every session whose inputs are replayed
      faithfully, or left out, or cannot fail, if the program made of the inputs runs through, so does
      the session, and it ends in step with the program and has printed what the program prints. */
  lemma SteadySessionIsOnceThrough(inputs: seq<Input>, fuel: nat)
    requires Steady(inputs, fuel) && Program(inputs, fuel).Going?
    ensures var t := Session(inputs, fuel);
            && t.Some? && Synced(inputs, t.value.0, fuel) && t.value.2 == Program(inputs, fuel).out
            && |t.value.1| == |inputs| && forall k :: 0 <= k < |inputs| ==> ShowsAt(inputs, k, t.value.1[k], fuel)
  {
    hide Program, Steady, Sound, Synced, ShowsAt, Session;
    SteadyIsSound(inputs, fuel);
    SessionIsOnceThrough(inputs, fuel);
  }

  // ---------------------------------------------------------------------------------------
  // Sessions that meet the conditions by their form.
  // ---------------------------------------------------------------------------------------

  /** Where nothing is hidden, code whose closures are known is stable. */
  lemma {:induction false} KnownIsStable(e: Expr, lits: iset<Lambda>)
    requires Knows(lits, e)
    ensures Stable(e, Care(iset{}, lits, true))
    decreases e
  {
    KnowsParts(lits, e);
    forall i | 0 <= i < |Operands(e)| { KnownIsStable(Operands(e)[i], lits); }
    forall i | 0 <= i < |Bodies(e)| { BlockKnownIsStable(Bodies(e)[i], lits); }
  }

  lemma {:induction false} BlockKnownIsStable(ss: seq<Stmt>, lits: iset<Lambda>)
    requires BlockKnows(lits, ss)
    ensures BlockStable(ss, Care(iset{}, lits, true))
    decreases ss
  {
    if ss != [] {
      assert forall l :: IsLit(l, Code(ss[0])) ==> BlockHasLit(l, ss);
      assert forall l :: BlockHasLit(l, ss[1..]) ==> BlockHasLit(l, ss);
      KnownIsStable(Code(ss[0]), lits);
      BlockKnownIsStable(ss[1..], lits);
    }
  }

  /** When no variable with a slot is volatile, whatever is replayed is replayed faithfully, closure calls
      included. */
  lemma NothingVolatileIsFaithful(inputs: seq<Input>, i: nat, names: set<string>, lets: set<string>)
    requires i < |inputs| && VolatileAt(inputs, i, names, lets) == iset{} && IsReplayed(inputs[i], names, lets)
    ensures Faithful(inputs, i, names, lets)
  {
    hide VolatileAt, LitsTo, Stable, IsReplayed;
    var lits := LitsTo(inputs, i + 1);
    LitsClosed(inputs, i + 1);
    KnownIsStable(CodeAt(inputs, i), lits);
    var care := CareAt(inputs, i, names, lets, true);
    forall l | l in lits ensures BlockStable(l.body, care) {
      BodyKnown(lits, l);
      BlockKnownIsStable(l.body, lits);
    }
    assert Calm(care) && Stable(CodeAt(inputs, i), care);
  }

  lemma BodyKnown(lits: iset<Lambda>, l: Lambda)
    requires Closed(lits) && l in lits
    ensures BlockKnows(lits, l.body)
  {
  }

  lemma {:induction false} NoSlots(inputs: seq<Input>)
    requires forall i :: 0 <= i < |inputs| ==> !(inputs[i].LetIn? && inputs[i].isInt)
    ensures Table(inputs) == []
  {
    if inputs != [] {
      NoSlots(ButLast(inputs));
      assert !(Last(inputs).LetIn? && Last(inputs).isInt);
    }
  }

  /** No input binds an `Int`, and each is recorded or touches no variable. */
  ghost predicate Slotless(inputs: seq<Input>) {
    forall i :: 0 <= i < |inputs| ==>
      !(inputs[i].LetIn? && inputs[i].isInt) && (IsRecorded(inputs[i]) || Harmless(inputs, i, {}))
  }

  lemma NoSlotsAdmissible(front: seq<Input>, inp: Input, fuel: nat)
    requires forall i :: 0 <= i < |front| ==> !(front[i].LetIn? && front[i].isInt)
    requires !(inp.LetIn? && inp.isInt) && WellKinded(front, inp, fuel)
    ensures Table(front) == [] && NamesFor(front, inp) == {} && Admissible(front, inp, fuel)
  {
    hide Program, Shown;
    NoSlots(front);
    assert NamesFor(front, inp) == {};
  }

  /** Without slots, any recorded input is replayed faithfully. */
  lemma NoSlotsCompletes(inputs: seq<Input>, i: nat, lets: set<string>, fuel: nat)
    requires i < |inputs| && IsRecorded(inputs[i])
    ensures Completes(inputs, i, {}, lets, fuel) && Exact(inputs, i, {}, lets)
  {
    hide Program, Faithful, Harmless;
    assert VolatileAt(inputs, i, {}, lets) == iset{};
    NothingVolatileIsFaithful(inputs, i, {}, lets);
  }

  lemma SlotlessIsSteady(front: seq<Input>, inp: Input, fuel: nat)
    requires Slotless(front) && !(inp.LetIn? && inp.isInt) && WellKinded(front, inp, fuel)
    ensures SteadyAt(front, inp, fuel)
  {
    hide Program, Faithful, Harmless, Shown, Admissible, Exact;
    NoSlotsAdmissible(front, inp, fuel);
    forall i | 0 <= i < |front| ensures Completes(front, i, {}, LetSet(front), fuel) {
      if IsRecorded(front[i]) { NoSlotsCompletes(front, i, LetSet(front), fuel); }
    }
  }
}
