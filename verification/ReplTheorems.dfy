/** The main results about the REPL: every session whose history can be replayed is the once-through
    program, cell for cell, value for value and line for line of output. */
module ReplTheorems {
  import opened Common
  import opened ReplSyntax
  import opened ReplSemantics
  import opened ReplFrames
  import opened ReplSimulation
  import opened ReplSession
  import opened ReplReplay
  import opened ReplRuns

  /** The slot table after `inputs`: what is in it does not depend on what they compute. */
  function Table(inputs: seq<Input>): seq<VarSlot> {
    if inputs == [] then [] else Tabled(Table(ButLast(inputs)), Last(inputs))
  }

  /** The names with a slot in the wrapper built for `inp` after `inputs`. */
  function NamesFor(inputs: seq<Input>, inp: Input): set<string> {
    Names(Probe(Table(inputs), inp))
  }

  /** The session's state after `inputs`: the history and the slot table are theirs, no two variables
      share a slot, the slots hold the once-through program's values, and only `Int`s were ever bound to
      a name that has one. */
  ghost predicate Synced(inputs: seq<Input>, s: Sess, fuel: nat) {
    && s.history == Recorded(inputs)
    && LetNames(s.lets) == LetSet(inputs)
    && !s.replaying
    && |s.slots| == REPL_MAX_SLOTS
    && s.vars == Table(inputs)
    && GoodVars(s.vars, s.slots)
    && SlotsAgree(s.vars, s.slots, Program(inputs, fuel))
    && InScope(s.vars, Program(inputs, fuel))
    && forall k :: 0 <= k < |inputs| ==> BindsInt(inputs, k, Names(s.vars), fuel)
  }

  ghost predicate InScope(vars: seq<VarSlot>, p: Top) {
    p.Going? && forall i :: 0 <= i < |vars| ==> vars[i].name in p.env
  }

  /** What is asked of one more input: that its wrapper's slots are distinct, that it gives no slot to
      a variable that has been without, and that type checking knew the kind of what it binds. */
  ghost predicate Admissible(inputs: seq<Input>, inp: Input, fuel: nat) {
    && IndicesDistinct(Probe(Table(inputs), inp))
    && TAIL !in NamesFor(inputs, inp)
    && (inp.LetIn? && inp.name in NamesFor(inputs, inp) && Declared(inputs, inp.name) ==>
          inp.name in Names(Table(inputs)))
    && WellKinded(inputs, inp, fuel)
  }

  /** What type checking found about a `let` is what the program computes. */
  ghost predicate WellKinded(inputs: seq<Input>, inp: Input, fuel: nat) {
    var p := Program(inputs + [inp], fuel);
    inp.LetIn? && p.Going? ==> (Shown(inp, p).IntV? <==> inp.isInt)
  }

  /** The wrapper's load, replay and refresh run to their end. */
  predicate PrefixCompletes(s: Sess, inp: Input, fuel: nat) {
    var vars := Probe(s.vars, inp);
    RunW(Prefix(vars, CollectReplay(s.history, Names(vars), LetNames(s.lets))),
         Machine(map[], [], s.slots, s.replaying), fuel).WDone?
  }

  /** A `return` is written in the input or in what is replayed for it. */
  ghost predicate ReturnInSight(s: Sess, inp: Input) {
    var vars := Probe(s.vars, inp);
    || BlockReaches(Returns, UserStmts(inp), Return)
    || BlockReaches(Returns, CollectReplay(s.history, Names(vars), LetNames(s.lets)), Return)
  }

  // ---------------------------------------------------------------------------------------
  // One input.
  // ---------------------------------------------------------------------------------------

  lemma LetSetGrows(inputs: seq<Input>, inp: Input)
    ensures LetSet(inputs + [inp]) == LetSet(inputs) + if inp.LetIn? then {inp.name} else {}
  {
    var all := inputs + [inp];
    assert forall i :: 0 <= i < |inputs| ==> all[i] == inputs[i];
    if inp.LetIn? {
      assert all[|inputs|].name == inp.name;
    }
  }

  lemma KnownMeansNamed(vars: seq<VarSlot>, x: string)
    ensures Position(vars, x) < |vars| <==> x in Names(vars)
  {
  }

  lemma NamesAreOfEntries(vars: seq<VarSlot>, x: string)
    ensures x in Names(vars) <==> exists v :: v in vars && v.name == x
  {
  }

  /** Entries are for `Int`s, of one name each, within the slot region. */
  ghost predicate Shaped(vars: seq<VarSlot>) {
    && (forall i :: 0 <= i < |vars| ==> vars[i].ty == Int && vars[i].idx < REPL_MAX_SLOTS)
    && (forall i, j :: 0 <= i < j < |vars| ==> vars[i].name != vars[j].name)
  }

  lemma RegisterShaped(vars: seq<VarSlot>, x: string, mutable: bool)
    requires Shaped(vars)
    ensures Shaped(Register(vars, x, Int, mutable).0)
  {
  }

  /** Dropping a name leaves the other entries as they are. */
  lemma {:induction false} UnregisterShaped(vars: seq<VarSlot>, x: string)
    requires Shaped(vars)
    ensures Shaped(Unregister(vars, x))
    ensures forall v :: v in Unregister(vars, x) <==> v in vars && v.name != x
  {
    if vars != [] {
      var front, last := ButLast(vars), Last(vars);
      assert vars == front + [last];
      UnregisterShaped(front, x);
      var rest := Unregister(front, x);
      forall v | v in rest ensures v.name != last.name {
        var i :| 0 <= i < |front| && front[i] == v;
        assert vars[i] == v;
      }
    }
  }

  lemma {:induction false} TableShaped(inputs: seq<Input>)
    ensures Shaped(Table(inputs))
  {
    if inputs != [] {
      TableShaped(ButLast(inputs));
      ProbeShaped(Table(ButLast(inputs)), Last(inputs));
      if Last(inputs).LetIn? {
        RegisterShaped(Probe(Table(ButLast(inputs)), Last(inputs)), Last(inputs).name, Last(inputs).mutable);
      }
    }
  }

  lemma ProbeShaped(vars: seq<VarSlot>, inp: Input)
    requires Shaped(vars)
    ensures Shaped(Probe(vars, inp))
  {
    if inp.LetIn? {
      RegisterShaped(vars, inp.name, inp.mutable);
      UnregisterShaped(vars, inp.name);
    }
  }

  /** The probe keeps every entry but one of a name that is no `Int` any more, and adds at most one, of
      the input's own name, which then is an `Int`. */
  lemma ProbeKeepsEntries(vars: seq<VarSlot>, inp: Input)
    requires Shaped(vars)
    ensures forall v :: v in Probe(vars, inp) && v !in vars ==>
              inp.LetIn? && inp.isInt && v.name == inp.name && inp.name !in Names(vars)
    ensures forall v :: v in vars && v !in Probe(vars, inp) ==> inp.LetIn? && !inp.isInt && v.name == inp.name
    ensures inp.LetIn? && inp.name in Names(Probe(vars, inp)) ==> inp.isInt
  {
    if inp.LetIn? {
      KnownMeansNamed(vars, inp.name);
      UnregisterShaped(vars, inp.name);
      NamesAreOfEntries(Probe(vars, inp), inp.name);
    }
  }

  lemma DeclaredNow(inputs: seq<Input>, x: string)
    requires exists i :: 0 <= i < |inputs| && Declares(inputs[i], x)
    ensures Declared(inputs, x)
  {
  }

  /** The wrapper's slot table is a good one, and agrees with the program. */
  lemma ProbeAgrees(inputs: seq<Input>, inp: Input, s: Sess, fuel: nat)
    requires Synced(inputs, s, fuel) && Admissible(inputs, inp, fuel)
    ensures var vars := Probe(s.vars, inp);
            GoodVars(vars, s.slots) && SlotsAgree(vars, s.slots, Program(inputs, fuel))
  {
    hide Program, RunTop, Probe, Table, BindsInt, WellKinded;
    var vars, p := Probe(s.vars, inp), Program(inputs, fuel);
    TableShaped(inputs);
    ProbeShaped(s.vars, inp);
    ProbeKeepsEntries(s.vars, inp);
    forall i | 0 <= i < |vars| && vars[i].name in p.env ensures vars[i] in s.vars {
      AlreadyThere(inputs, inp, s, i, fuel);
    }
  }

  /** A variable in scope that has a slot in the wrapper had it before. */
  lemma AlreadyThere(inputs: seq<Input>, inp: Input, s: Sess, i: nat, fuel: nat)
    requires Synced(inputs, s, fuel) && Admissible(inputs, inp, fuel) && i < |Probe(s.vars, inp)|
    requires Probe(s.vars, inp)[i].name in Program(inputs, fuel).env
    ensures Probe(s.vars, inp)[i] in s.vars
  {
    hide Program, RunTop, Probe, TidyEnv, TidyStore, Table, BindsInt, WellKinded, GoodVars, SlotsAgree, IndicesDistinct;
    var v := Probe(s.vars, inp)[i];
    TableShaped(inputs);
    ProbeKeepsEntries(s.vars, inp);
    WholeIsPrefix(inputs);
    ProgramTidy(inputs, |inputs|, fuel);
    NamesAreOfEntries(Probe(s.vars, inp), v.name);
    DeclaredNow(inputs, v.name);
  }

  /** A name with a slot in the wrapper has had `Int`s bound to it only. */
  lemma OnlyInts(inputs: seq<Input>, inp: Input, s: Sess, fuel: nat)
    requires Synced(inputs, s, fuel) && Admissible(inputs, inp, fuel)
    ensures forall k :: 0 <= k < |inputs| ==> BindsInt(inputs, k, Names(Probe(s.vars, inp)), fuel)
  {
    hide Program, Probe, Table, GoodVars, SlotsAgree, InScope, IndicesDistinct, WellKinded;
    var vars := Probe(s.vars, inp);
    TableShaped(inputs);
    ProbeKeepsEntries(s.vars, inp);
    forall k | 0 <= k < |inputs| ensures BindsInt(inputs, k, Names(vars), fuel) {
      assert BindsInt(inputs, k, Names(s.vars), fuel);
      if inputs[k].LetIn? && inputs[k].name in Names(vars) {
        NamesAreOfEntries(vars, inputs[k].name);
        NamesAreOfEntries(s.vars, inputs[k].name);
        DeclaredNow(inputs, inputs[k].name);
      }
    }
  }

  lemma SettingHolds(inputs: seq<Input>, n: nat, inp: Input, s: Sess, fuel: nat)
    requires Synced(inputs, s, fuel) && Admissible(inputs, inp, fuel)
    requires ReplayableTo(inputs, n, NamesFor(inputs, inp), LetSet(inputs))
    ensures Setting(inputs, n, Probe(s.vars, inp), s.slots, LetSet(inputs), fuel)
  {
    hide Program, Probe, Exact, ClosuresTame, BindsInt;
    ProbeAgrees(inputs, inp, s, fuel);
    OnlyInts(inputs, inp, s, fuel);
  }

  lemma LastOfAll(inputs: seq<Input>, inp: Input)
    ensures var all, n := inputs + [inp], |inputs|;
            && all[..n] == inputs && all[..n + 1] == all && all[n] == inp && Last(all) == inp && ButLast(all) == inputs
            && inputs[..n] == inputs
  {
  }

  /** A slot variable the new input does not declare keeps its cell, which holds an `Int`. */
  lemma OldSlotVariable(inputs: seq<Input>, inp: Input, s: Sess, i: nat, fuel: nat)
    requires Synced(inputs, s, fuel) && Program(inputs + [inp], fuel).Going?
    requires i < |s.vars| && !Declares(inp, s.vars[i].name)
    ensures var q, x := Program(inputs + [inp], fuel), s.vars[i].name;
            x in q.env && q.env[x] < |q.st| && q.st[q.env[x]].value.IntV?
  {
    hide Program, RunTop, Eval;
    LastOfAll(inputs, inp);
    ProgramStep(inputs + [inp], |inputs|, fuel);
  }

  /** After the new input, every variable with a slot is in scope and holds an `Int`. */
  lemma SlotVariablesAreInts(inputs: seq<Input>, inp: Input, s: Sess, x: string, fuel: nat)
    requires Synced(inputs, s, fuel) && Admissible(inputs, inp, fuel)
    requires Program(inputs + [inp], fuel).Going? && x in Names(Probe(s.vars, inp))
    ensures var q := Program(inputs + [inp], fuel); Bound(x, q.env, q.st) && q.st[q.env[x]].value.IntV?
  {
    hide Program, RunTop, TidyStore, Probe, Eval, Table, GoodVars, SlotsAgree, InScope, IndicesDistinct;
    var all, n := inputs + [inp], |inputs|;
    LastOfAll(inputs, inp);
    ProgramTidy(all, n + 1, fuel);
    TableShaped(inputs);
    ProbeKeepsEntries(s.vars, inp);
    if Declares(inp, x) {
      DeclaredInScope(all, n, n + 1, fuel);
    } else {
      NamesAreOfEntries(Probe(s.vars, inp), x);
      var v :| v in Probe(s.vars, inp) && v.name == x;
      var j :| 0 <= j < |s.vars| && s.vars[j] == v;
      OldSlotVariable(inputs, inp, s, j, fuel);
    }
  }

  /** The wrapper's prefix completing means its replay does. */
  lemma PrefixMeansReplay(inputs: seq<Input>, vars: seq<VarSlot>, slots: seq<Word>, varNames: set<string>, fuel: nat)
    requires GoodVars(vars, slots)
    requires RunW(Prefix(vars, ReplayFor(inputs, vars, varNames)), Machine(map[], [], slots, false), fuel).WDone?
    ensures Replayed(inputs, |inputs|, vars, slots, varNames, fuel).Going?
  {
    hide RunW, RunTop, LoadedEnv, LoadedStore, GoodVars, ReplayFor;
    WholeIsPrefix(inputs);
    var replay := ReplayFor(inputs, vars, varNames);
    ReplayForIs(inputs, vars, varNames);
    if replay == [] {
      RunTopStart(LoadedEnv(vars), LoadedStore(vars, slots), true, fuel);
    } else {
      var m0 := Machine(map[], [], slots, false);
      var m1 := m0.(env := LoadedEnv(vars), st := LoadedStore(vars, slots));
      var on := m1.(replaying := true);
      var refreshes := Refreshes(vars, replay);
      var rest := [SetReplaying(false)] + refreshes;
      LoadsRun(vars, slots, false, fuel);
      RunSingle(SetReplaying(true), m1, fuel);
      PrefixForm(vars, replay);
      RunWAppend(Loads(vars), [SetReplaying(true)] + (Codes(replay) + rest), m0, fuel);
      RunWAppend([SetReplaying(true)], Codes(replay) + rest, m1, fuel);
      RunWAppend(Codes(replay), rest, on, fuel);
      CodesRun(replay, on, fuel);
    }
  }

  lemma ReplayForIs(inputs: seq<Input>, vars: seq<VarSlot>, varNames: set<string>)
    ensures ReplayFor(inputs, vars, varNames) == CollectReplay(Recorded(inputs), Names(vars), varNames)
  {
  }

  lemma PrefixForm(vars: seq<VarSlot>, replay: seq<Stmt>)
    requires replay != []
    ensures Prefix(vars, replay) ==
            Loads(vars) + ([SetReplaying(true)] + (Codes(replay) + ([SetReplaying(false)] + Refreshes(vars, replay))))
  {
    hide Loads, Codes, Refreshes;
  }

  /** One more input: the wrapper computes what the once-through program computes next, prints
      exactly what it prints, and leaves the session in step with it. */
  lemma StepIsProgramStep(inputs: seq<Input>, inp: Input, s: Sess, fuel: nat)
    requires Synced(inputs, s, fuel) && Admissible(inputs, inp, fuel)
    requires Replayable(inputs, NamesFor(inputs, inp), LetSet(inputs)) && Transparent(inputs, NamesFor(inputs, inp))
    requires Program(inputs + [inp], fuel).Going?
    requires PrefixCompletes(s, inp, fuel)
    ensures var r, p, q := Step(s, inp, fuel), Program(inputs, fuel), Program(inputs + [inp], fuel);
            && r.Next?
            && Synced(inputs + [inp], r.s, fuel)
            && p.Going? && q.out == p.out + r.out
            && Alike(if ReturnInSight(s, inp) then UnitV else Shown(inp, q), r.value)
  {
    hide Program, RunTop, RunW, ReplayableTo, Transparent, Admissible, PrefixCompletes, GoodVars, Setting, SlotsAgree,
         EnvRel, StoreRel, Prefix, BuildBody, Record, Probe, Stored, SlotVariablesBound, CollectReplay, Eval, InScope;
    LastOfAll(inputs, inp);
    ProgramStep(inputs + [inp], |inputs|, fuel);
    var p, q := Program(inputs, fuel), Program(inputs + [inp], fuel);
    var vars := Probe(s.vars, inp);
    SettingHolds(inputs, |inputs|, inp, s, fuel);
    SettingParts(inputs, |inputs|, vars, s.slots, LetSet(inputs), fuel);
    ReplayForIs(inputs, vars, LetSet(inputs));
    AtHand(inputs, inp, s, fuel);
    PrefixMeansReplay(inputs, vars, s.slots, LetSet(inputs), fuel);
    var m, link := PrefixRestores(inputs, vars, s.slots, LetSet(inputs), fuel);
    var r := ExecStmt(StmtOf(inp), p.env, p.st, false, fuel);
    var link' := UserSim(inp, p, q, r, m, link, fuel);
    var t := RunTop(UserStmts(inp), m.env, m.st, false, fuel);
    SlotsSeen(inputs, inp, s, t, link', fuel);
    BodyRuns(vars, ReplayFor(inputs, vars, LetSet(inputs)), inp, Machine(map[], [], s.slots, false), m, fuel);
    var after := RunW(WrapperFor(s, inp), Machine(map[], [], s.slots, s.replaying), fuel).m;
    StoredMeansAgree(vars, after.slots, t, q);
    StaysSynced(inputs, inp, s, after, fuel);
  }

  lemma AtHand(inputs: seq<Input>, inp: Input, s: Sess, fuel: nat)
    requires PrefixCompletes(s, inp, fuel) && Admissible(inputs, inp, fuel) && s.vars == Table(inputs)
    ensures var vars := Probe(s.vars, inp);
            && RunW(Prefix(vars, CollectReplay(s.history, Names(vars), LetNames(s.lets))),
                    Machine(map[], [], s.slots, s.replaying), fuel).WDone?
            && TAIL !in Names(vars)
  {
  }

  /** In the wrapper's state as in the program's, the slot variables hold the same `Int`s. */
  ghost predicate SlotsShow(vars: seq<VarSlot>, t: Top, q: Top) {
    && t.Going? && q.Going? && SlotVariablesBound(vars, t.env, t.st)
    && forall i :: 0 <= i < |vars| ==>
         && vars[i].name in q.env && q.env[vars[i].name] < |q.st|
         && t.st[t.env[vars[i].name]].value == q.st[q.env[vars[i].name]].value
  }

  lemma SlotsSeen(inputs: seq<Input>, inp: Input, s: Sess, t: Top, link: Link, fuel: nat)
    requires Synced(inputs, s, fuel) && Admissible(inputs, inp, fuel)
    requires Program(inputs + [inp], fuel).Going? && t.Going?
    requires var q := Program(inputs + [inp], fuel);
             EnvRel(q.env, t.env, link) && StoreRel(q.st, t.st, link, Careless())
    ensures SlotsShow(Probe(s.vars, inp), t, Program(inputs + [inp], fuel))
  {
    hide Program, RunTop, Synced, Admissible, Probe;
    var vars, q := Probe(s.vars, inp), Program(inputs + [inp], fuel);
    forall i | 0 <= i < |vars|
      ensures Bound(vars[i].name, t.env, t.st) && t.st[t.env[vars[i].name]].value.IntV?
      ensures var x := vars[i].name;
              x in q.env && q.env[x] < |q.st| && t.st[t.env[x]].value == q.st[q.env[x]].value
    {
      var x := vars[i].name;
      assert x in Names(vars);
      SlotVariablesAreInts(inputs, inp, s, x, fuel);
      assert CellRel(q.env[x], q.st, t.st, link, Careless());
    }
  }

  lemma StoredMeansAgree(vars: seq<VarSlot>, slots: seq<Word>, t: Top, q: Top)
    requires SlotsShow(vars, t, q) && Stored(vars, slots, t.env, t.st)
    ensures SlotsAgree(vars, slots, q) && InScope(vars, q)
  {
  }

  /** Registering once more, after the probe, changes neither names nor indices. */
  lemma ReRegister(vars: seq<VarSlot>, inp: Input)
    ensures var probed, after := Probe(vars, inp), Tabled(vars, inp);
            && |after| == |probed|
            && forall j :: 0 <= j < |probed| ==> after[j].name == probed[j].name && after[j].idx == probed[j].idx
  {
    if inp.LetIn? && inp.isInt {
      var probed := Probe(vars, inp);
      KnownMeansNamed(vars, inp.name);
      if Position(vars, inp.name) == |vars| < REPL_MAX_SLOTS {
        assert probed[|vars|].name == inp.name;
      }
    }
  }

  lemma HistoryGrows(inputs: seq<Input>, inp: Input, s: Sess, m: Machine)
    requires s.history == Recorded(inputs) && LetNames(s.lets) == LetSet(inputs)
    ensures Record(s, inp, m).history == Recorded(inputs + [inp])
    ensures LetNames(Record(s, inp, m).lets) == LetSet(inputs + [inp])
  {
    hide Tabled, LetNames, LetSet;
    var all := inputs + [inp];
    assert ButLast(all) == inputs && Last(all) == inp;
    assert s.history + [] == s.history;
    LetsGrow(inputs, inp, s, m);
  }

  lemma LetsGrow(inputs: seq<Input>, inp: Input, s: Sess, m: Machine)
    requires LetNames(s.lets) == LetSet(inputs)
    ensures LetNames(Record(s, inp, m).lets) == LetSet(inputs + [inp])
  {
    hide Tabled, LetSet, IsRecorded;
    var after := Record(s, inp, m);
    LetSetGrows(inputs, inp);
    if inp.LetIn? {
      assert after.lets[|s.lets|].name == inp.name;
      assert forall i :: 0 <= i < |s.lets| ==> after.lets[i] == s.lets[i];
    }
  }

  /** The bookkeeping after a run. */
  lemma StaysSynced(inputs: seq<Input>, inp: Input, s: Sess, m: Machine, fuel: nat)
    requires Synced(inputs, s, fuel) && Admissible(inputs, inp, fuel)
    requires Program(inputs + [inp], fuel).Going? && !m.replaying && |m.slots| == |s.slots|
    requires SlotsAgree(Probe(s.vars, inp), m.slots, Program(inputs + [inp], fuel))
    requires InScope(Probe(s.vars, inp), Program(inputs + [inp], fuel))
    ensures Synced(inputs + [inp], Record(s, inp, m), fuel)
  {
    hide Program, Probe, BindsInt;
    HistoryGrows(inputs, inp, s, m);
    LastOfAll(inputs, inp);
    ReRegister(s.vars, inp);
    TableShaped(inputs + [inp]);
    StillOnlyInts(inputs, inp, s, fuel);
  }

  lemma StillOnlyInts(inputs: seq<Input>, inp: Input, s: Sess, fuel: nat)
    requires Synced(inputs, s, fuel) && Admissible(inputs, inp, fuel) && Program(inputs + [inp], fuel).Going?
    ensures var all := inputs + [inp];
            forall k :: 0 <= k < |all| ==> BindsInt(all, k, Names(Tabled(s.vars, inp)), fuel)
  {
    hide Program, Probe, Tabled, Table, GoodVars, SlotsAgree, InScope, IndicesDistinct;
    var all, n, names := inputs + [inp], |inputs|, Names(Tabled(s.vars, inp));
    SameNames(s.vars, inp);
    OnlyInts(inputs, inp, s, fuel);
    LastOfAll(inputs, inp);
    TableShaped(inputs);
    ProbeKeepsEntries(s.vars, inp);
    forall k | 0 <= k < |all| ensures BindsInt(all, k, names, fuel) {
      if k < n {
        assert all[..k + 1] == inputs[..k + 1] && BindsInt(inputs, k, names, fuel);
      } else if inp.LetIn? && inp.name in names {
        DeclaredInScope(all, n, n + 1, fuel);
        ProgramTidy(all, n + 1, fuel);
      }
    }
  }

  lemma SameNames(vars: seq<VarSlot>, inp: Input)
    ensures Names(Tabled(vars, inp)) == Names(Probe(vars, inp))
  {
    hide Tabled, Probe;
    ReRegister(vars, inp);
  }

  // ---------------------------------------------------------------------------------------
  // Whole sessions.
  // ---------------------------------------------------------------------------------------

  /** The session's state after `inputs`, with what each input displayed and printed; `None` if
      some wrapper was left early or did not finish. */
  function Session(inputs: seq<Input>, fuel: nat): Option<(Sess, seq<Value>, seq<Value>)> {
    if inputs == [] then Some((Fresh(), [], []))
    else
      match Session(ButLast(inputs), fuel)
      case None => None
      case Some(t) =>
        match Step(t.0, Last(inputs), fuel)
        case Next(s, v, o) => Some((s, t.1 + [v], t.2 + o))
        case _ => None
  }

  /** The conditions of the theorem, for every prefix of the session: the next input is admissible, the
      history at that point can be replayed, and the next wrapper's prefix completes. */
  ghost predicate Sound(inputs: seq<Input>, fuel: nat) {
    forall k :: 0 <= k < |inputs| ==> SoundAt(inputs[..k], inputs[k], fuel)
  }

  ghost predicate SoundAt(front: seq<Input>, inp: Input, fuel: nat) {
    && Admissible(front, inp, fuel)
    && Replayable(front, NamesFor(front, inp), LetSet(front))
    && Transparent(front, NamesFor(front, inp))
    && (Session(front, fuel).Some? ==> PrefixCompletes(Session(front, fuel).value.0, inp, fuel))
  }

  /** `v` is what the once-through program would show for the `k`-th input. */
  ghost predicate ShowsAt(inputs: seq<Input>, k: nat, v: Value, fuel: nat)
    requires k < |inputs|
  {
    var t, q := Session(inputs[..k], fuel), Program(inputs[..k + 1], fuel);
    && t.Some? && q.Going?
    && Alike(if ReturnInSight(t.value.0, inputs[k]) then UnitV else Shown(inputs[k], q), v)
  }

  /** The main theorem. Over every session whose histories can be replayed, if the program made of
      the inputs runs through, so does the session; its slots hold the program's values, its
      outputs together are the program's output, so every line is printed exactly once; and every
      input shows the value the program computes for it (unit where a `return` is in sight). */
  lemma {:induction false} SessionIsOnceThrough(inputs: seq<Input>, fuel: nat)
    requires Sound(inputs, fuel) && Program(inputs, fuel).Going?
    ensures var t := Session(inputs, fuel);
            && t.Some?
            && Synced(inputs, t.value.0, fuel)
            && t.value.2 == Program(inputs, fuel).out
            && |t.value.1| == |inputs|
            && forall k :: 0 <= k < |inputs| ==> ShowsAt(inputs, k, t.value.1[k], fuel)
  {
    hide Program, RunTop, Synced, Sound, Step, ReturnInSight, Alike, Shown, Admissible, Replayable, Transparent,
         PrefixCompletes;
    if inputs == [] {
      FreshIsSynced(fuel);
      NothingPrinted(inputs, fuel);
    } else {
      var front, n := ButLast(inputs), |inputs| - 1;
      WholeIsPrefix(inputs);
      ProgramPrefix(inputs, n, fuel);
      SoundFront(inputs, fuel);
      SessionIsOnceThrough(front, fuel);
      SoundStep(inputs, fuel);
      StepIsProgramStep(front, Last(inputs), Session(front, fuel).value.0, fuel);
      forall k | 0 <= k < |inputs| ensures ShowsAt(inputs, k, Session(inputs, fuel).value.1[k], fuel) {
        if k < n {
          ShownBefore(inputs, k, Session(front, fuel).value.1[k], fuel);
        } else {
          assert inputs[..n] == front && inputs[..n + 1] == inputs;
        }
      }
    }
  }

  lemma NothingPrinted(inputs: seq<Input>, fuel: nat)
    requires inputs == []
    ensures Program(inputs, fuel).Going? && Program(inputs, fuel).out == []
  {
  }

  /** What `Sound` says about the last input. */
  lemma SoundStep(inputs: seq<Input>, fuel: nat)
    requires inputs != [] && Sound(inputs, fuel)
    ensures ButLast(inputs) + [Last(inputs)] == inputs && SoundAt(ButLast(inputs), Last(inputs), fuel)
  {
    hide SoundAt;
    var n := |inputs| - 1;
    assert inputs[..n] == ButLast(inputs);
    assert SoundAt(inputs[..n], inputs[n], fuel);
  }

  lemma ShownBefore(inputs: seq<Input>, k: nat, v: Value, fuel: nat)
    requires k < |inputs| - 1 && ShowsAt(ButLast(inputs), k, v, fuel)
    ensures ShowsAt(inputs, k, v, fuel)
  {
    assert ButLast(inputs)[..k] == inputs[..k] && ButLast(inputs)[..k + 1] == inputs[..k + 1];
  }

  lemma SoundFront(inputs: seq<Input>, fuel: nat)
    requires inputs != [] && Sound(inputs, fuel)
    ensures Sound(ButLast(inputs), fuel)
  {
    hide SoundAt;
    var front := ButLast(inputs);
    forall k | 0 <= k < |front| ensures SoundAt(front[..k], front[k], fuel) {
      assert front[..k] == inputs[..k] && SoundAt(inputs[..k], inputs[k], fuel);
    }
  }

  lemma FreshIsSynced(fuel: nat)
    ensures Synced([], Fresh(), fuel)
  {
    assert LetNames([]) == {} == LetSet([]);
  }
}
