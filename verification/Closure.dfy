/** The closure of one package's dependencies (`transitive_dep_source_dirs` in
    `src/ruxen_cli/src/build.rs`): a worklist over the sorted list. */
module Closure {
  import opened Common
  import opened Resolve

  /** The package of that name; of several, the last. */
  function Lookup(all: seq<Dep>, n: string): (r: Option<Dep>)
    ensures r.Some? ==> r.value in all && r.value.name == n
    ensures r.None? <==> n !in NamesIn(all)
  {
    if all == [] then None
    else if all[|all| - 1].name == n then Some(all[|all| - 1])
    else
      assert NamesIn(all) == NamesIn(all[..|all| - 1]) + {all[|all| - 1].name};
      Lookup(all[..|all| - 1], n)
  }

  function DependenciesOf(all: seq<Dep>, n: string): seq<string> {
    match Lookup(all, n)
    case Some(d) => d.dependencies
    case None => []
  }

  /** `all[k]` is what the name `n` stands for: the last package listed under it. */
  ghost predicate StandsFor(all: seq<Dep>, n: string, k: int) {
    0 <= k < |all| && all[k].name == n && forall j :: k < j < |all| ==> all[j].name != n
  }

  ghost predicate DependsOn(all: seq<Dep>, n: string, d: string) {
    exists k :: StandsFor(all, n, k) && d in all[k].dependencies
  }

  lemma {:induction false} LookupFindsTheLast(all: seq<Dep>, n: string)
    ensures match Lookup(all, n)
            case Some(d) => exists k :: StandsFor(all, n, k) && all[k] == d
            case None => forall k :: !StandsFor(all, n, k)
  {
    if all != [] {
      var front := all[..|all| - 1];
      if all[|front|].name == n {
        assert StandsFor(all, n, |front|);
      } else {
        LookupFindsTheLast(front, n);
        assert forall k :: StandsFor(all, n, k) <==> StandsFor(front, n, k);
      }
    }
  }

  lemma DependenciesMeanDependsOn(all: seq<Dep>, n: string)
    ensures forall d :: d in DependenciesOf(all, n) <==> DependsOn(all, n, d)
  {
    LookupFindsTheLast(all, n);
    if all != [] && Lookup(all, n).Some? {
      var k :| StandsFor(all, n, k) && all[k] == Lookup(all, n).value;
      assert forall l :: StandsFor(all, n, l) ==> l == k;
    }
  }

  /** A chain of dependencies, from the target's own. */
  ghost predicate IsChain(target: Dep, all: seq<Dep>, c: seq<string>) {
    && c != [] && c[0] in target.dependencies
    && forall i :: 0 <= i < |c| - 1 ==> DependsOn(all, c[i], c[i + 1])
  }

  ghost predicate Needs(target: Dep, all: seq<Dep>, n: string) {
    exists c :: IsChain(target, all, c) && c[|c| - 1] == n
  }

  /** The source directories of the listed packages whose names are needed, in the order of the list. */
  function Emitted(all: seq<Dep>, needed: set<string>): seq<Dep> {
    if all == [] then []
    else Emitted(all[..|all| - 1], needed) + (if all[|all| - 1].name in needed then [all[|all| - 1]] else [])
  }

  function Dirs(deps: seq<Dep>): seq<string> {
    seq(|deps|, i requires 0 <= i < |deps| => deps[i].dir)
  }

  /** `dirs` are the directories of the packages of `all` whose names are needed, once each and in order: `at`
      says where each comes from. */
  ghost predicate AreDirsAt(all: seq<Dep>, needed: set<string>, dirs: seq<string>, at: seq<nat>) {
    && |at| == |dirs|
    && (forall i, j :: 0 <= i < j < |at| ==> at[i] < at[j])
    && (forall i :: 0 <= i < |at| ==> at[i] < |all| && all[at[i]].name in needed && all[at[i]].dir == dirs[i])
    && (forall k :: 0 <= k < |all| && all[k].name in needed ==> k in at)
  }

  lemma {:induction false} EmittedAreAt(all: seq<Dep>, needed: set<string>) returns (at: seq<nat>)
    ensures AreDirsAt(all, needed, Dirs(Emitted(all, needed)), at)
  {
    at := [];
    if all != [] {
      var n := |all| - 1;
      at := EmittedAreAt(all[..n], needed);
      if all[n].name in needed { at := at + [n]; }
    }
  }

  function NeededNames(target: Dep, all: seq<Dep>): set<string> {
    (set i | 0 <= i < |target.dependencies| :: target.dependencies[i]) +
    (set k, i | 0 <= k < |all| && 0 <= i < |all[k].dependencies| :: all[k].dependencies[i])
  }

  ghost predicate Needed(target: Dep, all: seq<Dep>, names: set<string>) {
    forall n :: n in names <==> Needs(target, all, n)
  }

  /** What the worklist has found, and has still to look at. */
  ghost predicate Progress(target: Dep, all: seq<Dep>, needed: set<string>, stack: seq<string>) {
    && (forall n :: n in needed || n in stack ==> Needs(target, all, n) && n in NeededNames(target, all))
    && (forall n :: n in target.dependencies ==> n in needed || n in stack)
    && (forall n, d :: n in needed && d in DependenciesOf(all, n) ==> d in needed || d in stack)
  }

  lemma StartProgress(target: Dep, all: seq<Dep>)
    ensures Progress(target, all, {}, target.dependencies)
  {
    forall n | n in target.dependencies ensures Needs(target, all, n) {
      assert IsChain(target, all, [n]);
    }
  }

  lemma NeedsNext(target: Dep, all: seq<Dep>, n: string, d: string)
    requires Needs(target, all, n) && d in DependenciesOf(all, n)
    ensures Needs(target, all, d) && d in NeededNames(target, all)
  {
    var c :| IsChain(target, all, c) && c[|c| - 1] == n;
    var longer := c + [d];
    DependenciesMeanDependsOn(all, n);
    forall i | 0 <= i < |longer| - 1 ensures DependsOn(all, longer[i], longer[i + 1]) {
      if i < |c| - 1 { assert longer[i + 1] == c[i + 1]; }
    }
    assert IsChain(target, all, longer) && longer[|longer| - 1] == d;
    var k :| 0 <= k < |all| && all[k] == Lookup(all, n).value;
  }

  lemma StepProgress(target: Dep, all: seq<Dep>, needed: set<string>, stack: seq<string>)
    requires stack != [] && Progress(target, all, needed, stack)
    ensures var n, rest := stack[|stack| - 1], stack[..|stack| - 1];
            if n in needed then Progress(target, all, needed, rest)
            else Progress(target, all, needed + {n}, rest + DependenciesOf(all, n))
  {
    hide Needs, NeededNames, DependenciesOf;
    var n, rest := stack[|stack| - 1], stack[..|stack| - 1];
    assert stack == rest + [n];
    forall d | d in DependenciesOf(all, n) ensures Needs(target, all, d) && d in NeededNames(target, all) {
      NeedsNext(target, all, n, d);
    }
  }

  lemma {:induction false} ChainIsFound(target: Dep, all: seq<Dep>, needed: set<string>, c: seq<string>, i: nat)
    requires Progress(target, all, needed, []) && IsChain(target, all, c) && i < |c|
    ensures c[i] in needed
    decreases i
  {
    if i > 0 {
      ChainIsFound(target, all, needed, c, i - 1);
      assert DependsOn(all, c[i - 1], c[i - 1 + 1]);
      DependenciesMeanDependsOn(all, c[i - 1]);
    }
  }

  lemma AllFound(target: Dep, all: seq<Dep>, needed: set<string>)
    requires Progress(target, all, needed, [])
    ensures Needed(target, all, needed)
  {
    forall n | Needs(target, all, n) ensures n in needed {
      var c :| IsChain(target, all, c) && c[|c| - 1] == n;
      ChainIsFound(target, all, needed, c, |c| - 1);
    }
  }

  /** `transitive_dep_source_dirs`. The stack can grow, but only when a new name is found. */
  method TransitiveDepSourceDirs(target: Dep, all: seq<Dep>) returns (dirs: seq<string>)
    ensures exists needed :: Needed(target, all, needed) && dirs == Dirs(Emitted(all, needed))
    ensures exists needed, at :: Needed(target, all, needed) && AreDirsAt(all, needed, dirs, at)
  {
    hide Progress, NeededNames, Needed;
    var found: set<string>, stack := {}, target.dependencies;
    StartProgress(target, all);
    while stack != []
      invariant Progress(target, all, found, stack)
      decreases NeededNames(target, all) - found, |stack|
    {
      StepProgress(target, all, found, stack);
      PoppedIsKnown(target, all, found, stack);
      var n := stack[|stack| - 1];
      stack := stack[..|stack| - 1];
      if n !in found {
        found := found + {n};
        var d := Lookup(all, n);
        if d.Some? {
          stack := stack + d.value.dependencies;
        } else {
          assert stack + [] == stack;
        }
      }
    }
    AllFound(target, all, found);
    dirs := [];
    for i := 0 to |all|
      invariant dirs == Dirs(Emitted(all[..i], found))
    {
      assert all[..i + 1][..i] == all[..i];
      if all[i].name in found { dirs := dirs + [all[i].dir]; }
    }
    assert all[..|all|] == all;
    ghost var at := EmittedAreAt(all, found);
  }

  lemma PoppedIsKnown(target: Dep, all: seq<Dep>, needed: set<string>, stack: seq<string>)
    requires stack != [] && Progress(target, all, needed, stack)
    ensures stack[|stack| - 1] in NeededNames(target, all)
  {
  }

  // ---------------------------------------------------------------------------------------
  // Over a resolved list.
  // ---------------------------------------------------------------------------------------

  /** Names are listed once, each package after its dependencies. */
  ghost predicate DepsFirst(all: seq<Dep>) {
    && (forall i, j :: 0 <= i < j < |all| ==> all[i].name != all[j].name)
    && (forall i :: 0 <= i < |all| ==> AreBefore(all, i))
  }

  ghost predicate AreBefore(all: seq<Dep>, i: nat)
    requires i < |all|
  {
    forall d :: d in all[i].dependencies ==> d in NamesIn(all[..i])
  }

  lemma ResolutionIsDepsFirst(world: World, roots: seq<Entry>, all: seq<Dep>)
    requires IsResolution(world, roots, all)
    ensures DepsFirst(all)
  {
    forall i | 0 <= i < |all| ensures AreBefore(all, i) {
      assert IsPlaced(world, roots, all, i);
    }
  }

  lemma LookupAt(all: seq<Dep>, k: nat)
    requires DepsFirst(all) && k < |all|
    ensures Lookup(all, all[k].name) == Some(all[k])
  {
    assert all[k].name in NamesIn(all);
    var d := Lookup(all, all[k].name).value;
    var j :| 0 <= j < |all| && all[j] == d;
  }

  /** A chain runs down the list: everything on it is listed before the target. */
  lemma {:induction false} ChainDescends(all: seq<Dep>, k: nat, c: seq<string>, i: nat)
    requires DepsFirst(all) && k < |all| && IsChain(all[k], all, c) && i < |c|
    ensures exists j :: 0 <= j < k && all[j].name == c[i]
    decreases i
  {
    if i == 0 {
      assert AreBefore(all, k);
      var j :| 0 <= j < k && all[..k][j].name == c[0];
      assert all[j].name == c[0];
    } else {
      ChainDescends(all, k, c, i - 1);
      var m :| 0 <= m < k && all[m].name == c[i - 1];
      LookupAt(all, m);
      assert AreBefore(all, m);
      assert DependsOn(all, c[i - 1], c[i - 1 + 1]);
      DependenciesMeanDependsOn(all, c[i - 1]);
      var j :| 0 <= j < m && all[..m][j].name == c[i];
      assert all[j].name == c[i];
    }
  }

  /** The closure never contains the target, and everything in it is listed before the target. */
  lemma NeverTheTarget(all: seq<Dep>, k: nat, n: string)
    requires DepsFirst(all) && k < |all| && Needs(all[k], all, n)
    ensures n != all[k].name && n in NamesIn(all[..k])
  {
    var c :| IsChain(all[k], all, c) && c[|c| - 1] == n;
    ChainDescends(all, k, c, |c| - 1);
    var j :| 0 <= j < k && all[j].name == n;
    assert all[..k][j].name == n;
  }

  lemma {:induction false} EmittedIs(all: seq<Dep>, needed: set<string>)
    ensures forall d :: d in Emitted(all, needed) <==> d in all && d.name in needed
  {
    if all != [] {
      EmittedIs(all[..|all| - 1], needed);
      assert all == all[..|all| - 1] + [all[|all| - 1]];
    }
  }

  /** What is emitted is again in order: each package once, after all its dependencies, none of
      which is left out. */
  lemma {:induction false} EmittedIsDepsFirst(target: Dep, all: seq<Dep>, needed: set<string>, n: nat)
    requires DepsFirst(all) && Needed(target, all, needed) && n <= |all|
    ensures DepsFirst(Emitted(all[..n], needed))
    ensures forall x :: x in NamesIn(all[..n]) && x in needed ==> x in NamesIn(Emitted(all[..n], needed))
    ensures forall x :: x in NamesIn(Emitted(all[..n], needed)) ==> x in NamesIn(all[..n])
    decreases n
  {
    hide Needed, DepsFirst, NamesIn, DependenciesOf, Emitted;
    if n == 0 {
      NothingInOrder(needed);
    } else {
      EmittedIsDepsFirst(target, all, needed, n - 1);
      var front, d := Emitted(all[..n - 1], needed), all[n - 1];
      EmittedStep(all, n - 1, needed);
      if d.name in needed {
        NewName(all, n - 1);
        forall x | x in d.dependencies ensures x in NamesIn(front) {
          NeededNext(target, all, needed, n - 1, x);
        }
        OneMoreInOrder(front, d);
      }
    }
  }

  lemma NothingInOrder(needed: set<string>)
    ensures DepsFirst([]) && NamesIn([]) == {} && Emitted([], needed) == []
  {
  }

  lemma EmittedStep(all: seq<Dep>, n: nat, needed: set<string>)
    requires n < |all|
    ensures var front, d := Emitted(all[..n], needed), all[n];
            && NamesIn(all[..n + 1]) == NamesIn(all[..n]) + {d.name}
            && Emitted(all[..n + 1], needed) == (if d.name in needed then front + [d] else front)
            && NamesIn(front + [d]) == NamesIn(front) + {d.name}
  {
    var front, d := Emitted(all[..n], needed), all[n];
    assert all[..n + 1] == all[..n] + [d] && all[..n + 1][..n] == all[..n];
    NamesOfMore(all[..n], d);
    NamesOfMore(front, d);
  }

  /** What a needed package depends on is needed, and listed before it. */
  lemma NeededNext(target: Dep, all: seq<Dep>, needed: set<string>, k: nat, x: string)
    requires DepsFirst(all) && Needed(target, all, needed) && k < |all| && all[k].name in needed
    requires x in all[k].dependencies
    ensures x in needed && x in NamesIn(all[..k])
  {
    LookupAt(all, k);
    assert AreBefore(all, k);
    NeedsNext(target, all, all[k].name, x);
  }

  lemma NamesOfMore(deps: seq<Dep>, d: Dep)
    ensures NamesIn(deps + [d]) == NamesIn(deps) + {d.name}
  {
    assert (deps + [d])[|deps|].name == d.name;
    assert forall i :: 0 <= i < |deps| ==> (deps + [d])[i] == deps[i];
  }

  lemma NewName(all: seq<Dep>, n: nat)
    requires DepsFirst(all) && n < |all|
    ensures all[n].name !in NamesIn(all[..n])
  {
  }

  lemma OneMoreInOrder(front: seq<Dep>, d: Dep)
    requires DepsFirst(front) && d.name !in NamesIn(front) && forall x :: x in d.dependencies ==> x in NamesIn(front)
    ensures DepsFirst(front + [d])
  {
    var more := front + [d];
    assert forall i :: 0 <= i < |front| ==> front[i].name in NamesIn(front);
    forall i | 0 <= i < |more| ensures AreBefore(more, i) {
      assert more[..i] == if i < |front| then front[..i] else front;
      assert i < |front| ==> AreBefore(front, i);
    }
  }

  /** The closure of a package of a resolved list: exactly its transitive dependencies, all of them
      listed, each after its own dependencies, and never the package itself. */
  lemma ClosureOfResolved(world: World, roots: seq<Entry>, all: seq<Dep>, k: nat, needed: set<string>)
    requires IsResolution(world, roots, all) && k < |all| && Needed(all[k], all, needed)
    ensures DepsFirst(Emitted(all, needed)) && all[k] !in Emitted(all, needed)
    ensures forall n :: n in NamesIn(Emitted(all, needed)) <==> Needs(all[k], all, n)
  {
    ResolutionIsDepsFirst(world, roots, all);
    EmittedIsDepsFirst(all[k], all, needed, |all|);
    assert all[..|all|] == all;
    EmittedIs(all, needed);
    forall n | Needs(all[k], all, n) ensures n != all[k].name && n in NamesIn(all) {
      NeverTheTarget(all, k, n);
      var j :| 0 <= j < k && all[..k][j].name == n;
      assert all[j].name == n;
    }
  }
}
