/** Resolving dependencies (`src/ruxen_cli/src/resolve_deps.rs`): a depth-first search that detects
    cycles by name, then a second one, with no such check, that sorts what the first found. */
module Resolve {
  import opened Common

  /** A line of a manifest: a name, and the directory its source was found in, if it has one. What
      workspace members, paths and git checkouts come to is settled here. */
  datatype Entry = Entry(name: string, target: Option<string>)

  /** The manifests on disk, by directory. A directory without one has no dependencies. */
  type World = map<string, seq<Entry>>

  datatype Dep = Dep(name: string, dir: string, dependencies: seq<string>)

  datatype Error = Circular(inWorkspace: bool) | NotLoaded(name: string)

  datatype Outcome = Sorted(deps: seq<Dep>) | Failed(error: Error)

  function EntriesOf(world: World, dir: string): seq<Entry> {
    if dir in world then world[dir] else []
  }

  function NamesOf(entries: seq<Entry>): seq<string> {
    seq(|entries|, i requires 0 <= i < |entries| => entries[i].name)
  }

  function EntryNames(world: World, roots: seq<Entry>): set<string> {
    (set d, i | d in world && 0 <= i < |world[d]| :: world[d][i].name) + (set i | 0 <= i < |roots| :: roots[i].name)
  }

  // ---------------------------------------------------------------------------------------
  // What resolution is about.
  // ---------------------------------------------------------------------------------------

  /** `f` is written in the manifest of the package that `e` names. */
  ghost predicate Follows(world: World, e: Entry, f: Entry) {
    e.target.Some? && e.target.value in world && f in world[e.target.value]
  }

  /** `names` are those written in the manifest in `dir`, line by line; without a manifest there are none. */
  ghost predicate AreWritten(world: World, dir: string, names: seq<string>) {
    if dir in world then
      && |names| == |world[dir]|
      && forall i :: 0 <= i < |names| ==> names[i] == world[dir][i].name
    else names == []
  }

  /** A walk through manifests, from the project's own. */
  ghost predicate IsPath(world: World, roots: seq<Entry>, p: seq<Entry>) {
    p != [] && p[0] in roots && forall i :: 0 <= i < |p| - 1 ==> Follows(world, p[i], p[i + 1])
  }

  /** Some name comes up twice. */
  ghost predicate Repeats(p: seq<Entry>) {
    exists i, j :: 0 <= i < j < |p| && p[i].name == p[j].name
  }

  ghost predicate HasCycle(world: World, roots: seq<Entry>) {
    exists p :: IsPath(world, roots, p) && Repeats(p)
  }

  ghost predicate LeadsTo(world: World, roots: seq<Entry>, e: Entry) {
    exists p :: IsPath(world, roots, p) && p[|p| - 1] == e
  }

  /** A name means the same package wherever it is written. */
  ghost predicate Consistent(world: World, roots: seq<Entry>) {
    forall e, f :: LeadsTo(world, roots, e) && LeadsTo(world, roots, f) && e.name == f.name ==> e == f
  }

  ghost predicate AllLoad(world: World, roots: seq<Entry>) {
    forall e :: LeadsTo(world, roots, e) ==> e.target.Some?
  }

  // ---------------------------------------------------------------------------------------
  // The first search.
  // ---------------------------------------------------------------------------------------

  /** `order` lists the packages resolved so far, each after its dependencies; each has what its
      manifest says, and a path leads to it. */
  ghost predicate InOrder(world: World, roots: seq<Entry>, resolved: map<string, Dep>, order: seq<string>) {
    && (forall n :: n in resolved <==> n in order)
    && (forall i, j :: 0 <= i < j < |order| ==> order[i] != order[j])
    && (forall i :: 0 <= i < |order| ==> IsSettledAt(world, roots, resolved, order, i))
  }

  ghost predicate IsSettledAt(world: World, roots: seq<Entry>, resolved: map<string, Dep>, order: seq<string>, i: nat)
    requires i < |order|
  {
    IsSettled(world, roots, resolved, order[..i], order[i])
  }

  ghost predicate IsSettled(world: World, roots: seq<Entry>, resolved: map<string, Dep>, before: seq<string>,
                            n: string)
  {
    && n in resolved
    && resolved[n].name == n
    && AreWritten(world, resolved[n].dir, resolved[n].dependencies)
    && (forall d :: d in resolved[n].dependencies ==> d in before)
    && LeadsTo(world, roots, Entry(n, Some(resolved[n].dir)))
  }

  /** Nothing already resolved is changed or reordered. */
  ghost predicate Continues(r0: map<string, Dep>, o0: seq<string>, r1: map<string, Dep>, o1: seq<string>) {
    o0 <= o1 && forall n :: n in r0 ==> n in r1 && r1[n] == r0[n]
  }

  lemma SettleOne(world: World, roots: seq<Entry>, resolved: map<string, Dep>, order: seq<string>, d: Dep)
    requires InOrder(world, roots, resolved, order) && d.name !in resolved
    requires AreWritten(world, d.dir, d.dependencies) && forall x :: x in d.dependencies ==> x in resolved
    requires LeadsTo(world, roots, Entry(d.name, Some(d.dir)))
    ensures InOrder(world, roots, resolved[d.name := d], order + [d.name])
    ensures Continues(resolved, order, resolved[d.name := d], order + [d.name])
  {
    hide IsSettled, LeadsTo;
    var more, r := order + [d.name], resolved[d.name := d];
    SettledNow(world, roots, resolved, order, d);
    forall i | 0 <= i < |more| ensures IsSettledAt(world, roots, r, more, i) {
      if i < |order| {
        assert more[..i] == order[..i] && IsSettledAt(world, roots, resolved, order, i);
        SettledStays(world, roots, resolved, order[..i], order[i], d);
      } else {
        assert more[..i] == order;
      }
    }
    forall n ensures n in r <==> n in more {
    }
  }

  lemma SettledNow(world: World, roots: seq<Entry>, resolved: map<string, Dep>, order: seq<string>, d: Dep)
    requires AreWritten(world, d.dir, d.dependencies) && forall x :: x in d.dependencies ==> x in order
    requires LeadsTo(world, roots, Entry(d.name, Some(d.dir)))
    ensures IsSettled(world, roots, resolved[d.name := d], order, d.name)
  {
  }

  lemma SettledStays(world: World, roots: seq<Entry>, resolved: map<string, Dep>, before: seq<string>, n: string,
                     d: Dep)
    requires IsSettled(world, roots, resolved, before, n) && d.name != n
    ensures IsSettled(world, roots, resolved[d.name := d], before, n)
  {
  }

  lemma StepPath(world: World, roots: seq<Entry>, p: seq<Entry>, e: Entry)
    requires IsPath(world, roots, p) && Follows(world, p[|p| - 1], e)
    ensures IsPath(world, roots, p + [e])
  {
    var q := p + [e];
    forall i | 0 <= i < |q| - 1 ensures Follows(world, q[i], q[i + 1]) {
      if i < |p| - 1 { assert q[i] == p[i] && q[i + 1] == p[i + 1]; }
    }
  }

  ghost predicate AllIn(p: seq<Entry>, workspace: set<string>) {
    forall i :: 0 <= i < |p| ==> p[i].name in workspace
  }

  /** There is a reason for the error: a path that repeats a name, all of its names those of workspace
      members exactly if it is reported so; or something without a source. */
  ghost predicate Explains(world: World, roots: seq<Entry>, workspace: set<string>, error: Error) {
    if error.Circular? then
      exists p :: IsPath(world, roots, p) && Repeats(p) && (error.inWorkspace <==> AllIn(p, workspace))
    else exists e :: LeadsTo(world, roots, e) && e.target.None? && e.name == error.name
  }

  lemma ContinuesSelf(r: map<string, Dep>, o: seq<string>)
    ensures Continues(r, o, r, o)
  {
  }

  lemma ContinuesTwice(r0: map<string, Dep>, o0: seq<string>, r1: map<string, Dep>, o1: seq<string>,
                       r2: map<string, Dep>, o2: seq<string>)
    requires Continues(r0, o0, r1, o1) && Continues(r1, o1, r2, o2)
    ensures Continues(r0, o0, r2, o2)
  {
  }

  lemma ContinuesKeeps(r0: map<string, Dep>, o0: seq<string>, r1: map<string, Dep>, o1: seq<string>)
    requires Continues(r0, o0, r1, o1)
    ensures forall n :: n in r0 ==> n in r1
  {
  }

  lemma LastLeadsTo(world: World, roots: seq<Entry>, p: seq<Entry>)
    requires IsPath(world, roots, p)
    ensures LeadsTo(world, roots, p[|p| - 1])
  {
  }

  /** The names on a call stack. */
  ghost predicate IsStack(names: set<string>, path: seq<Entry>) {
    forall n :: n in names <==> exists i :: 0 <= i < |path| && path[i].name == n
  }

  lemma StackPush(names: set<string>, path: seq<Entry>, e: Entry)
    requires IsStack(names, path)
    ensures IsStack(names + {e.name}, path + [e])
  {
    var here := path + [e];
    assert here[|path|].name == e.name;
    assert forall i :: 0 <= i < |path| ==> here[i] == path[i];
  }

  lemma RepeatExplains(world: World, roots: seq<Entry>, workspace: set<string>, names: set<string>, path: seq<Entry>,
                       e: Entry)
    requires IsPath(world, roots, path + [e]) && IsStack(names, path) && e.name in names
    ensures Explains(world, roots, workspace, Circular(workspace != {} && e.name in workspace && names <= workspace))
  {
    var i :| 0 <= i < |path| && path[i].name == e.name;
    var p := path + [e];
    assert p[i].name == p[|path|].name && Repeats(p);
    assert AllIn(p, workspace) <==> e.name in workspace && names <= workspace by {
      if AllIn(p, workspace) {
        forall n | n in names ensures n in workspace {
          var j :| 0 <= j < |path| && path[j].name == n;
          assert p[j].name in workspace;
        }
        assert p[|path|].name in workspace;
      }
    }
  }

  lemma UnloadedExplains(world: World, roots: seq<Entry>, workspace: set<string>, e: Entry)
    requires LeadsTo(world, roots, e)
    ensures e.target.None? ==> Explains(world, roots, workspace, NotLoaded(e.name))
  {
  }

  lemma AllResolved(entries: seq<Entry>, resolved: map<string, Dep>)
    requires forall k :: 0 <= k < |entries| ==> entries[k].name in resolved
    ensures forall x :: x in NamesOf(entries) ==> x in resolved
  {
  }

  class Resolver {
    const world: World
    const workspace: set<string>
    ghost const roots: seq<Entry>
    var resolved: map<string, Dep>
    var inFlight: set<string>
    ghost var order: seq<string>

    ghost predicate Valid()
      reads this
    {
      InOrder(world, roots, resolved, order) && forall n :: n in inFlight ==> n !in resolved
    }

    constructor (world: World, workspace: set<string>, ghost roots: seq<Entry>)
      ensures Valid() && this.world == world && this.workspace == workspace && this.roots == roots
      ensures inFlight == {} && order == [] && resolved == map[]
    {
      this.world, this.workspace, this.roots := world, workspace, roots;
      resolved, inFlight, order := map[], {}, [];
    }

    /** `resolve_dep`. The names in flight are exactly those on the call stack, `path`. */
    method ResolveDep(e: Entry, ghost path: seq<Entry>) returns (error: Option<Error>)
      requires Valid() && IsPath(world, roots, path + [e])
      requires IsStack(inFlight, path)
      modifies this
      decreases EntryNames(world, roots) - inFlight
      ensures error.None? ==>
                && Valid() && inFlight == old(inFlight) && e.name in resolved
                && Continues(old(resolved), old(order), resolved, order)
      ensures error.Some? ==> Explains(world, roots, workspace, error.value)
    {
      hide IsStack, InOrder, IsPath, LeadsTo, Continues, EntryNames, Explains, HasCycle;
      ContinuesSelf(resolved, order);
      if e.name in resolved { return None; }
      ghost var here := path + [e];
      LastLeadsTo(world, roots, here);
      NameIsKnown(world, roots, here);
      if e.name in inFlight {
        RepeatExplains(world, roots, workspace, inFlight, path, e);
        return Some(Circular(workspace != {} && e.name in workspace && inFlight <= workspace));
      }
      StackPush(inFlight, path, e);
      inFlight := inFlight + {e.name};
      UnloadedExplains(world, roots, workspace, e);
      if e.target.None? { return Some(NotLoaded(e.name)); }
      var dir := e.target.value;
      var entries := EntriesOf(world, dir);
      var depNames: seq<string> := [];
      ghost var flying := inFlight;
      for i := 0 to |entries|
        invariant Valid() && inFlight == flying && Continues(old(resolved), old(order), resolved, order)
        invariant depNames == NamesOf(entries[..i]) && forall k :: 0 <= k < i ==> entries[k].name in resolved
      {
        depNames := depNames + [entries[i].name];
        StepPath(world, roots, here, entries[i]);
        ghost var r, o := resolved, order;
        error := ResolveDep(entries[i], here);
        if error.Some? { return; }
        ContinuesTwice(old(resolved), old(order), r, o, resolved, order);
        ContinuesKeeps(r, o, resolved, order);
      }
      assert entries[..|entries|] == entries;
      var d := Dep(e.name, dir, depNames);
      AllResolved(entries, resolved);
      SettleOne(world, roots, resolved, order, d);
      ContinuesTwice(old(resolved), old(order), resolved, order, resolved[d.name := d], order + [d.name]);
      inFlight := inFlight - {e.name};
      resolved, order := resolved[e.name := d], order + [e.name];
      return None;
    }
  }

  /** A name on a path is one of the finitely many written in the manifests. */
  lemma NameIsKnown(world: World, roots: seq<Entry>, p: seq<Entry>)
    requires IsPath(world, roots, p)
    ensures p[|p| - 1].name in EntryNames(world, roots)
  {
    if |p| > 1 {
      assert Follows(world, p[|p| - 2], p[|p| - 2 + 1]);
      var d, e := p[|p| - 2].target.value, p[|p| - 1];
      var i :| 0 <= i < |world[d]| && world[d][i] == e;
    }
  }

  // ---------------------------------------------------------------------------------------
  // The second search.
  // ---------------------------------------------------------------------------------------

  /** Every dependency ranks below what depends on it. */
  ghost predicate Ranked(deps: map<string, Dep>, rank: map<string, nat>) {
    && rank.Keys == deps.Keys
    && (forall n :: n in deps ==> deps[n].name == n)
    && forall n, d :: n in deps && d in deps[n].dependencies && d in deps ==> rank[d] < rank[n]
  }

  function NamesIn(deps: seq<Dep>): set<string> {
    set i | 0 <= i < |deps| :: deps[i].name
  }

  /** Each of these is listed once, after those of its dependencies that are known. */
  ghost predicate IsSorted(known: map<string, Dep>, deps: seq<Dep>) {
    && (forall i :: 0 <= i < |deps| ==> deps[i].name in known && known[deps[i].name] == deps[i])
    && (forall i, j :: 0 <= i < j < |deps| ==> deps[i].name != deps[j].name)
    && (forall i, d :: 0 <= i < |deps| && d in deps[i].dependencies && d in known ==> d in NamesIn(deps[..i]))
  }

  /** Every name those packages mention. */
  function Mentioned(deps: map<string, Dep>): set<string> {
    deps.Keys + (set n, i | n in deps && 0 <= i < |deps[n].dependencies| :: deps[n].dependencies[i])
  }

  lemma SortOneMore(known: map<string, Dep>, deps: seq<Dep>, d: Dep)
    requires IsSorted(known, deps) && d.name in known && known[d.name] == d && d.name !in NamesIn(deps)
    requires forall x :: x in d.dependencies && x in known ==> x in NamesIn(deps)
    ensures IsSorted(known, deps + [d]) && NamesIn(deps + [d]) == NamesIn(deps) + {d.name}
  {
    var more := deps + [d];
    forall i, x | 0 <= i < |more| && x in more[i].dependencies && x in known ensures x in NamesIn(more[..i]) {
      assert more[..i] == if i < |deps| then deps[..i] else deps;
    }
    assert forall i :: 0 <= i < |deps| ==> deps[i].name in NamesIn(deps);
    assert more[|deps|].name == d.name && forall i :: 0 <= i < |deps| ==> more[i] == deps[i];
  }

  /** A visited dependency of what is being visited is not still open, so it has been listed. */
  lemma VisitedMeansListed(deps: map<string, Dep>, rank: map<string, nat>, visited: set<string>, open: set<string>,
                           result: seq<Dep>, name: string)
    requires Ranked(deps, rank) && name in deps && NamesIn(result) == (visited * deps.Keys) - (open + {name})
    requires forall k :: 0 <= k < |deps[name].dependencies| ==> deps[name].dependencies[k] in visited
    requires forall n :: n in open && n in deps ==> rank[name] < rank[n]
    ensures forall x :: x in deps[name].dependencies && x in deps ==> x in NamesIn(result)
    ensures (visited * deps.Keys) - (open + {name}) + {name} >= (visited * deps.Keys) - open
  {
  }

  class Sorter {
    const deps: map<string, Dep>
    ghost const rank: map<string, nat>
    var visited: set<string>
    var result: seq<Dep>

    /** `open` holds the names whose visit has begun but not ended. */
    ghost predicate Valid(open: set<string>)
      reads this
    {
      && Ranked(deps, rank) && IsSorted(deps, result) && visited <= Mentioned(deps)
      && open <= visited && NamesIn(result) == (visited * deps.Keys) - open
    }

    constructor (deps: map<string, Dep>, ghost rank: map<string, nat>)
      requires Ranked(deps, rank)
      ensures Valid({}) && this.deps == deps && visited == {} && result == []
    {
      this.deps, this.rank := deps, rank;
      visited, result := {}, [];
    }

    /** `topo_visit`. It does not look for cycles; that nothing still open ranks below what it visits
        is what makes "visited" mean "listed" for the children. */
    method TopoVisit(name: string, ghost open: set<string>)
      requires Valid(open) && name in Mentioned(deps)
      requires forall n :: n in open && n in deps && name in deps ==> rank[name] < rank[n]
      modifies this
      decreases Mentioned(deps) - visited
      ensures Valid(open) && name in visited && old(visited) <= visited && old(result) <= result
    {
      if name in visited { return; }
      visited := visited + {name};
      if name !in deps {
        assert visited * deps.Keys == (visited - {name}) * deps.Keys;
      } else {
        ghost var inside := open + {name};
        var dep := deps[name];
        for i := 0 to |dep.dependencies|
          invariant Valid(inside) && name in visited && old(visited) <= visited && old(result) <= result
          invariant forall k :: 0 <= k < i ==> dep.dependencies[k] in visited
        {
          TopoVisit(dep.dependencies[i], inside);
        }
        VisitedMeansListed(deps, rank, visited, open, result, name);
        SortOneMore(deps, result, dep);
        result := result + [dep];
      }
    }

    /** `topological_sort`, visiting the keys in whatever order the map lists them. */
    method TopologicalSort()
      requires Valid({}) && visited == {}
      modifies this
      ensures IsSorted(deps, result) && NamesIn(result) == deps.Keys
    {
      var rest := deps.Keys;
      while rest != {}
        invariant Valid({}) && rest <= deps.Keys && deps.Keys - rest <= visited
      {
        var name :| name in rest;
        TopoVisit(name, {});
        rest := rest - {name};
      }
    }
  }

  // ---------------------------------------------------------------------------------------
  // Both together.
  // ---------------------------------------------------------------------------------------

  /** Every package once, with what its manifest says, after its dependencies; the roots among them,
      and a path to each. */
  ghost predicate IsResolution(world: World, roots: seq<Entry>, deps: seq<Dep>) {
    && (forall i, j :: 0 <= i < j < |deps| ==> deps[i].name != deps[j].name)
    && (forall e :: e in roots ==> e.name in NamesIn(deps))
    && (forall i :: 0 <= i < |deps| ==> IsPlaced(world, roots, deps, i))
  }

  ghost predicate IsPlaced(world: World, roots: seq<Entry>, deps: seq<Dep>, i: nat)
    requires i < |deps|
  {
    var d := deps[i];
    && AreWritten(world, d.dir, d.dependencies)
    && (forall x :: x in d.dependencies ==> x in NamesIn(deps[..i]))
    && LeadsTo(world, roots, Entry(d.name, Some(d.dir)))
  }

  ghost predicate Answers(world: World, roots: seq<Entry>, workspace: set<string>, r: Outcome) {
    match r
    case Sorted(deps) => IsResolution(world, roots, deps)
    case Failed(error) => Explains(world, roots, workspace, error)
  }

  /** The order packages were resolved in, as ranks. */
  ghost function RankOf(order: seq<string>, n: string): nat
    requires n in order
  {
    var i :| 0 <= i < |order| && order[i] == n; i
  }

  ghost function Ranks(resolved: map<string, Dep>, order: seq<string>): map<string, nat>
    requires forall n :: n in resolved ==> n in order
  {
    map n | n in resolved :: RankOf(order, n)
  }

  /** What the first search leaves is what the second needs: the order of resolution is a ranking. */
  lemma OrderRanks(world: World, roots: seq<Entry>, resolved: map<string, Dep>, order: seq<string>)
    requires InOrder(world, roots, resolved, order)
    ensures Ranked(resolved, Ranks(resolved, order))
    ensures forall n, d :: n in resolved && d in resolved[n].dependencies ==> d in resolved
  {
    var rank := Ranks(resolved, order);
    forall n, d | n in resolved && d in resolved[n].dependencies
      ensures d in resolved && rank[d] < rank[n] && resolved[n].name == n
    {
      var i := rank[n];
      assert order[i] == n && IsSettledAt(world, roots, resolved, order, i);
      var j :| 0 <= j < i && order[..i][j] == d;
      assert order[j] == d && d in order;
    }
    forall n | n in resolved ensures resolved[n].name == n {
      assert IsSettledAt(world, roots, resolved, order, rank[n]);
    }
  }

  lemma SortedIsResolution(world: World, roots: seq<Entry>, resolved: map<string, Dep>, order: seq<string>,
                           deps: seq<Dep>)
    requires InOrder(world, roots, resolved, order) && IsSorted(resolved, deps) && NamesIn(deps) == resolved.Keys
    requires forall e :: e in roots ==> e.name in resolved
    ensures IsResolution(world, roots, deps)
  {
    hide IsPlaced, IsSettledAt, LeadsTo;
    OrderRanks(world, roots, resolved, order);
    OrderIsListing(world, roots, resolved, order);
    forall i | 0 <= i < |deps| ensures IsPlaced(world, roots, deps, i) {
      assert deps[i].name in resolved && deps[i].name in order;
      var k :| 0 <= k < |order| && order[k] == deps[i].name;
      SettledIsPlaced(world, roots, resolved, order, k, deps, i);
    }
    RootsListed(roots, resolved, deps);
  }

  lemma RootsListed(roots: seq<Entry>, resolved: map<string, Dep>, deps: seq<Dep>)
    requires NamesIn(deps) == resolved.Keys && forall e :: e in roots ==> e.name in resolved
    ensures forall e :: e in roots ==> e.name in NamesIn(deps)
  {
  }

  lemma SettledIsPlaced(world: World, roots: seq<Entry>, resolved: map<string, Dep>, order: seq<string>, k: nat,
                        deps: seq<Dep>, i: nat)
    requires IsSorted(resolved, deps) && i < |deps| && k < |order| && order[k] == deps[i].name
    requires IsSettledAt(world, roots, resolved, order, k)
    requires forall n, d :: n in resolved && d in resolved[n].dependencies ==> d in resolved
    ensures IsPlaced(world, roots, deps, i)
  {
    var d := deps[i];
    assert IsSettled(world, roots, resolved, order[..k], order[k]) && resolved[d.name] == d;
    forall x | x in d.dependencies ensures x in NamesIn(deps[..i]) {
      assert x in resolved;
    }
  }

  /** `resolve_with_workspace`. */
  method ResolveWithWorkspace(world: World, roots: seq<Entry>, workspace: set<string>) returns (r: Outcome)
    ensures Answers(world, roots, workspace, r)
  {
    hide InOrder, IsResolution, Explains, Ranked, IsSorted, Continues, Ranks, LeadsTo;
    var resolver := new Resolver(world, workspace, roots);
    for i := 0 to |roots|
      invariant resolver.Valid() && resolver.inFlight == {}
      invariant resolver.world == world && resolver.roots == roots && resolver.workspace == workspace
      invariant fresh(resolver)
      invariant forall k :: 0 <= k < i ==> roots[k].name in resolver.resolved
    {
      ghost var before, o := resolver.resolved, resolver.order;
      RootPath(world, roots, roots[i]);
      var error := resolver.ResolveDep(roots[i], []);
      if error.Some? { return Failed(error.value); }
      ContinuesKeeps(before, o, resolver.resolved, resolver.order);
    }
    OrderIsListing(world, roots, resolver.resolved, resolver.order);
    OrderRanks(world, roots, resolver.resolved, resolver.order);
    var sorter := new Sorter(resolver.resolved, Ranks(resolver.resolved, resolver.order));
    sorter.TopologicalSort();
    SortedIsResolution(world, roots, resolver.resolved, resolver.order, sorter.result);
    return Sorted(sorter.result);
  }

  lemma OrderIsListing(world: World, roots: seq<Entry>, resolved: map<string, Dep>, order: seq<string>)
    requires InOrder(world, roots, resolved, order)
    ensures forall n :: n in resolved ==> n in order
  {
  }

  lemma RootPath(world: World, roots: seq<Entry>, e: Entry)
    requires e in roots
    ensures IsPath(world, roots, [] + [e]) && IsStack({}, [])
  {
  }

  // ---------------------------------------------------------------------------------------
  // What an answer means, when names are used consistently.
  // ---------------------------------------------------------------------------------------

  lemma PathPrefix(world: World, roots: seq<Entry>, p: seq<Entry>, n: nat)
    requires IsPath(world, roots, p) && 0 < n <= |p|
    ensures IsPath(world, roots, p[..n])
    ensures LeadsTo(world, roots, p[n - 1])
  {
    var q := p[..n];
    forall i | 0 <= i < |q| - 1 ensures Follows(world, q[i], q[i + 1]) {
      assert Follows(world, p[i], p[i + 1]);
    }
    assert q[|q| - 1] == p[n - 1];
  }

  /** Where a name is listed. */
  ghost function PlaceOf(deps: seq<Dep>, n: string): (k: nat)
    requires n in NamesIn(deps)
    ensures k < |deps| && deps[k].name == n
  {
    var k :| 0 <= k < |deps| && deps[k].name == n; k
  }

  /** Whatever a path leads to under a name that is listed is the package listed. */
  ghost predicate Agrees(world: World, roots: seq<Entry>, deps: seq<Dep>) {
    forall e, k :: LeadsTo(world, roots, e) && 0 <= k < |deps| && deps[k].name == e.name ==>
      e.target == Some(deps[k].dir)
  }

  lemma ConsistentAgrees(world: World, roots: seq<Entry>, deps: seq<Dep>)
    requires Consistent(world, roots) && IsResolution(world, roots, deps)
    ensures Agrees(world, roots, deps)
  {
    hide LeadsTo;
    forall e, k | LeadsTo(world, roots, e) && 0 <= k < |deps| && deps[k].name == e.name
      ensures e.target == Some(deps[k].dir)
    {
      assert IsPlaced(world, roots, deps, k);
    }
  }

  /** Every name on a path is listed, and later ones are listed earlier. */
  lemma {:induction false} PathIsListed(world: World, roots: seq<Entry>, deps: seq<Dep>, p: seq<Entry>, n: nat)
    requires Agrees(world, roots, deps) && IsResolution(world, roots, deps) && IsPath(world, roots, p) && n < |p|
    ensures p[n].name in NamesIn(deps)
    ensures forall i :: 0 <= i < n ==> p[i].name in NamesIn(deps) && PlaceOf(deps, p[n].name) < PlaceOf(deps, p[i].name)
    decreases n
  {
    hide LeadsTo;
    if n > 0 {
      PathIsListed(world, roots, deps, p, n - 1);
      var e, f := p[n - 1], p[n];
      assert Follows(world, e, p[n - 1 + 1]);
      var k := PlaceOf(deps, e.name);
      PathPrefix(world, roots, p, n);
      assert IsPlaced(world, roots, deps, k);
      NameInNames(EntriesOf(world, deps[k].dir), f);
      ListedBefore(world, roots, deps, k, f.name);
    }
  }

  lemma NameInNames(entries: seq<Entry>, e: Entry)
    requires e in entries
    ensures e.name in NamesOf(entries)
  {
    var i :| 0 <= i < |entries| && entries[i] == e;
    assert NamesOf(entries)[i] == e.name;
  }

  lemma ListedBefore(world: World, roots: seq<Entry>, deps: seq<Dep>, k: nat, x: string)
    requires IsResolution(world, roots, deps) && k < |deps| && x in NamesIn(deps[..k])
    ensures x in NamesIn(deps) && PlaceOf(deps, x) < k
  {
    var j :| 0 <= j < k && deps[..k][j].name == x;
    assert deps[j].name == x;
  }

  /** The list holds exactly the packages some path leads to. */
  lemma ListedIffReachable(world: World, roots: seq<Entry>, deps: seq<Dep>, n: string)
    requires Agrees(world, roots, deps) && IsResolution(world, roots, deps)
    ensures n in NamesIn(deps) <==> exists e :: LeadsTo(world, roots, e) && e.name == n
  {
    if n in NamesIn(deps) {
      var k := PlaceOf(deps, n);
      assert IsPlaced(world, roots, deps, k);
    }
    if e :| LeadsTo(world, roots, e) && e.name == n {
      var p :| IsPath(world, roots, p) && p[|p| - 1] == e;
      PathIsListed(world, roots, deps, p, |p| - 1);
    }
  }

  lemma SuccessMeansNoCycle(world: World, roots: seq<Entry>, deps: seq<Dep>, p: seq<Entry>)
    requires Agrees(world, roots, deps) && IsResolution(world, roots, deps) && IsPath(world, roots, p)
    ensures !Repeats(p)
  {
    if i, j :| 0 <= i < j < |p| && p[i].name == p[j].name {
      PathIsListed(world, roots, deps, p, j);
      assert false;
    }
  }

  /** When every source loads, only a circular dependency is ever reported, and only if there is a cycle; a
      cycle is missed only if it leads through a directory other than the one listed under its name. So with
      consistent names one is reported exactly if there is one. */
  lemma CircularIff(world: World, roots: seq<Entry>, workspace: set<string>, r: Outcome)
    requires AllLoad(world, roots) && Answers(world, roots, workspace, r)
    ensures r.Failed? ==> HasCycle(world, roots) && r.error.Circular?
    ensures r.Sorted? && HasCycle(world, roots) ==> !Agrees(world, roots, r.deps)
    ensures Consistent(world, roots) ==> (r.Failed? <==> HasCycle(world, roots))
  {
    hide LeadsTo, Agrees, Consistent;
    if HasCycle(world, roots) && r.Sorted? {
      var p :| IsPath(world, roots, p) && Repeats(p);
      if Consistent(world, roots) { ConsistentAgrees(world, roots, r.deps); }
      if Agrees(world, roots, r.deps) { SuccessMeansNoCycle(world, roots, r.deps, p); }
    }
  }

  // ---------------------------------------------------------------------------------------
  // A cycle that is missed.
  // ---------------------------------------------------------------------------------------

  function At(name: string, dir: string): Entry {
    Entry(name, Some(dir))
  }

  /** `A` needs the `C` in directory `c`; `B` needs another, in `d`, which needs `B`. */
  function TwoOfOneName(): World {
    map["a" := [At("C", "c")], "b" := [At("C", "d")], "d" := [At("B", "b")]]
  }

  function AThenB(): seq<Entry> {
    [At("A", "a"), At("B", "b")]
  }

  /** What is listed: once `C` has been resolved, the second one is not looked at. */
  function FirstOfTwo(): seq<Dep> {
    [Dep("C", "c", []), Dep("A", "a", ["C"]), Dep("B", "b", ["C"])]
  }

  lemma PathOf(p: seq<Entry>)
    requires p != [] && p[0] in AThenB() && forall i :: 0 <= i < |p| - 1 ==> Follows(TwoOfOneName(), p[i], p[i + 1])
    ensures LeadsTo(TwoOfOneName(), AThenB(), p[|p| - 1])
  {
    assert IsPath(TwoOfOneName(), AThenB(), p);
  }

  lemma AllOfThemLoad()
    ensures AllLoad(TwoOfOneName(), AThenB())
  {
    hide LeadsTo;
    forall e | LeadsTo(TwoOfOneName(), AThenB(), e) ensures e.target.Some? {
      EndLoads(e);
    }
  }

  lemma EndLoads(e: Entry)
    requires LeadsTo(TwoOfOneName(), AThenB(), e)
    ensures e.target.Some?
  {
    var p :| IsPath(TwoOfOneName(), AThenB(), p) && p[|p| - 1] == e;
    if |p| > 1 { assert Follows(TwoOfOneName(), p[|p| - 2], p[|p| - 2 + 1]); }
  }

  lemma FirstOfTwoIsPlaced()
    ensures forall i :: 0 <= i < 3 ==> IsPlaced(TwoOfOneName(), AThenB(), FirstOfTwo(), i)
  {
    hide LeadsTo;
    var w, deps := TwoOfOneName(), FirstOfTwo();
    assert Follows(w, At("A", "a"), At("C", "c"));
    PathOf([At("A", "a"), At("C", "c")]);
    PathOf([At("A", "a")]);
    PathOf([At("B", "b")]);
    assert NamesOf(EntriesOf(w, "a")) == ["C"] && NamesOf(EntriesOf(w, "b")) == ["C"];
    assert NamesOf(EntriesOf(w, "c")) == [];
    assert deps[..1][0].name == "C" && deps[..2][0].name == "C";
  }

  /** The list answers the question, although the second `C` and `B` need each other. */
  lemma SecondOfANameHidesACycle()
    ensures AllLoad(TwoOfOneName(), AThenB()) && HasCycle(TwoOfOneName(), AThenB())
    ensures Answers(TwoOfOneName(), AThenB(), {}, Sorted(FirstOfTwo()))
  {
    hide LeadsTo, IsPlaced;
    var w, deps, p := TwoOfOneName(), FirstOfTwo(), [At("B", "b"), At("C", "d"), At("B", "b")];
    AllOfThemLoad();
    FirstOfTwoIsPlaced();
    assert deps[1].name == "A" && deps[2].name == "B";
    assert Follows(w, p[0], p[1]) && Follows(w, p[1], p[2]);
    assert IsPath(w, AThenB(), p) && p[0].name == p[2].name;
  }
}
