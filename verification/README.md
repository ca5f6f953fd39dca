# Ruxen: a verified model of its session, resolver and editor arithmetic

Ruxen is a compiled language with a REPL, a package tool and a language server, written in Rust. This
Dafny project models the parts of it whose correctness spans several functions or a whole run, and
proves what they promise. `dafny verify dfyconfig.toml` checks all of it.

## The REPL

Every input is compiled into a wrapper that loads the saved `Int` variables from slots, runs the
rewritten history with output suppressed, refreshes the slots the history may have moved, runs the
input, stores the slots, and returns the input's value. The promise is that a session of such
wrappers behaves like one program that runs each input once.

- `ReplSyntax`: the input language and the REPL's own syntactic walkers, arm for arm.
- `ReplSemantics`, `ReplSteps`: big-step semantics. Variables live in cells, closures hold the cells they
  capture, `push` and `remove` mutate arrays in place, `return` can leave a wrapper, and fuel bounds
  loops and closure calls.
- `ReplFrames`: what one run keeps. A run never touches a variable it does not name as a target.
- `ReplSimulation`: two runs from corresponding states stay in correspondence, whichever cells they use.
- `ReplKinds`: checked code without unbounded loops, closure calls, `remove` and `return` cannot fail.
- `ReplSession`: the slot table, the history, `build_program` and the session object, as a class.
- `ReplReplay`: replaying the rewritten history rebuilds the state of the once-through program.
- `ReplRuns`, `ReplTheorems`: the pieces of a wrapper, then one input, then whole sessions.
- `ReplFaithful`: histories whose replay needs no assumption that it completes.
- `ReplLosses`, `ReplReads`, `ReplPinned`, `ReplReturns`, `ReplStale`, `ReplCollision`, `ReplWedge`, `ReplLimits`:
  where the conditions bite, by exact conditions and by sessions that run into them.

A replayed statement sees the latest slots, not those of its own time. So the central notion is
`VolatileAt(inputs, k, ...)`: the slot variables that the `k`-th input or a later one changes, and those
the replay itself or a closure may write. An input is replayed faithfully if it, and the closures known
by then if it calls any, read none of them but to update that same variable; what changed before it is no
obstacle. An input that writes only slot variables may be replayed or not: the slots are loaded again.

The main theorem is `ReplTheorems.SessionIsOnceThrough`. Its conditions (`Sound`) are those the code
needs: every input so far is of one of these two kinds and closures do not outlive a redeclaration of a slot
variable they hold (`Replayable`), the mutation walker sees every assignment to a slot name
(`Transparent`), no two variables have one slot and none gets a slot after having been without
(`Admissible`), and the wrappers' prefixes run to their end. The last need not be assumed if what is
replayed is replayed faithfully or cannot fail (`ReplFaithful.SteadySessionIsOnceThrough`). Outside them:

- an input that is not replayed is lost exactly if it did something (`ReplLosses.NotReplayedIsLostIff`):
  `x = v.remove(0)` with a saved `x` is dropped from the replay together with its effect on `v`, and
  `1 + v.remove(0)` is not recorded at all; afterwards `v.len` shows the old length;
- a replayed statement that reads a slot variable which has changed since does what it would do with today's
  values: what it leaves in an array is right exactly if, run from the state before it with the values the
  slots hold now, it leaves the same (`ReplReads.StaleInputIff`); for `v.push(x)` that is exactly if the slot
  of `x` holds what `x` was worth then (`ReplReads.StaleReadIff`), so that after `let n = a`, `let v = []`,
  `v.push(n)`, `n = b` the session's `v.remove(0)` gives `b` and the program's gives `a`. From the first such
  statement on, a wrapper has what the rest of the history leaves when every variable with a slot is pinned to
  its slot's value (`ReplPinned.StaleHistoryIff`);
- a `return` that fires in the replay leaves the suppression flag up, and every later expression is silent;
  `if n == c { return }` does that exactly when the slot of `n` holds `c` (`ReplReturns`);
- a closure keeps the variable it captured, but its replay captures the slot; they find the same exactly if the
  captured variable is worth what the slot holds, as it always is unless the variable was declared again
  (`ReplStale.ClosureFindsTheSlot`): after `let n = a`, `let f = { |x| x + n }`, `let n = b` the session's
  `f.(c)` adds `b` and the program's adds `a`;
- `unregister_var` shrinks the list whose length gives the next index, so that after `let a = 1`,
  `let b = 2`, `let a = []`, `let c = 3` the variable `b` reads 3 (`ReplCollision`). The comment at
  `src/ruxen_repl/src/session.rs:165` calls the indices append-only; the model follows the code;
- `let v = 5` after `let v = []` and `v.push(1)` gives `v` a slot, which drops the array from the replay but
  not the `push`. If all else in the history type checks and cannot fail, a wrapper gets through its replay
  exactly if nothing in it treats a variable with a slot as an array (`ReplWedge.WrapperRunsIff`). So neither
  that input nor any later expression or `Int` binding runs; and for a binding of `v` to something else, which
  would take the slot away, the wrapper of the probe that must find that out does not run either
  (`ReplWedge.WedgedForGood`);
- a slot variable starts from its slot's value exactly if the walker finds an assignment to it in the replay or
  the replay has left it as it was loaded (`ReplLimits.RestoredIff`): after `let n = a`, `unsafe { n += 1 }` the
  session shows for `n` one more than the program.

## The resolver

`Resolve` models the two depth-first searches over a finite map from directories to manifests: the
first detects cycles by the names on its call stack, the second sorts and checks nothing. The order in
which the first one finishes is the ranking that makes the second correct. `Closure` is the worklist
that collects one package's transitive dependencies. Cycles are found by name, and of two packages of one
name only the first is looked at: a cycle is missed only if it leads through a directory other than the one
listed under its name (`Resolve.CircularIff`), as one does in `Resolve.SecondOfANameHidesACycle`.

## Editor arithmetic

- `Utf` and `LineIndex`: UTF-8 bytes (section 3 of RFC 3629) against UTF-16 columns (sections 2.1 and 2.2
  of RFC 2781; the "Position" heading of LSP 3.17).
- `SignatureHelp`, `CallTrees`: a backward scan with three independent counters against a forward stack parser,
  and both against text built from trees.
  Its documentation (`src/ruxen_ide/src/signature_help.rs:79`) says comments are opaque; they are not,
  and the model says exactly when that does no harm.
- `Rename`: narrowing recorded spans to whole words, and what applying the edits does to the text.
- `SemanticTokens`: sorting, removing duplicates and delta encoding (the "Semantic Tokens" heading of
  LSP 3.17). The comment at `src/ruxen_ide/src/semantic_tokens.rs:427` says the last of two duplicates
  is kept; the code keeps the first, and so does the model.

## Parsers and splitters

- `Version`: requirements, their parser and printer, and the order of section 11 of SemVer 2.0.0
  restricted to major, minor and patch.
- `Chunks`: the splitter for piped input, over any tokenizer. Text the tokenizer rejects for any other
  reason than something unterminated, of however many lines, is dropped without being reported.
- `Common` and `Text` hold what several modules share.

## Model

| member | source | states |
|---|---|---|
| ReplTheorems.SessionIsOnceThrough | src/ruxen_repl/src/eval.rs:1391-1697 | over every session whose histories can be replayed, if the inputs run through once in order, so does the session; after each input every slot holds the program's value, every input shows the program's value (unit if a `return` is written, outside closures, in it or in what is replayed for it), and the outputs together are the program's output |
| ReplFaithful.SteadySessionIsOnceThrough | src/ruxen_repl/src/eval.rs:1391-1697 | the same without any assumption about wrappers completing, for sessions whose inputs are each replayed faithfully, or left out of the replay, or cannot fail in it |
| ReplFaithful.ReplayCompletes | src/ruxen_repl/src/eval.rs:77-172 | the replay of such a history runs to its end and rebuilds what the history built |
| ReplFaithful.PrefixGoes | src/ruxen_repl/src/eval.rs:1475-1542 | a session in step with such a history has a next wrapper whose prefix runs to its end |
| ReplFaithful.NothingVolatileIsFaithful | src/ruxen_repl/src/eval.rs:77-172 | where no slot variable changes any more, whatever is replayed is replayed faithfully, closure calls included |
| ReplFaithful.SlotlessIsSteady | src/ruxen_repl/src/eval.rs:77-122 | a session without `Int` variables whose inputs are recorded or touch nothing meets all the conditions |
| ReplKinds.CheckedRuns | src/ruxen_repl/src/eval.rs:960-969 | code that type checks and has no unbounded loop, closure call, `remove` or `return` runs to its end whatever values its variables hold, so replaying it on changed slots cannot fail |
| ReplTheorems.StepIsProgramStep | src/ruxen_repl/src/eval.rs:547-724 | one more input does in its wrapper what it does next in the program, prints exactly that, and leaves the session in step, also when it turns an `Int` into something else |
| ReplTheorems.ProbeKeepsEntries | src/ruxen_repl/src/eval.rs:625-683 | before the wrapper is built, at most one entry is added, for the input's own new `Int`, and at most one dropped, for its own name turned into something else |
| ReplTheorems.ProbeAgrees | src/ruxen_repl/src/eval.rs:625-683 | the table so changed still has distinct names and slots, and its slots hold the program's values |
| ReplReplay.Rebuild | src/ruxen_repl/src/eval.rs:77-172 | replaying the rewritten history up to any input rebuilds, cell for cell, every variable without a slot and every slot variable that does not change from there on, closures and their captured cells included |
| ReplReplay.RebuildFaithful | src/ruxen_repl/src/eval.rs:142-172 | an input replayed as recorded, which with the closures it may call reads no slot variable that changes then or later except to update it, does to the rebuilt state what it did to the program's |
| ReplReplay.RebuildHarmless | src/ruxen_repl/src/eval.rs:77-122 | an input that writes only slot variables may be replayed or dropped: the rebuilt state still corresponds |
| ReplReplay.Settle | src/ruxen_repl/src/eval.rs:1481 | after its last change a slot variable is in the program what its slot holds at the end, so from there on replayed code may read it |
| ReplReplay.UntouchedToTheEnd | src/ruxen_repl/src/eval.rs:1481 | a variable that nothing writes or redeclares from some input on keeps its cell and value from there to the end |
| ReplRuns.PrefixRestores | src/ruxen_repl/src/eval.rs:1475-1542 | after load, replay and refresh the wrapper's state corresponds to the program's in every variable, nothing is printed and the flag is down |
| ReplRuns.LoadsRun | src/ruxen_repl/src/eval.rs:1481-1485 | loading gives each slot variable its own cell with its slot's value |
| ReplRuns.RegionRun | src/ruxen_repl/src/eval.rs:1432-1436 | the replay region prints nothing, ends where the replayed code ends and puts the flag down |
| ReplRuns.RefreshesRun | src/ruxen_repl/src/eval.rs:1503-1540 | refreshing writes the slots the walker named into the cells already in place, and changes no other cell and no binding |
| ReplRuns.StoresRun | src/ruxen_repl/src/eval.rs:1941-1968 | storing writes every slot variable's value to its own slot |
| ReplRuns.WalkerSound | src/ruxen_repl/src/eval.rs:287-426 | if the walker answers "no" for a name on code it sees through, no run of that code, closures included, changes an `Int` variable of that name |
| ReplRuns.ReplayUnassigned | src/ruxen_repl/src/eval.rs:287-426 | if every assignment to a slot name in the history is one the walker finds, its "no" on the replay means that there is none |
| ReplRuns.WalkableIsTransparent | src/ruxen_repl/src/eval.rs:287-426 | a history without the forms the walker does not enter hides no assignment from it |
| ReplRuns.RhsWalkerSound | src/ruxen_repl/src/eval.rs:198-253 | if the walker over right-hand sides answers "no" on forms it looks into, evaluating the right-hand side changes no session variable, so the binding can be left out of the replay |
| ReplRuns.UserSim | src/ruxen_repl/src/eval.rs:1542 | from corresponding states the input does in the wrapper what it does in the program: same output, same shown value, corresponding states after |
| ReplRuns.BodyRuns | src/ruxen_repl/src/eval.rs:1542-1697 | whichever tail a wrapper gets, the input runs once, every slot is stored after it, and the result is the input's value, or unit if a `return` is written, outside closures, in it or in the replay |
| ReplRuns.KeptTail | src/ruxen_repl/src/eval.rs:1604-1643 | binding the tail before the stores and reading it back after them keeps its value |
| ReplRuns.DroppedRead | src/ruxen_repl/src/eval.rs:1684-1696 | the display read dropped when a `return` appears would have changed nothing |
| ReplRuns.ReturnTail | src/ruxen_repl/src/eval.rs:1644-1697 | with a `return` in sight the stores still happen and the wrapper ends in unit |
| ReplSimulation.Sim | src/ruxen_repl/src/eval.rs:1503-1516 | running an expression in two states whose cells correspond one to one, but for the values of hidden variables that neither it nor a closure it may call reads, except to update them, gives corresponding values and states and the same output, the second silent if it is being replayed |
| ReplSimulation.SimBlock | src/ruxen_repl/src/capture.rs:111-131 | the same for statement lists: replay suppresses output and changes nothing else |
| ReplSteps.PutsPrints | src/ruxen_repl/src/capture.rs:111-131 | what is printed appears exactly once, behind what its argument printed, and not at all in the replay |
| ReplFrames.Frame | src/ruxen_repl/src/eval.rs:287-426 | an expression that names no variable as a target, and calls no stored closure or only such as do not either, leaves every cell of that name as it was |
| ReplFrames.Tidy | src/ruxen_repl/src/eval.rs:408-414 | every closure value in a run comes from a literal of the program and holds exactly cells of variables it captures |
| ReplFrames.ScanSeesReturns | src/ruxen_repl/src/eval.rs:1993-2033 | code in which the scan finds no `return` does not return, although the scan skips closure bodies |
| ReplFrames.ReturnsAreWritten | src/ruxen_repl/src/eval.rs:1993-2033 | code that returns has a `return` written in it outside closures |
| ReplSyntax.WalkerFindsAssignments | src/ruxen_repl/src/eval.rs:287-380 | on code without opaque forms the walker answers "yes" exactly when an assignment to the name occurs at any depth |
| ReplSyntax.WalkerFindsWhatItReaches | src/ruxen_repl/src/eval.rs:287-380 | on any code the walker answers "yes" exactly when an assignment to the name is written where it looks: in operands, bodies and closures, not in opaque forms |
| ReplSyntax.ScanFindsReturns | src/ruxen_repl/src/eval.rs:1993-2033 | the scan answers "yes" exactly when a `return` is written in the expression, at any depth, outside closure bodies and trailing blocks |
| ReplSyntax.RhsWalkerFindsCalls | src/ruxen_repl/src/eval.rs:198-253 | the walker over right-hand sides answers "yes" exactly when a method call whose chain of receivers starts from a session variable is written in a form it looks into |
| ReplSyntax.RewriteKeeps | src/ruxen_repl/src/eval.rs:142-172 | a statement is replayed whole exactly if it neither declares a slot variable nor assigns to one at its top; of the others only the right-hand side of a `let` with such a call is kept |
| ReplSyntax.RecordedForms | src/ruxen_repl/src/eval.rs:435-461 | recorded are exactly the forms that run statements, assign, print or call, and reading a length |
| ReplSession.ReplSession.constructor | src/ruxen_repl/src/session.rs:111-133 | a new session has no variables, 256 zero slots, an empty history and the flag down |
| ReplSession.ReplSession.Search | src/ruxen_repl/src/session.rs:146-148 | the search finds the first entry of the name, or none |
| ReplSession.ReplSession.RegisterVar | src/ruxen_repl/src/session.rs:176-200 | an existing entry keeps its index, a new one gets the table's length, and a full table is left alone |
| ReplSession.RegisterIs | src/ruxen_repl/src/session.rs:176-200 | in full: an entry keeps its place, name and index and takes the new type and mutability, a new one goes to the end, and the 257th is refused |
| ReplSession.ReplSession.UnregisterVar | src/ruxen_repl/src/session.rs:167-171 | exactly the entries of that name go, the others stay in order |
| ReplSession.UnregisterIs | src/ruxen_repl/src/session.rs:167-171 | unregistering goes entry by entry |
| ReplSession.ReplSession.Reset | src/ruxen_repl/src/session.rs:215-236 | after `:reset` the session is a new one, but for the replay flag |
| ReplSession.ReplSession.ReplayStatements | src/ruxen_repl/src/eval.rs:77-122 | the loop over the history keeps, in order, what the rewriter keeps |
| ReplSession.CollectOne | src/ruxen_repl/src/eval.rs:77-172 | a history of one statement replays as that statement, its right-hand side or nothing, by what is written in it |
| ReplSession.CollectJoin | src/ruxen_repl/src/eval.rs:77-122 | and a longer one statement by statement |
| ReplSession.ReplSession.BuildProgram | src/ruxen_repl/src/eval.rs:1391-1697 | pushing, popping and re-pushing statements assembles load, region, refresh, input, store and tail, in that order |
| ReplSession.WrapperIs | src/ruxen_repl/src/eval.rs:1542-1697 | the wrapper of every input, statement by statement: the input's own after the prefix, and then, with or without a `return` in sight and with or without slots, which tail it gets |
| ReplSession.EndingWithoutValue | src/ruxen_repl/src/eval.rs:1604-1697 | a body that does not end in an expression has no value to keep or drop: the stores follow it, and then unit if there is a `return` |
| ReplSession.LoadsAndStoresAre | src/ruxen_repl/src/eval.rs:1481-1485 | every `Int` variable is loaded with its own mutability and index, and stored to that index, and no other is |
| ReplSession.ReplSession.EvalInput | src/ruxen_repl/src/eval.rs:952-1209 | one input takes the session from its old state to the step's, and leaves it as probed if the wrapper does not finish |
| ReplLosses.NotReplayedIsLostIff | src/ruxen_repl/src/eval.rs:142-172 | in a session that replays exactly up to an input which is not replayed, every later wrapper has an array as it was before that input, which is right exactly if the input left it so |
| ReplLosses.CallsAreLostIff | src/ruxen_repl/src/eval.rs:142-172 | if all that such an input does to an array is `remove`s under operators, or one `push` whose result is assigned, every later wrapper has the program's array exactly if it contains no such call |
| ReplLosses.DroppedAssignmentLosesIff | src/ruxen_repl/src/eval.rs:160-168 | an assignment to a slot variable is dropped from the replay: every later wrapper has the program's array exactly if the right-hand side contains no call on it |
| ReplLosses.DroppedAssignmentLosesItsEffect | src/ruxen_repl/src/eval.rs:160-168 | for every element: the session `let v = []`, `v.push(k)`, `let x = 0`, `x = v.remove(0)` runs, and `v.len` then shows 1 where the program's is 0 |
| ReplLosses.UnrecordedOperatorLosesIff | src/ruxen_repl/src/eval.rs:435-461 | an operator's value is not recorded: every later wrapper has the program's array exactly if its operands contain no call on it |
| ReplLosses.UnrecordedIsPure | src/ruxen_repl/src/eval.rs:435-461 | an expression with no recorded form among its operands, at any depth, changes and prints nothing |
| ReplLosses.OperatorsHideMutations | src/ruxen_repl/src/eval.rs:435-461 | for every operator and element: after `let v = []`, `v.push(k)`, `n + v.remove(0)`, `v.len` shows 1 where the program's is 0 |
| ReplReads.StaleInputIff | src/ruxen_repl/src/eval.rs:1475-1542 | in a session that replays exactly up to some replayed input, whatever its form and whatever slot variables it reads, every later wrapper has in an array at rest what that input leaves there when run from the state before it with the values the slots hold now; so it has the program's array exactly if that run and the input's own leave the same |
| ReplReads.StaleFormulaIff | src/ruxen_repl/src/eval.rs:1481-1485 | for a push of an expression of operators over slot variables: exactly if the slots give the expression the worth the variables gave it then |
| ReplReads.StaleReadIff | src/ruxen_repl/src/eval.rs:1481-1485 | for a push of one slot variable: exactly if its slot holds what the variable was worth when the push first ran |
| ReplPinned.StaleHistoryIff | src/ruxen_repl/src/eval.rs:1475-1542 | for any number of such inputs: in a session that replays exactly up to some input, every later wrapper has in each variable without a slot, closures apart, what the remaining inputs leave there when run from the program's state before them with every slot variable pinned to what its slot holds now; so it has what the program has exactly if that run and the program leave the same |
| ReplPinned.PinnedReplays | src/ruxen_repl/src/eval.rs:142-172 | if the remaining inputs run through so pinned, so does the replay, and the two end in states that correspond cell for cell |
| ReplReads.ReplayedPushReadsTheSlot | src/ruxen_repl/src/eval.rs:1475-1542 | for all values: the session `let n = a`, `let v = []`, `v.push(n)`, `n = b` runs, and `v.remove(0)` then gives `b` where the program's gives `a` |
| ReplReturns.ReplayNeverEnds | src/ruxen_repl/src/eval.rs:1993-2033 | if no `return` was ever recorded, no replay of the history ends early |
| ReplReturns.StepNeverLeaves | src/ruxen_repl/src/eval.rs:1453-1455 | if neither the history nor the input contains a `return`, the wrapper is not left early |
| ReplReturns.ReplayedReturnSilences | src/ruxen_repl/src/eval.rs:1432-1436 | a `return` that fires in the replay ends the wrapper: no output, no store, and the flag stays up |
| ReplReturns.ReturnInReplayIsForever | src/ruxen_repl/src/eval.rs:1432-1436 | from then on, whatever expressions are entered, nothing is printed and no slot changes |
| ReplReturns.GuardedSessionEndsIff | src/ruxen_repl/src/eval.rs:1443-1453 | with one `if x == c { return }` in the history, on a slot variable the replay does not assign before it, every wrapper is left in its replay exactly if the slot of `x` holds `c` |
| ReplReturns.GuardedRun | src/ruxen_repl/src/eval.rs:1432-1436 | the session `let n = a`, `if n == c { return }`, `n = d` with `a` other than `c` runs, and is left in every later replay exactly if `d` is `c` |
| ReplReturns.ReturnIsRecorded | src/ruxen_repl/src/eval.rs:1124-1209 | after `let n = c` the input `if n == c { return }` leaves its wrapper, is recorded all the same, and fires again in every replay |
| ReplStale.ClosureFindsTheSlot | src/ruxen_repl/src/eval.rs:1475-1542 | take a history that replays exactly up to an input by which a closure, then left alone, holds a slot variable: in every later wrapper the replayed closure finds in it what the slot holds, the program's finds what the captured variable is worth, unwritten since then what it was worth before that input, and they find the same exactly if these are equal, which they are unless the variable is declared again |
| ReplStale.ClosuresFollowTheSlot | src/ruxen_repl/src/eval.rs:1475-1542 | an instance: after `let n = a`, a closure over `n`, `let n = b` the session's call of it with `c` gives `c + b` and the program's `c + a`, which differ exactly if `a` and `b` do |
| ReplCollision.ShadowingMakesSlotsCollide | src/ruxen_repl/src/eval.rs:638-680 | four inputs after which two live variables have the same slot |
| ReplCollision.SharedSlotShows | src/ruxen_repl/src/eval.rs:638-680 | that session runs, for all values, and then shows for the one variable the value of the other, where the program shows its own |
| ReplWedge.WrapperRunsIff | src/ruxen_repl/src/eval.rs:142-172 | if what is replayed type checks and cannot fail, but for uses of slot variables as arrays, the load, replay and refresh of any input's wrapper run to their end exactly if there is no such use, and with one the input is not run |
| ReplWedge.NoWrapperRuns | src/ruxen_repl/src/eval.rs:142-172 | if an expression in the history, which holds no `return`, treats a variable as an array, no wrapper built with a slot for it runs, whatever the input and the values |
| ReplWedge.WedgedForGood | src/ruxen_repl/src/eval.rs:625-683 | from then on every input fails, in any order, that does not bind the name to something other than an `Int`; and the wrapper with which the probe of such a binding is made fails too |
| ReplWedge.ASlotForAnArrayWedges | src/ruxen_repl/src/eval.rs:625-683 | after `let v = []`, `v.push(k)` the input `let v = m` fails, and so do all expressions and `Int` bindings after it |
| ReplLimits.RegisterKeepsIndicesIff | src/ruxen_repl/src/session.rs:176-200 | registering keeps indices distinct exactly if the name is known, the table is full, or no live entry has the table's length as its index |
| ReplLimits.RegisterKeepsPositions | src/ruxen_repl/src/session.rs:175-200 | while nothing is unregistered, indices are positions and hence distinct |
| ReplLimits.ShadowCollidesIff | src/ruxen_repl/src/session.rs:165-200 | dropping one name and registering a new one, or the same again, keeps indices distinct exactly if the name dropped was the last one registered |
| ReplLimits.RefreshMustAssign | src/ruxen_repl/src/eval.rs:1871-1928 | for every slot value, the wrapper built for calling a replayed closure stores what the closure did, and the same wrapper with a fresh `let` in place of the refresh loses it |
| ReplLimits.RestoredIff | src/ruxen_repl/src/eval.rs:1503-1540 | after the prefix of any wrapper a slot variable has its slot's value exactly if the walker answers "yes" for it or the replay has left it as it was loaded |
| ReplLimits.UnsafeEscapesTheWalker | src/ruxen_repl/src/eval.rs:378 | for every value: the session `let n = a`, `unsafe n += 1` runs, and then shows for `n` one more than the program does |
| ReplLimits.BoundRemovalIsReplayable | src/ruxen_repl/src/eval.rs:149-158 | a history whose `let x = v.remove(0)` is kept as its side effect can be replayed exactly |
| ReplLimits.ChangedBeforeIsReplayable | src/ruxen_repl/src/eval.rs:142-172 | so can one that pushes a variable changed before, and the result of a closure called after a variable has changed |
| ReplLimits.CountingIsReplayable | src/ruxen_repl/src/eval.rs:1503-1540 | so can a loop that pushes to an array and counts in a variable with a slot |
| Resolve.ResolveWithWorkspace | src/ruxen_cli/src/resolve_deps.rs:140-174 | a list on success holds every package once, after its dependencies, with the roots in it and a path to each; on failure there is a path that repeats a name, reported as a workspace cycle exactly if all its names are members, or a package without a source |
| Resolve.Resolver.ResolveDep | src/ruxen_cli/src/resolve_deps.rs:180-305 | the names in flight are exactly those on the call stack; resolving adds the name and what it needs in finishing order and changes nothing resolved before |
| Resolve.Sorter.TopoVisit | src/ruxen_cli/src/resolve_deps.rs:500-519 | although it looks for no cycle, it lists what it visits once, after its dependencies, because nothing still open ranks below it |
| Resolve.Sorter.TopologicalSort | src/ruxen_cli/src/resolve_deps.rs:489-498 | in whatever order the keys come, every package is listed once, after its dependencies |
| Resolve.OrderRanks | src/ruxen_cli/src/resolve_deps.rs:140-174 | the order in which the first search finishes is a ranking of what it found, and that is closed under dependencies |
| Resolve.ListedIffReachable | src/ruxen_cli/src/resolve_deps.rs:140-174 | if whatever a path leads to under a listed name is the package listed, the list holds exactly the packages a path leads to |
| Resolve.SuccessMeansNoCycle | src/ruxen_cli/src/resolve_deps.rs:190-212 | under the same condition, which consistent use of names implies, a successful resolution means no path repeats a name |
| Resolve.CircularIff | src/ruxen_cli/src/resolve_deps.rs:189-212 | when every source loads, only a circular dependency is ever reported, and only if a cycle can be reached; a cycle is missed only if it leads through a directory other than the one listed under its name, so with names used consistently one is reported exactly if there is one |
| Resolve.SecondOfANameHidesACycle | src/ruxen_cli/src/resolve_deps.rs:189-192 | a project in which `B` and the second of two packages named `C` need each other, for which the list with the first `C`, `A` and `B` meets all that a successful answer promises |
| Closure.TransitiveDepSourceDirs | src/ruxen_cli/src/build.rs:664-689 | the worklist ends, although its stack can grow, and emits the directories of exactly the listed packages whose names a chain of dependencies leads to, once each and in list order |
| Closure.DependenciesMeanDependsOn | src/ruxen_cli/src/build.rs:664-689 | a name stands for the last package listed under it |
| Closure.NeverTheTarget | src/ruxen_cli/src/build.rs:664-689 | what a listed package needs is listed before it, and is never the package itself |
| Closure.ClosureOfResolved | src/ruxen_cli/src/build.rs:664-689 | over a resolved list the closure is exactly the transitive dependencies, all listed, each after its own, without the target |
| Utf.CharsInvertsEncode | src/ruxen_ide/src/line_index.rs:57-58 | decoding UTF-8 gives back every text of 1- to 4-byte characters |
| Utf.BoundaryMeansOffset | src/ruxen_ide/src/line_index.rs:9-15 | a byte offset passes the boundary test exactly if a character, or the end, starts there |
| Utf.Utf16CharsInverts | src/ruxen_ide/src/line_index.rs:58-59 | decoding UTF-16, surrogates in pairs, gives back every text |
| Utf.UnitsOfChar | src/ruxen_ide/src/line_index.rs:88-92 | the number of code units reckoned for a character is the length of its UTF-16 form, one unit or a high and a low surrogate |
| LineIndex.New | src/ruxen_ide/src/line_index.rs:26-37 | one pass over the bytes records 0 and the offsets just past the newlines, those only and in order |
| LineIndex.FloorCharBoundary | src/ruxen_ide/src/line_index.rs:9-15 | walking back from the clamped index ends at the start of the character it falls in |
| LineIndex.PartitionPoint | src/ruxen_ide/src/line_index.rs:42-45 | the binary search splits the line starts into those at most the offset and those after it |
| LineIndex.PositionOf | src/ruxen_ide/src/line_index.rs:40-65 | the position of an offset is the number of newlines before its character, and the length of the UTF-16 encoding of what is between the last of them and it |
| LineIndex.PositionMeans | src/ruxen_ide/src/line_index.rs:40-65 | counting along the text gives that position and no other |
| LineIndex.ByteOffsetOf | src/ruxen_ide/src/line_index.rs:68-95 | the loop over the line's characters answers what the walk function does |
| LineIndex.OffsetRoundsUp | src/ruxen_ide/src/line_index.rs:68-95 | for any position on a line, the answer is the first boundary of the line at or past the column, or the line's end |
| LineIndex.OffsetIsFirst | src/ruxen_ide/src/line_index.rs:68-95 | for any position at all, the answer is the first character of the text that is not before it, or the text's end |
| LineIndex.SpanToRange | src/ruxen_ide/src/line_index.rs:98-103 | a span becomes the positions of its ends |
| LineIndex.OffsetThereAndBack | src/ruxen_ide/src/line_index.rs:40-95 | offset to position and back is the boundary at or before the offset |
| LineIndex.PositionThereAndBack | src/ruxen_ide/src/line_index.rs:40-95 | position to offset and back is the identity exactly on the positions some character or the end has |
| LineIndex.AddressableIff | src/ruxen_ide/src/line_index.rs:68-95 | those are exactly the positions whose line exists and whose column is the length of the UTF-16 encoding of a prefix of the line that stops before its newline |
| LineIndex.PositionsMonotone | src/ruxen_ide/src/line_index.rs:40-65 | a later offset has the same or a later position, and strictly later between boundaries |
| LineIndex.DisjointSpans | src/ruxen_ide/src/line_index.rs:98-103 | spans that do not overlap become ranges that do not |
| SignatureHelp.EnclosingCallContext | src/ruxen_ide/src/signature_help.rs:81-162 | the loop with three depths and a comma count answers what the scan function does |
| SignatureHelp.ScanBackToStringOpen | src/ruxen_ide/src/signature_help.rs:169-178 | it finds the nearest unescaped quote of the kind, or none |
| SignatureHelp.IsEscaped | src/ruxen_ide/src/signature_help.rs:180-188 | a byte is escaped exactly if an odd run of backslashes ends before it |
| SignatureHelp.BackwardMeetsForward | src/ruxen_ide/src/signature_help.rs:81-162 | on every properly nested prefix that ends outside a literal, the scan gives the innermost open bracket of a forward stack parser and its commas if it is a parenthesis, and nothing otherwise |
| SignatureHelp.ScanAgrees | src/ruxen_ide/src/signature_help.rs:91-157 | the same from any point on the way back: the counters say how many brackets are open beyond the cursor's |
| CallTrees.ScanFindsTheCall | src/ruxen_ide/src/signature_help.rs:81-162 | for text put together from nested brackets, literals and plain characters, with any brackets still open before the cursor and anything after it, the scan gives the last open bracket and the commas on its level if it is a parenthesis, and nothing otherwise |
| SignatureHelp.ThroughContent | src/ruxen_ide/src/signature_help.rs:106-117 | inside a literal without brackets and quotes the scan counts commas as if in code, takes the opening quote for a closing one, and goes on at the quote of its kind before it |
| SignatureHelp.InsideALiteral | src/ruxen_ide/src/signature_help.rs:106-117 | so, if all literals before the cursor are like that, with one kind of quote, it finds no call inside a literal, whatever call the literal is an argument of |
| SignatureHelp.LiteralArgumentIsMissed | src/ruxen_ide/src/signature_help.rs:106-117 | a cursor in the first argument of a call, for which the scan finds none |
| SignatureHelp.CommentsHarmlessIff | src/ruxen_ide/src/signature_help.rs:79-80 | if no comment holds a quote or a bracket, the scan is right about commented text exactly if the cursor is in no call's arguments or no comment directly inside its parentheses holds a comma |
| SignatureHelp.CommentsAreCounted | src/ruxen_ide/src/signature_help.rs:79-80 | a text where a comma in a comment moves the active parameter |
| Rename.NarrowToIdentifier | src/ruxen_ide/src/rename.rs:800-832 | the loop finds the first place in the span where the name stands with no identifier byte of the span beside it |
| Rename.CollectEdits | src/ruxen_ide/src/rename.rs:191-214 | the loop with its set of seen ranges gives each narrowed span once, in order |
| Rename.WordUnderCursor | src/ruxen_ide/src/rename.rs:408-440 | it answers with the one maximal identifier the cursor touches, exactly if there is one that does not start with a digit |
| Rename.NarrowFindsWordIff | src/ruxen_ide/src/rename.rs:800-832 | a narrowed span is a whole word exactly if it does not stop at an end of the recorded span that cuts a word |
| Rename.EditsAreWords | src/ruxen_ide/src/rename.rs:191-214 | with spans on word boundaries the edits are whole words of the old name, pairwise disjoint, and exactly where the uses narrow to, those that stand for nothing in the text left out |
| Rename.RenameIsOneText | src/ruxen_ide/src/rename.rs:191-214 | made in any order the edits give one text, changed only where the new name replaces an edit, and longer by their number times the difference of the names |
| Rename.AnyOrder | src/ruxen_ide/src/rename.rs:191-227 | disjoint edits made one after another, each where earlier ones moved it, give the text with all made at once |
| Rename.RenamedPlacesAreWords | src/ruxen_ide/src/rename.rs:191-214 | after the rename the new name stands as a whole word in place of every edit |
| Rename.ValidNamesAreWords | src/ruxen_ide/src/rename.rs:265-292 | an accepted new name consists of identifier bytes and does not start with a digit |
| Rename.ValidNamesAre | src/ruxen_ide/src/rename.rs:265-292 | accepted are exactly the names that are not reserved, do not begin with two underscores, begin with a lower-case letter or an underscore for values and an upper-case letter for types, and go on in letters, digits and underscores |
| Rename.IdentBytes | src/ruxen_ide/src/rename.rs:400-402 | the identifier bytes are exactly the ASCII letters, digits and underscore |
| Rename.RangesAreExact | src/ruxen_ide/src/rename.rs:209 | the ranges sent for an edit come back to its own bytes |
| Rename.HalfAWord | src/ruxen_ide/src/rename.rs:814-818 | a recorded span that ends inside a word makes the rename rewrite half of it |
| SemanticTokens.SortIsStable | src/ruxen_ide/src/semantic_tokens.rs:50-51 | sorting orders by line and start and keeps the order of tokens at one place |
| SemanticTokens.StableSortIsUnique | src/ruxen_ide/src/semantic_tokens.rs:50-51 | any two results of stable sorting are equal, so the library's algorithm does not matter |
| SemanticTokens.DedupTokens | src/ruxen_ide/src/semantic_tokens.rs:428-431 | the loop drops a token that covers the same text as the last one kept |
| SemanticTokens.LexicalWins | src/ruxen_ide/src/semantic_tokens.rs:53-54 | wherever there is a lexical token the first one survives, and what is left at a place is what deduplication leaves of the lexical tokens followed by the others |
| SemanticTokens.SecondSurvivesIff | src/ruxen_ide/src/semantic_tokens.rs:427-431 | of one token of each kind at a place, the second survives exactly if its length differs or it is the same token |
| SemanticTokens.DuplicatesStayIff | src/ruxen_ide/src/semantic_tokens.rs:427-431 | of any list, deduplication leaves two tokens that cover the same text exactly if one that covers another stood between two that do |
| SemanticTokens.DuplicatesApartStay | src/ruxen_ide/src/semantic_tokens.rs:428-431 | of a sorted list, exactly if a token of another length at the same place stood between two such tokens |
| SemanticTokens.EncodeDeltas | src/ruxen_ide/src/semantic_tokens.rs:433-459 | the loop with the previous line and start gives each token as its difference from the one before |
| SemanticTokens.ExpandDeltas | src/ruxen_ide/src/semantic_tokens.rs:467-481 | the decoder's loop places each token from the ones before it |
| SemanticTokens.DecodeInvertsEncode | src/ruxen_ide/src/semantic_tokens.rs:433-481 | decoding gives back every token's line, start, length and type exactly |
| SemanticTokens.ModifiersAreSent | src/ruxen_ide/src/semantic_tokens.rs:446-452 | every token's modifiers are sent unchanged |
| SemanticTokens.NoUnderflowIffSorted | src/ruxen_ide/src/semantic_tokens.rs:438-443 | encoding never goes below zero exactly if the tokens are sorted |
| SemanticTokens.PipelineIsExact | src/ruxen_ide/src/semantic_tokens.rs:39-58 | what a client decodes is in order, without underflow, without neighbours that cover the same text, and covers all that was collected |
| SemanticTokens.ClientSees | src/ruxen_ide/src/semantic_tokens.rs:39-58 | in lines, starts and lengths: what the client sees is in the order of the text with no two neighbours alike, all of it was collected, and it sees a token wherever one was collected |
| Version.TotalOrder | src/ruxen_cli/src/version.rs:69-76 | the order is a strict total order |
| Version.CaretIsInterval | src/ruxen_cli/src/version.rs:100-131 | caret and tilde match exactly the half-open interval from the base to its bump |
| Version.ComparatorsMean | src/ruxen_cli/src/version.rs:100-131 | what each of the eight comparators matches, in terms of the order by the first number that differs |
| Version.ComparatorLaws | src/ruxen_cli/src/version.rs:100-131 | at-least is the opposite of below, at-most of above, exact is both, and caret and tilde are at-least the base and below its bump |
| Version.RequirementsConjoin | src/ruxen_cli/src/version.rs:171-173 | a requirement matches exactly what all of its comparators match |
| Version.MatchesAreConvex | src/ruxen_cli/src/version.rs:171-173 | whatever lies between two matching versions matches |
| Version.VersionRoundTrip | src/ruxen_cli/src/version.rs:22-61 | printing a version of 64-bit numbers and parsing it gives it back |
| Version.ShorterAndLonger | src/ruxen_cli/src/version.rs:22-54 | one or two numbers make a version with zeros for the rest, and a fourth is refused |
| Version.NumbersParseIff | src/ruxen_cli/src/version.rs:22-54 | a decimal number parses exactly if it fits 64 bits, a plus sign in front makes no difference, and no digits are refused |
| Version.TextsOfNumberIff | src/ruxen_cli/src/version.rs:22-54 | the texts of a number are exactly its decimal form, with or without zeros and a plus sign before it, if it fits 64 bits |
| Version.EveryPartMustParse | src/ruxen_cli/src/version.rs:22-54 | a version of one, two or three parts parses exactly if each part does |
| Version.BareMeansCaret | src/ruxen_cli/src/version.rs:232-234 | a bare version parses as a caret requirement |
| Version.ComparatorRoundTrip | src/ruxen_cli/src/version.rs:196-235 | so for each of the eight comparators, although their prefixes overlap |
| Version.SymbolsMean | src/ruxen_cli/src/version.rs:176-235 | with which symbol each of the eight is printed and read |
| Version.SpacesDoNotMatter | src/ruxen_cli/src/version.rs:196-235 | white space around a comparator and between its symbol and version changes nothing |
| Version.ReqRoundTripIff | src/ruxen_cli/src/version.rs:151-194 | printing a requirement and parsing it gives it back exactly if it has a comparator |
| Version.PartByPart | src/ruxen_cli/src/version.rs:151-168 | any text is read comma by comma: it is a requirement exactly if every part is a comparator, and asks for what they ask for |
| Version.PrintedMeansTheSame | src/ruxen_cli/src/version.rs:151-194 | whatever text a requirement was parsed from, its printed form parses to it |
| Chunks.SplitReplChunks | src/ruxen_repl/src/lib.rs:38-371 | the chunks are those of the one split into shortest runs of whole lines that are complete: the first character that is no white space is a colon, or the tokenizer finds no string or comment unterminated and none of block, parenthesis, bracket and brace depth above zero |
| Chunks.StopsIff | src/ruxen_repl/src/lib.rs:346-365 | the tests of the loop mean that, and a complete run is kept exactly if it is a command or was tokenized with a meaningful token |
| Chunks.SplitConserves | src/ruxen_repl/src/lib.rs:38-371 | in order, the pieces kept and dropped and the rest make up the input, and the rest is missing only if blank |
| Chunks.PiecesAreJudged | src/ruxen_repl/src/lib.rs:346-365 | every piece is a command or has nothing left open, and is kept exactly if it is a command or holds a meaningful token |
| Chunks.ChunksAreShortest | src/ruxen_repl/src/lib.rs:38-371 | no shorter run of lines a chunk begins with was complete |
| Chunks.FirstPieceIsJudged | src/ruxen_repl/src/lib.rs:333-363 | the first piece of any input is a chunk exactly if it is a command or holds a meaningful token, and what follows is split as if alone |
| Chunks.RejectedTextIsDropped | src/ruxen_repl/src/lib.rs:333-363 | text of any number of lines that the tokenizer rejects, with nothing unterminated and no beginning that was a piece, yields no chunk, whatever follows |
| Chunks.RejectedLineIsDropped | src/ruxen_repl/src/lib.rs:333-363 | a single such line, for one |
| Chunks.SplitInParts | src/ruxen_repl/src/lib.rs:38-371 | input that ends a line and leaves nothing pending can be split apart from what follows it |
| Text.TrimIs | src/ruxen_repl/src/lib.rs:46-54 | trimming leaves what is between the first and the last character that is no white space, and nothing else does |
| Text.SpacesAre | src/ruxen_repl/src/lib.rs:46-54 | white space is the twenty-five characters with that Unicode property |

## Left out

- SessionIsOnceThrough: its condition on the history is sufficient, since a replay that reads changed variables can be right all the same; StaleHistoryIff and StaleInputIff say exactly when it is; that the replay region completes is assumed there, since a `return` or endless loop in it really does end the wrapper, and proved in SteadySessionIsOnceThrough.
- RebuildFaithful: which closure a call calls is not tracked, so an input that calls one is faithful only if no closure known by then reads a volatile variable; and variables are told apart by name, so a nested variable with the name of a volatile one counts as that.
- Rebuild: it stops where a slot variable that a closure holds is declared again, because the program's closure keeps the old variable and the replayed one gets the new; ClosureFindsTheSlot says what becomes of them. Outside it is also a closure that holds a slot variable which changes and shares its name with a nested variable.
- StaleHistoryIff: asks, as StaleInputIff does of the one input, that the remaining inputs read no slot variable that the replay itself writes, except to update it, that no nested variable has the name of a slot variable, and that they run through with the slots' values.
- StepIsProgramStep: inputs that give a slot to a variable that has been without, or a slot that another variable has, are outside it; WedgedForGood and SharedSlotShows say what happens there.
- Probe: it takes what type checking found about a `let` from the input. Where the probe's own wrapper does not type check, the source leaves the table as it is and rejects the input; the model has no such inputs.
- ReturnInReplayIsForever: expressions only, because a `let` can change the slot table and with it what is replayed.
- CallsAreLostIff: calls that run only under a condition, in a loop or in a closure are not counted; for those NotReplayedIsLostIff gives the condition by what the input did.
- CommentsHarmlessIff: comments that hold quotes or brackets are outside it, because delimiters in a comment can cancel each other out.
- CircularIff: without consistent names it says where a missed cycle must lead, not which projects have one missed; that depends on the order of the manifests' lines.
- BackwardMeetsForward: says nothing about a cursor inside a literal, where the scan takes the opening quote for a closing one; InsideALiteral says what it finds when no literal holds brackets or quotes.
- EditsAreWords: the recorded spans are an input, assumed to start and end between words; the index of uses is not modelled.
- The type checker: whether a `let` binds an `Int` comes with the input, as do parsing and the rejection of bad inputs.
- The borrow checker: it makes capture of a variable that is only read unobservable, so every captured variable is captured by its cell.
- Language forms whose treatment would repeat another's: one argument per call, one assignment form (a name), `unsafe` for all forms the mutation walker does not enter, no free functions, fields, strings, floats or destructuring.
- Loops and closure calls are bounded by fuel, the same for the program and the session; a run that needs more is a run that does not finish.
- JIT compilation, symbol registration and slot addresses: a slot is an array element and the suppression flag a boolean; the wrapper's tail name carries no counter.
- `func_defs`, `type_items`, `source_history` and commands other than `:reset`: they would only add easy members.
- TOML, git, file system and lock files: package sources are a finite map, and a registry dependency is one without a source.
- Overflow of the 32-bit depth counters on texts of more than two thousand million brackets; line numbers and columns are exact for texts below 2^32 bytes.
- A lone carriage return: LSP counts it as a line end, the line index does not, and the model follows the code.
- The tokenizer of the chunk splitter and its look-ahead for bodiless methods: any analysis of a text is allowed.
- The classification of tokens, names and definitions, keyword lists, and the position of the rename popup: plain matches.
