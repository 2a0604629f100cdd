# Olive: verified models of the compiler's self-contained algorithms

This project models, in Dafny, the algorithms of the Olive compiler that work on finite structures, and
proves what each of them is for. Every algorithm that the Rust source writes as loops over mutable state is a
method (or a class) here, proved against a specification that does not mention the algorithm: paths through a
control-flow graph, runs of a small abstract machine, the room left on an output line, all common subsequences
of two texts, all sets of non-overlapping edits, all printable types.

`dafny verify dfyconfig.toml` checks the whole project.

## The parts

**Control-flow analyses.** `mir.dfy` is the part of the MIR that the analyses read. `graphs.dfy` defines paths,
reachability and dominance. `postorder.dfy`, `dominator_tree.dfy` and `dominators.dfy` are the
Cooper-Harvey-Kennedy computation: an explicit-stack depth-first search yields a reverse postorder in which
every block but the entry has an earlier predecessor; each update of an immediate dominator moves it to an
ancestor in the current tree, so a potential drops and the iteration ends on every graph; a stable tree holds
exactly the blocks that lie on every path from the entry. `loops.dfy` adds natural loops and what follows from
dominance. `liveness.dfy` is backward liveness, exact at every program point, and `machine_flow.dfy` says what
jumps and liveness mean for the machine that runs a function. `move_paths.dfy`,
`flow_states.dfy`, `move_analysis.dfy` and `borrow_checker.dfy` are the forward checker: "use of moved value"
and "field may be left uninitialized" are reported exactly when some path deserves it, "may be uninitialized" only
when some path and always when every path deserves it, and the worklist ends. `checker_claims.dfy` puts what is reported
in terms of names, statements and the machine. `borrow_rules.dfy` and `borrow_walk.dfy` say what statements and
whole blocks do in any state, borrows included, `borrow_safety.dfy` what a silent checker guarantees, and
`borrow_loop.dfy` which loops with borrows keep the worklist busy for ever.

**A rewrite that keeps behaviour.** `line_context.dfy` is the dataflow pass with its fixed number of passes,
proved to reach the exact meet. `machine.dfy` is an abstract machine for MIR in which the results of everything
outside the function depend on the history of effects only, and in which the debugger's hooks work on mirror
cells. `hook_plan.dfy` says what every original block is to become, `instrumenter.dfy` rewrites the blocks in
place and splits them back to front, and `hook_simulation.dfy` proves that every run of the rewritten function
has the same locals, effects and result as the original, whatever each line check answers, makes exactly the
line checks that the original's run calls for, and stops exactly where a check is answered with something else than
0, with the named locals in view. `debug_hooks.dfy` adds which cells exist, which functions are left
to the state-machine lowering, and that every step from one line to another passes the check of the new line.

**Layout.** `doc_tree.dfy` has the documents and a printer that follows their structure and writes the text outright;
`doc.dfy` is the renderer, which writes the same text. The explicit-stack renderer equals a recursive layout, and the
lookahead and the renderer are coupled: what the lookahead accepts stays within the width up to the end of its
line, text after the group included.

**Diff and autofix.** `diff.dfy` is the longest-common-subsequence table and the script read off it;
`autofix.dfy` sorts edits, drops overlapping ones and splices bytes from the end backwards; `utf8.dfy` encodes, with
a decoder after section 4 of RFC 3629.

**Type syntax.** `type_syntax.dfy` has the printer, `type_display.dfy` ties the printed text to tokens,
`type_grammar.dfy` is the grammar as a function, `type_parser.dfy` the parser as a cursor that is updated in
place, `type_round_trip.dfy` and `type_image.dfy` the round trip. `type_spelling.dfy` says by recursion on a type
which tokens spell it, and that exactly those are accepted.

**Lexer layout and C structs.** `token_nesting.dfy` and `lexer.dfy` are the indentation and bracket machine,
proved against the tokens of a text as a function; `lexer_text.dfy` says how those tokens relate to the text.
`ctypes.dfy` and `abi.dfy` are struct layout and eightbyte classes, `c_layout.dfy` compares the layout with the C
ABI bit by bit. `options.dfy` and `text_search.dfy` are shared helpers.

## What the code turned out not to do

- A loop whose latch is its own header collects everything that reaches the header, so the header need not
  dominate the body: `Loops.HeaderDominatesBody` says exactly when it does.
- With borrows the checker's worklist need not end: a loop that takes a shared borrow of a local while another
  reference to it stays live raises the count with every visit (`BorrowLoop.SpinNeverSettles` is the smallest such
  loop). `BorrowLoop.SettlesExactly` says when such a loop's count comes to rest.
- The diff is empty for texts that differ only in how their lines end (`Diff.EmptyForDifferentTexts`); the
  comment on `unified` speaks of equal inputs.
- Unions nested to the right, and unions whose left side ends in a function type, do not survive printing,
  because parentheses are not printed (`TypeImage.RightUnionIsLost`, `TypeImage.OpenUnionIsLost`);
  `TypeImage.SurvivesExactly` says exactly which types do.
- A line is not checked even on first arrival when it is the only line that enters its own block, as in a bare
  entry block that leads to a one-line loop: no run of it ever stops (`DebugHooks.LoopIsNeverChecked`).
  `DebugHooks.FirstLineChecked` says exactly when the first line of a run is checked.
- An array of arrays in a C struct is laid out as one word at any depth, because the name is cut at its first
  semicolon, a count beyond 32 bits is read as one, and sizes wrap at 32 bits. `CTypes.LayoutAgreesWithC` says
  exactly which types are laid out as in C.
- The layout of structs with bitfields is not the platform's: C lets a bitfield share its storage unit with any
  other member, the code only with bitfields of the same size. A byte and an eight-bit field of an int, in either
  order, take two ints instead of one (`CLayout.PairNeedsTwoWords`). `CLayout.LayoutIsC` says exactly which field
  lists are laid out as in C.
- Nothing checks the width of a bitfield against its type. One that is too wide leaves its word
  (`CAbi.BitsStayInWords`) and overlaps the next field unless the padding in between holds the excess:
  `CAbi.Disjoint` says exactly for which field lists fields are disjoint, `CAbi.WideBitfieldOverlaps` shows an
  overlap.
- Silence of the checker keeps mutable borrows alone inside a block (`BorrowSafety.QuietBlock`) but not where paths
  meet: a local that one path has borrowed for reading and another for writing is then both, and nothing is reported
  (`BorrowSafety.MeetingAlone`).
- An eightbyte of floats with an array of floats among them is passed as an integer, where the C ABI passes it as
  SSE (`CAbi.FloatArrayIsInteger`; `CAbi.SseExactly` gives the exact condition).
- After a newline, a line that starts with a block comment makes no newline token and opens or closes no block,
  even when code follows the comment, which joins it to the line before (`LexerText.CommentJoinsLines`); a blank
  line with a lone carriage return makes a newline token. `LexerText.LineMakes` says exactly which lines make one.

## Modelling decisions

- Local and block numbers are naturals, spans keep all five fields, packed line keys are 64-bit words as in the
  source. Types in MIR are reduced to what the modelled code asks of them. Reports of the checker carry the code,
  the local or the field, and the program point; message texts are left out.
- The machine treats every operand as one word and everything the function calls as part of an environment that
  answers from the history of effects. The rewrite is proved for functions that contain no hook calls of their
  own and whose jumps and locals are inside the function, with mirror cells that start equal to their locals
  (parameters excepted, which the prelude stores). The hooks store and load faithfully: nobody patches a value.
- The checker's exactness on paths and termination are claimed for MIR without `Ref` and `MutRef` statements; what a
  single visit of a block does and reports is stated for all MIR.
- Hash sets are sets; where the source iterates over one, the order is arbitrary. `sort_unstable` followed by
  `dedup` is a sorted insertion without repeats; `sort_by` is a stable insertion sort. The pairwise table of the
  diff holds unbounded naturals, which agrees with the source for fewer than 2^32 lines. Array sizes wrap at 32 bits
  as in a release build; struct offsets are unbounded integers, which agrees as long as they stay below 2^31.
- Documents are values without sharing. Texts count one column per character, as in the source.
- The type parser's tokens keep the words of identifiers and the digits of integers; the text of symbols is never
  read. The three argument loops of the parser are one method here.
- Words, numbers, strings and operators of the lexer are read by a parameter that takes at least one character.

## Model

| member | source | states |
|---|---|---|
| Postorder.BuildCfg | src/mir/loop_utils.rs:16-45 | successor lists are the ascending terminator targets without repeats and predecessor lists are exactly the inverse edges; a target outside the function is no edge |
| Postorder.ReversePostorder | src/mir/loop_utils.rs:111-132 | the explicit-stack search ends and lists each reachable block once, entry first, every other block after one of its predecessors |
| DominatorTree.SweepStep | src/mir/loop_utils.rs:157-176 | moving one block below the meet of its processed predecessors keeps the whole invariant of the iteration, ancestors of all its descendants included |
| DominatorTree.MeetMovesUp | src/mir/loop_utils.rs:166-175 | the new immediate dominator of a block comes no later in reverse postorder than the old one, and in the same place only when it is the same block |
| DominatorTree.DominatorsStay | src/mir/loop_utils.rs:172-175 | after the update of any block, every strict dominator of a processed block still dominates its immediate dominator |
| DominatorTree.StableIsDominators | src/mir/loop_utils.rs:106-110 | when a sweep changes nothing, the ancestors of a block are exactly the blocks on every entry-to-block path |
| Dominators.Intersect | src/mir/loop_utils.rs:142-152 | the two-finger walk ends at a node whose ancestors are exactly the common ancestors of both arguments |
| Dominators.NewIdom | src/mir/loop_utils.rs:158-171 | no result exactly when no predecessor is processed; otherwise a node whose ancestors are those common to all processed predecessors |
| Dominators.UpdateBlock | src/mir/loop_utils.rs:157-176 | one block's update keeps the invariant; a change lowers the potential and no change means the block agrees with its predecessors |
| Dominators.Iterate | src/mir/loop_utils.rs:154-177 | the fixpoint loop ends on every graph with a stable tree over exactly the reachable blocks |
| Dominators.WalkUp | src/mir/loop_utils.rs:182-189 | the walk ends and collects exactly the ancestors, and only the block itself when it was never reached |
| Dominators.DominanceSets | src/mir/loop_utils.rs:106-192 | for every reachable block exactly the blocks on every path from the entry; for an unreachable block only itself |
| Dominators.DominatorsOf | src/mir/loop_utils.rs:96-104 | the same for a function, the empty function included |
| Loops.LoopBody | src/mir/loop_utils.rs:61-73 | the work stack ends with exactly the header, the latch and all blocks that reach the latch without passing the header |
| Loops.LoopExits | src/mir/loop_utils.rs:75-82 | the exits are exactly the successors of body blocks outside the body |
| Loops.FindLoops | src/mir/loop_utils.rs:47-94 | one loop for each edge to a dominator of its source and no other, in block order, each with exact body and exits |
| Loops.NaturalLoopDominated | src/mir/loop_utils.rs:60-73 | with a latch other than the header, the header dominates every reachable body block |
| Loops.HeaderDominatesBody | src/mir/loop_utils.rs:61-73 | the header dominates the reachable body if and only if the latch is not the header, or the header is the entry, or it is unreachable |
| Loops.SingleEntry | src/mir/loop_utils.rs:61-73 | every edge from outside the body into it enters at the header |
| Loops.BodyOnCycle | src/mir/loop_utils.rs:61-73 | every reachable body block lies on a cycle through the header |
| Liveness.UpdateStatement | src/mir/liveness.rs:73-106 | what is live before a statement: what it reads, and what is live after it unless it is overwritten, dropped or dead |
| Liveness.UseRvalue | src/mir/liveness.rs:108-151 | adds exactly the locals an rvalue reads, borrowed locals included |
| Liveness.UpdateBlock | src/mir/liveness.rs:20-41 | one backward pass over a block keeps the sets below true liveness and grows them whenever it reports a change |
| Liveness.InIsLive | src/mir/liveness.rs:20-41 | nothing is ever added that is not live on some path |
| Liveness.FixpointComplete | src/mir/liveness.rs:15-43 | once nothing changes, every use found along any path is in the sets |
| Liveness.Compute | src/mir/liveness.rs:9-46 | ends; a local is in the set at a point exactly when a path from there reads it before it is assigned, dropped or dead |
| Mir.OperandsAreParts | src/borrow_check/checker.rs:375-485 | the operands of an rvalue are exactly its parts, from left to right |
| MachineFlow.TargetsAreJumps | src/mir/ir.rs:102-114 | a block is among the targets and not behind an arm with the same value if and only if the machine can go on in it |
| MachineFlow.UsesAreReads | src/mir/liveness.rs:73-151 | the uses of a statement are exactly the locals the machine reads when it executes it, a dropped local aside |
| MachineFlow.OnlyLiveMatters | src/mir/liveness.rs:9-46 | two runs without hooks that differ only in locals that are not live where they start execute the same statements on the same words and end with the same result, whatever those locals hold; the returned local and locals that are dropped or ended somewhere do not count as such |
| FlowStates.Merge | src/borrow_check/checker.rs:135-141 | the worse of the two states in the order dead, initialized, moved |
| FlowStates.TrySet | src/borrow_check/checker.rs:79-95 | refuses a change of a borrowed local and otherwise changes that local only |
| FlowStates.Join | src/borrow_check/checker.rs:97-132 | the join is the least state above both, fields known on both sides only, and the flag tells exactly whether anything changed |
| MovePaths.MovedMeansTaken | src/borrow_check/checker.rs:303-306 | a local ends up moved exactly when some action moves or drops it while initialized and nothing re-initialises it afterwards |
| MovePaths.DeadMeansUnset | src/borrow_check/checker.rs:297-302 | a local is dead exactly when its storage was ended and not set since, or it started dead and was never set |
| MovePaths.MovedUseIsReadAfterTake | src/borrow_check/checker.rs:525-549 | a moved use is a path on which the local is moved or dropped and then read with no re-initialisation in between |
| MoveAnalysis.ReportIsReal | src/borrow_check/checker.rs:191-212 | whatever an early visit of a block reports is deserved by some path from the entry |
| MoveAnalysis.RestCoversPath | src/borrow_check/checker.rs:214-226 | when the worklist is empty, entry states cover what any path to the block can have done |
| MoveAnalysis.RealIsReported | src/borrow_check/checker.rs:188-227 | when the worklist is empty, everything some path deserves has been reported |
| MoveAnalysis.AlwaysDeadIsReported | src/borrow_check/checker.rs:188-227 | when the worklist is empty, a use that finds a named local dead on every path has been reported |
| MoveAnalysis.FactsDrop | src/borrow_check/checker.rs:214-226 | every change of an entry state lowers the termination measure of the worklist |
| BorrowCheck.BorrowChecker.CheckOperand | src/borrow_check/checker.rs:503-554 | in any state: a moved local is reported, a dead one when it has a name, a move takes an initialized local of a move type unless it is borrowed, which is reported, and nothing else changes; without borrows that is what the operand's action asks for |
| BorrowRules.OneThenOthers | src/borrow_check/checker.rs:471-485 | checking a callee and then its arguments is checking them all in order: same state, same reports |
| BorrowRules.CleanOperands | src/borrow_check/checker.rs:503-554 | without borrows, checking operands in order moves and reports exactly what their actions on the path ask for |
| BorrowCheck.BorrowChecker.CheckRvalue | src/borrow_check/checker.rs:375-485 | checks the operands of an rvalue in evaluation order, the state after one being the state before the next, after reporting an in-place mutation of a borrowed receiver; borrowed locals keep their state |
| BorrowCheck.BorrowChecker.CheckBorrow | src/borrow_check/checker.rs:410-469 | a borrow raises the shared count or sets the exclusive flag of its local and changes nothing else in the state |
| BorrowCheck.BorrowChecker.TransferStatement | src/borrow_check/checker.rs:230-329 | in any state, exactly the state, the reports and the known references that the rules give; without borrows those are what the statement's actions ask for |
| BorrowRules.StatementRuns | src/borrow_check/checker.rs:230-329 | whatever is borrowed, a statement runs its actions on every local that is not held by a borrow, leaves held locals as they are, and changes borrows only where it takes one |
| BorrowCheck.BorrowChecker.CheckReturn | src/borrow_check/checker.rs:336-352 | a return of an initializer of a struct in the table reports exactly the fields that the table lists and the state does not hold; any other return reports nothing |
| BorrowCheck.BorrowChecker.ReleaseDeadBorrows | src/borrow_check/checker.rs:556-574 | a borrow with a live reference is kept; any other loses one shared borrow for each dead reference, and the exclusive one when no shared borrow is left to lose; local states and fields stay |
| BorrowCheck.BorrowChecker.VisitBlock | src/borrow_check/checker.rs:196-212 | one visit from any state, borrows included, leaves exactly the state, references and reports that the rules give statement by statement, dead borrows released after each; without borrows that runs the actions of the block and reports exactly what they deserve |
| BorrowWalk.CleanWalkBlock | src/borrow_check/checker.rs:196-212 | a borrow-free block runs its actions on the entry state and reports exactly the moved uses, uninitialized uses and unset fields they deserve |
| BorrowSafety.QuietLeavesAlone | src/borrow_check/checker.rs:230-329 | a statement over which the checker is silent does not assign a borrowed local, move it out, drop it or borrow it for writing, borrows nothing that is borrowed for writing, and stores into nothing that is borrowed for reading |
| BorrowSafety.QuietBlock | src/borrow_check/checker.rs:196-212 | a visit of a block that reports nothing keeps every local that is borrowed for writing free of other borrows |
| BorrowSafety.MeetingAlone | src/borrow_check/checker.rs:110-118 | where states meet, a local is borrowed for reading and writing at once exactly when one of them has it borrowed for reading and the other for writing |
| BorrowLoop.SettlesExactly | src/borrow_check/checker.rs:188-226 | while a reference to a local stays known and live throughout a self-loop, merging the state that leaves it changes the shared count of the local exactly when the loop takes a shared borrow of it |
| BorrowLoop.SpinNeverSettles | src/borrow_check/checker.rs:188-226 | in the smallest such loop every visit raises the count by one, so the block is queued again by every visit |
| BorrowCheck.PropagateAll | src/borrow_check/checker.rs:214-226 | passing the state on keeps entry states justified by paths, covers every successor and lowers the measure on any change |
| BorrowCheck.BorrowChecker.Check | src/borrow_check/checker.rs:163-228 | for borrow-free MIR the worklist ends with moved uses reported exactly when some path from the entry has them, and uninitialized uses reported only when some path and always when every path has them; in the initializer of a struct in the table, a field is reported at a return exactly when the table lists it and some path returns there without a statement that assigns it to the first parameter, and no field is reported in any other function |
| CheckerClaims.InitNames | src/borrow_check/checker.rs:336-339 | the initializers are the names that end in `::__init__`, and trimming that ending as often as it occurs finds the struct |
| CheckerClaims.MissedIsUnassigned | src/borrow_check/checker.rs:273-284 | a path returns without a field exactly when no statement on it assigns the field to the first parameter |
| CheckerClaims.ActionsAreExecution | src/borrow_check/checker.rs:230-329 | the actions of a statement read what the machine reads when it executes it, in order, borrows, drops and generation checks aside, and an assignment ends by setting what the machine writes |
| LineContext.KeyParts | src/mir/debug_hooks.rs:623-625 | file and line can be read back from a packed key when the file id is below 2^31 and the line below 2^32 |
| LineContext.Predecessors | src/mir/debug_hooks.rs:263-283 | each block's list holds exactly the blocks that jump to it, each once |
| LineContext.MeetOverJustified | src/mir/debug_hooks.rs:300-308 | a meet never claims a line that no path brings in, and two different lines brought in give a conflict |
| LineContext.ShortTailPath | src/mir/debug_hooks.rs:297-298 | a line that enters a block enters it along a path of at most one step per block, which is why the pass bound suffices |
| LineContext.Pass | src/mir/debug_hooks.rs:299-314 | after each pass every block knows the lines that reach it one step further away, and an unchanged pass is a fixpoint |
| LineContext.ComputeContexts | src/mir/debug_hooks.rs:236-318 | within the fixed number of passes every context is the exact meet of the tail lines that reach the block through span-less blocks |
| HookPlan.SplitExecutes | src/mir/debug_hooks.rs:442-550 | splitting a stop call off into check, hook block and continuation turns a block that executes a plan into one that executes the plan with the stop conditional, and leaves every other block alone |
| HookPlan.ExecutesFrame | src/mir/debug_hooks.rs:399-409 | later splits of other blocks keep what a block executes |
| Instrumenter.Rewriter.BuildEntryPrelude | src/mir/debug_hooks.rs:560-595 | the enter call unless a state machine, then one store for each mirrored parameter in order |
| Instrumenter.Rewriter.RebuildBlock | src/mir/debug_hooks.rs:320-372 | the statements of a block in order, each new line preceded by its stop call, each mirrored assignment followed by its store in eager mode, and every stop call noted at its position |
| Instrumenter.Rewriter.MakeStmtConditional | src/mir/debug_hooks.rs:442-550 | in-place split of one block: check and switch in front, hook block with flush, stop and reload, continuation with the rest and the old terminator; which answer leads where is the matter of RunStop |
| Instrumenter.Rewriter.RebuildAll | src/mir/debug_hooks.rs:320-393 | every block is rebuilt by its plan, the prelude goes to block 0 only, and the noted sites and line tables are those of the plans |
| Instrumenter.Rewriter.SplitSites | src/mir/debug_hooks.rs:395-409 | splitting from the last site to the first leaves every recorded position valid and every original block executing its plan with all stops conditional |
| Instrumenter.Rewriter.InstrumentFunction | src/mir/debug_hooks.rs:204-410 | the rewritten blocks execute the plans for exact line contexts, and the line tables gain exactly the lines that stop |
| HookSimulation.RunHookBlock | src/mir/debug_hooks.rs:461-519 | a hook block flushes, stops, reloads and continues with every original local unchanged and the mirror up to date |
| HookSimulation.RunStop | src/mir/debug_hooks.rs:412-550 | exactly that check is made and execution arrives at the rest of the block with the same locals; with answer 0 nothing stops, with any other answer exactly one stop is made, at that line and with the named locals in view |
| HookSimulation.RunStatement | src/mir/debug_hooks.rs:349-370 | a kept statement and its store act like the statement and leave the mirror equal to the locals |
| HookSimulation.SimulateStep | src/mir/debug_hooks.rs:204-410 | each step of the original is matched by at least one step of the rewritten function and by exactly the line check it calls for |
| HookSimulation.Simulate | src/mir/debug_hooks.rs:204-410 | after any number of original steps the rewritten function has a matching configuration: same locals, same effects, same place, and exactly the line checks made that those steps call for |
| HookSimulation.OriginalEnds | src/mir/debug_hooks.rs:204-410 | when a run of the rewritten function ends, the original has ended the same way in no more steps |
| HookSimulation.SameOutcomes | src/mir/debug_hooks.rs:436-441 | original and rewritten function have exactly the same outcomes, in eager and deferred mode |
| HookSimulation.OneEnterOneExit | src/mir/debug_hooks.rs:374-392 | a run that returns makes one exit call, and one enter call when no edge leads back to block 0; none for state machines |
| HookSimulation.ChecksMade | src/mir/debug_hooks.rs:332-358 | a run that returns has made exactly the line checks its original calls for, in order, each between the same two statements |
| HookSimulation.ChecksSoFar | src/mir/debug_hooks.rs:332-358 | while the original runs on, the rewritten function has made no checks but those called for so far, in order |
| HookSimulation.StopsMade | src/mir/debug_hooks.rs:412-550 | in every run that ends, the stops made are exactly the checks answered with something else than 0, in order, each at the same line and between the same two statements, and each shows the words that the named locals of the original hold there |
| HookSimulation.StopsSoFar | src/mir/debug_hooks.rs:412-550 | the same equality of stops and answered checks holds wherever a run in progress matches the original |
| HookSimulation.StopsShowLocals | src/mir/debug_hooks.rs:428-441 | every stop that the original calls for comes from a step of it that is a stop site, at its line, after the statements executed so far, and shows the words of the named locals |
| DebugHooks.NamedCells | src/mir/debug_hooks.rs:186-197 | the cells are exactly the named locals that are not vectors, each once, in order |
| DebugHooks.IsStateMachineAsync | src/mir/debug_hooks.rs:150-184 | true exactly when a block reachable from the entry calls the await runtime function |
| DebugHooks.InstrumentOne | src/mir/debug_hooks.rs:48-120 | a function without real spans is left alone; any other is instrumented so that the simulation applies, and if every assigned local was declared, it still is |
| DebugHooks.StopBetweenLines | src/mir/debug_hooks.rs:332-347 | on every path, the next statement with a line has its own stop exactly when its line differs from the last executed one, or it begins a block that another line enters too |
| DebugHooks.StopOnArrival | src/mir/debug_hooks.rs:323-335 | the first real statement of a block has a stop exactly when its line does not enter the block or another line does too |
| DebugHooks.StopComesFirst | src/mir/debug_hooks.rs:442-550 | in the rewritten blocks there is a line check for every stop site, both of whose outcomes lead to the block that begins with the site's statement, one by way of its hook block |
| DebugHooks.CheckBetweenLines | src/mir/debug_hooks.rs:332-358 | in every run, going from one line to another makes the check of the new line after everything executed before and before anything of the new line; on one line a check is made exactly when its block begins there and another line enters the block |
| DebugHooks.FirstLineChecked | src/mir/debug_hooks.rs:332-358 | the first line of a run is checked exactly when it does not enter its own block or another line does too |
| DebugHooks.LoopIsNeverChecked | src/mir/debug_hooks.rs:323-347 | no run of the rewritten one-line loop behind a bare entry block makes a line check at any step |
| DocLayout.ComputeFits | src/fmt/doc.rs:168-218 | the lookahead loop over its local stack and the renderer's ends and answers for the pending work as a whole |
| DocLayout.FitsExactly | src/fmt/doc.rs:165-218 | the lookahead accepts exactly when the line can be finished in the columns left: no flat hard line before its end and its text not too wide |
| DocLayout.Newline | src/fmt/doc.rs:157-163 | writes a newline and the indentation, and the column is the indentation |
| DocLayout.Render | src/fmt/doc.rs:109-155 | the explicit-stack renderer ends and returns the text that the structural printer writes; that text is the texts of the document in order, each unchanged, with nothing but blanks and newlines between them, where a choice by mode contributes one side |
| DocLayout.LayoutIsPretty | src/fmt/doc.rs:109-218 | the pieces laid out for any document in any place, written one after the other, are the text of the structural printer, and the columns agree |
| DocTree.TextsArePrinted | src/fmt/doc.rs:117-142 | what is printed is one choice of the texts of the document, in order and unchanged, with only blanks and newlines around them |
| DocLayout.AcceptedStaysWithin | src/fmt/doc.rs:143-151 | whatever the lookahead accepts is laid out without passing the width before the next newline |
| DocLayout.FlatThroughout | src/fmt/doc.rs:143-151 | once a group is laid flat, every group met inside it chooses flat mode at its own column, the output is the flat one and holds no newline |
| DocLayout.FlatExactlyWhenRoom | src/fmt/doc.rs:143-151 | a group is laid flat exactly when it can be and it and the rest of its line fit; then the line stays within the width, text after the group included |
| DocLayout.TextsSurvive | src/fmt/doc.rs:117-120 | without IfBreak the emitted texts are the same, in order, at every width |
| DocLayout.RenderedColumn | src/fmt/doc.rs:111-119 | the tracked column is the length of the last line of the output when no text holds a newline |
| DocLayout.LayoutSeesOnlyRoom | src/fmt/doc.rs:165-167 | a layout depends on what follows only through the columns the rest of its line needs |
| DocLayout.CatLaysOutBoth | src/fmt/doc.rs:65-71 | dropping empty documents when concatenating changes no layout |
| DocLayout.FlatBracket | src/fmt/doc.rs:90-106 | a flat bracket is opener, items separated by comma and space, closer, without a trailing comma |
| DocLayout.BrokenBracket | src/fmt/doc.rs:90-106 | a broken bracket has each item on its own line one step further in, each followed by a comma, and the closer on its own line |
| DocLayout.BracketText | src/fmt/doc.rs:90-106 | the text of a bracket: opener, items joined by comma and blank, closer, when all items fit one line and it and the rest of the line have room; otherwise the opener, each item on its own line four columns further in and followed by a comma, and the closer on its own line |
| Diff.FillTable | src/fmt/diff.rs:27-36 | every cell holds the best common length of the two suffixes |
| Diff.BestIsBound | src/fmt/diff.rs:30-34 | no common subsequence of the suffixes is longer than the table says |
| Diff.BestIsReached | src/fmt/diff.rs:30-34 | one of that length exists |
| Diff.ScriptsAreBounded | src/fmt/diff.rs:37-60 | any script that turns one text into the other keeps no more lines than that, and every line not kept costs a change |
| Diff.LcsOps | src/fmt/diff.rs:25-61 | the script lists the old text in order, inserts in place, replays to the new text, keeps a longest common subsequence, and no script for the job has fewer changes |
| Diff.HunkHoldsBoth | src/fmt/diff.rs:63-73 | both texts can be read back from the rendered hunk |
| Diff.LinesExactly | src/fmt/diff.rs:4-5 | the lines of a text are the only way to cut it into lines without newlines, each ended by a newline, by a carriage return and a newline, or, for a last line that is not empty, by the end of the text |
| Diff.JoinEndsLines | src/fmt/diff.rs:11-15 | what is written are the lines in order, each with a newline behind it |
| Diff.Unified | src/fmt/diff.rs:3-17 | empty exactly when the texts have the same lines; otherwise a header and a hunk that holds both, each line marked by a blank, a minus or a plus, with no more lines than any common subsequence leaves |
| Diff.EmptyForDifferentTexts | src/fmt/diff.rs:1-9 | three different texts with the same lines, for which the diff is empty |
| Autofix.ByteTable | src/compile/fix.rs:153-157 | entry k is the encoded length of the first k characters, the end included; below the end the entries are exactly the offsets of bytes that begin a character |
| Utf8Text.DecodesBack | src/compile/fix.rs:153-157 | a decoder written from the byte ranges of section 4 of RFC 3629 reads every text back from its encoding |
| Utf8Text.LeadsAreOffsets | src/compile/fix.rs:153-157 | the offsets of the characters are exactly the places of bytes that are no continuation |
| Autofix.Sorted | src/compile/fix.rs:162 | the sorted edits stand by start, last first, then by end, last first |
| Autofix.SortIsStable | src/compile/fix.rs:162 | edits of the same range keep the order in which they were reported |
| Autofix.Splice | src/compile/fix.rs:170-176 | splicing the bytes of an edit left of all others gives the encoding of replacing it along with them; offsets stay inside the text |
| Autofix.SameAgain | src/compile/fix.rs:170-176 | replacing every range by what it holds changes nothing |
| Autofix.DroppedForRightmost | src/compile/fix.rs:159-169 | a valid edit is dropped only for a kept one that starts no earlier and inside it |
| Autofix.StaysAhead | src/compile/fix.rs:165-169 | after each edit, no choice from those seen is larger than the greedy one, and an equal one starts no later |
| Autofix.ApplyEdits | src/compile/fix.rs:153-182 | the result decodes to the text with all chosen edits replaced at once; chosen edits never overlap and no larger set of valid reported edits exists; codes are noted once |
| TypeSyntax.SegmentsOfJoin | src/parser/ast.rs:125-127 | cutting a stored name at its double colons gives back the parts it was joined from |
| TypeSyntax.SizeRoundTrip | src/parser/types.rs:84-85 | a printed array size is read back as the same number |
| TypeDisplay.DisplayIsPrint | src/parser/ast.rs:119-163 | the displayed text of a type is its tokens written one after the other, blanks aside |
| TypeDisplay.DisplayInFull | src/parser/ast.rs:119-163 | the displayed text of a function type with references, a tuple, a table, an array, a list and a union in it, blanks and separators included |
| TypeSpelling.AcceptsExactly | src/parser/types.rs:5-161 | the grammar reads a type and leaves a rest if and only if the tokens in between spell the type, commas before a closing parenthesis or the bracket of arguments optional, no bar follows and its nesting is within the limit |
| TypeSpelling.SingleAcceptsExactly | src/parser/types.rs:16-161 | the same for a single type, whatever follows |
| TypeParser.Parser.Expect | src/parser/base.rs:62-78 | takes the expected token or reports it and stays where it is |
| TypeParser.Parser.ParseItems | src/parser/types.rs:34-46 | the item loop reads the items of the grammar, a trailing comma allowed |
| TypeParser.Parser.ParseNestedItems | src/parser/base.rs:24-39 | at the depth limit it reports at the opening token; otherwise it reads one level deeper and restores the depth, errors included |
| TypeParser.Parser.ParseTypeExpr | src/parser/types.rs:5-14 | a type that is returned is spelled by exactly the tokens taken, and a problem is reported only when the tokens spell no type within the limit; stops where the grammar does and leaves the depth as it was |
| TypeParser.Parser.ParseSingleTypeExpr | src/parser/types.rs:16-161 | the same for a single type, all cases |
| TypeRoundTrip.WholeRuns | src/parser/types.rs:5-161 | the tokens of any printable type within the depth limit are read back as that type, in front of anything that cannot continue it |
| TypeImage.TypeIsSound | src/parser/types.rs:5-161 | every type read from lexer tokens has the printable shape and nests within the limit |
| TypeImage.ParsedTypesRoundTrip | src/parser/types.rs:5-161 | every type the parser returns prints to tokens that parse back to it |
| TypeImage.SurvivesExactly | src/parser/ast.rs:119-163 | a type survives printing and parsing if and only if it has the printable shape and nests within the limit |
| TypeImage.RightUnionIsLost | src/parser/ast.rs:147 | a union nested to the right comes back nested to the left |
| TypeImage.OpenUnionIsLost | src/parser/types.rs:142-145 | a union after a function type comes back inside its return type |
| TokenNesting.OpenersAreClosed | src/lexer/engine.rs:541-616 | in a nested stream every opening token has its own closing token with a nested stretch between |
| LexerLayout.Lexer.SkipInlineWhitespace | src/lexer/engine.rs:96-130 | stops at the first place that is neither blank nor inside a comment |
| LexerLayout.Lexer.SetBlocks | src/lexer/engine.rs:188-223 | opens a block for a deeper line, closes exactly the deeper ones for a known width, and refuses an unknown one; the stack stays strictly rising from 0 |
| LexerLayout.Lexer.HandleIndent | src/lexer/engine.rs:132-234 | the outcome of a line start by its blanks: mixed, no token, new blocks, or a bad dedent, each exactly in its case, with the place where it stops |
| LexerLayout.Lexer.AtEnd | src/lexer/engine.rs:553-596 | at the end of the source an open bracket is an error; otherwise a newline with one queued dedent for each open block and the end token behind them, or the end token alone |
| LexerLayout.Lexer.Bracketed | src/lexer/engine.rs:760-829 | a closer is accepted exactly when it matches the bracket opened last |
| LexerLayout.Lexer.NextToken | src/lexer/engine.rs:541-887 | ends; hands out the first of the tokens that the rest of the text holds and leaves the others to come |
| LexerLayout.Lexer.Tokenise | src/lexer/engine.rs:888-899 | ends with exactly the tokens of the text or the first problem in it; on success the brackets and blocks form one well-nested word, no line structure occurs inside brackets, and the only end token is the last |
| LexerText.CodeSurvives | src/lexer/engine.rs:541-899 | however the lines are indented and broken, the tokens without layout are every one of the six bracket characters as its own token and every word outside blanks and comments, in order |
| LexerText.OnlyBlanksPassed | src/lexer/engine.rs:96-130 | what is passed over before a token are blanks, block comments up to their first end, and a line comment up to the newline; an unclosed block comment runs to the end of the text |
| LexerText.LineStartPassesBlanks | src/lexer/engine.rs:132-234 | the start of a line passes over blanks and comments only |
| LexerText.WidthCounts | src/lexer/engine.rs:132-147 | the width of the blanks at a line start is their number, with tabs counted four times |
| LexerText.LineMakes | src/lexer/engine.rs:132-234 | a line makes a newline token if and only if its blanks are unmixed and of a width that fits, and it holds code without beginning with a block comment or has a carriage return behind its blanks |
| LexerText.CommentJoinsLines | src/lexer/engine.rs:162-177 | a block comment at the start of a line makes its code part of the line before |
| CTypes.WordsAreNamed | src/semantic/abi.rs:94-100 | a word is as large as the bits in its name say, a truth value is one byte, and a pointer or whatever else is no array has eight |
| CTypes.FloatsByName | src/semantic/abi.rs:211-235 | of the words named by their bits, those of floats begin with an f |
| CTypes.ArrayLayout | src/semantic/abi.rs:102-108 | an array of a named type takes its elements one after the other, with their alignment, in 32-bit arithmetic and with a count beyond 32 bits read as one |
| CTypes.NestedArrayCollapses | src/semantic/abi.rs:102-108 | an array of arrays, at any depth, is laid out as one word whatever its counts |
| CTypes.LayoutAgreesWithC | src/semantic/abi.rs:94-125 | a type is laid out as in C if and only if it is no array, or an array of no arrays whose size fits 32 bits, or nested arrays that hold a single word of eight bytes |
| CAbi.PlaceFields | src/semantic/abi.rs:157-209 | every field goes to the first aligned offset after the one before it or continues the word of the bitfield before it when that has the same size and room; the total is the least multiple of the largest alignment that holds them |
| CAbi.ResolvedIsField | src/semantic/abi.rs:94-125 | every scalar type the parser yields, with or without bits, and every array type whose size fits 32 bits, resolved by its name, is one the layout rule can place; a scalar is as large as its alignment |
| CAbi.PlaceUnion | src/semantic/abi.rs:134-156 | all members at offset 0 and the total the least multiple of the largest alignment that holds the widest |
| CAbi.BitsStayInWords | src/semantic/abi.rs:168-189 | bits stay in their declared words if and only if every bitfield is at most as wide as its type |
| CAbi.Disjoint | src/semantic/abi.rs:163-198 | fields take disjoint stretches of bits in declaration order if and only if, in the field list, every bitfield fits its word and the padding to the next field |
| CAbi.StorageIsEnd | src/semantic/abi.rs:157-198 | the end of the storage and the bits in use, read off the field list alone, are those of the layout |
| CAbi.WideBitfieldOverlaps | src/semantic/abi.rs:168-177 | twelve bits declared in a byte overlap the byte after it |
| CLayout.LayoutIsC | src/semantic/abi.rs:127-209 | every member starts at the bit the C ABI gives it if and only if no member could share room that the code leaves unused; the total is then C's too |
| CLayout.PairNeedsTwoWords | src/semantic/abi.rs:127-209 | a byte and an eight-bit field of an int take two ints where C takes one |
| CAbi.FieldsInOrder | src/semantic/abi.rs:163-198 | with fitting bitfields, fields take disjoint stretches of bits in declaration order |
| CAbi.FieldsInside | src/semantic/abi.rs:163-209 | every field is aligned and ends inside the total |
| CAbi.BaseKeepsAlignment | src/semantic/abi.rs:199-208 | in an array of structs every field of every element is aligned |
| CAbi.ScalarInOneEightbyte | src/semantic/abi.rs:216-235 | an aligned scalar lies in exactly one eightbyte |
| CAbi.FieldsInEightbytes | src/semantic/abi.rs:216-250 | in a laid-out struct every scalar field lies in exactly one eightbyte below the total |
| CAbi.EightbytesOccupied | src/semantic/abi.rs:216-250 | in a laid-out struct with fields every eightbyte is occupied by some field, so padding never fills one |
| CAbi.EightbyteIsSse | src/semantic/abi.rs:216-235 | SSE exactly when the eightbyte is occupied and all members in it are named as floats |
| CAbi.SseExactly | src/semantic/abi.rs:211-235 | that is the class of the C ABI if and only if the eightbyte is not one of floats with a float array among them |
| CAbi.FloatArrayIsInteger | src/semantic/abi.rs:211-235 | two floats in an array are passed as an integer where the C ABI passes them as SSE |
| CAbi.EightbyteSize | src/semantic/abi.rs:237-250 | the end of the last member in the eightbyte, counted from its start, 8 when there is none, and between 1 and 8 for scalars |

## Left out

- BorrowCheck.BorrowChecker.Check: whether a use that only some paths make uninitialized (E0502) is reported depends on the order of visits, because dead merged with initialized is initialized; the two bounds on it are stated.
- BorrowCheck.BorrowChecker.CheckBorrow: the borrow rules themselves (E0503, E0504, E0505, E0507) are modelled step by step and what their silence guarantees is stated for statements and blocks; no path property is claimed for them, because provenance is flow-insensitive and joins can undo the guarantee.
- DebugHooks.InstrumentOne: `instrument` and `instrument_clean` apply it to every function of a program; the numbering of functions, the cell types and the program-wide tables are left out.
- HookSimulation.OneEnterOneExit: enter and exit of async state machines are made by code generation, which is not part of this model.
- CLayout.LayoutIsC: C's own limits on bitfields are assumed, one bit up to the width of the declared type; unnamed and zero-width bitfields do not exist in the source.
- LexerLayout.Lexer.NextToken: words, numbers, strings, operators, comment recording and line and column counts are left out.
- CAbi.ResolvedIsField: flat arrays beyond 32 bits, whose sizes wrap, and bitfields declared with an array type are accepted by the source and not laid out by the model (`CAbi.IsField`).
- CAbi.PlaceFields: the same fields are left out.
- CAbi.EightbyteSize: for array members the covered span is not clamped to 8 in the source, so the bound is stated for scalars.
- Autofix.ApplyEdits: collecting diagnostics, grouping edits by file, repeated passes and writing files are left out.
- TypeImage.ParsedTypesRoundTrip: the round trip is on tokens; `**T` for a pointer to a pointer is read by the lexer as one token.
- `clone_blocks` in `src/mir/loop_utils.rs`: it renumbers targets and would add only an easy member.
- The optimizer pipeline, code generation, the runtime library and the type checker.
- File, process and JSON work, the debugger driver, lints, name mangling, expression formatting, and diagnostic texts.
