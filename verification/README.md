# A verified model of the decompilation workbench's cores

This project models nine self-contained components of a workbench for matching
decompilation, and proves what they are for. Two kinds of file make it up. A *machine* or
*specification* file gives the meaning of a component as functions over values, and a *safety* or
*round trip* file proves theorems about it, over all inputs or all runs. A class or method file then
has the component's own shape, with fields that are updated and loops, and each method is proved to
take exactly the step that the theorems are about.

| component | specification and theorems | code |
|---|---|---|
| line diff | CommonSubsequence, Myers | Lines, LineDiff |
| pipeline engine | RouteGraph, Pipeline, EngineMeaning, EngineSteps, EngineConservation, Triggers | RouteGraph (the cycle search), Engine, Registry, Triggers |
| worker pool | PoolMachine, PoolSafety, PoolProgress, PoolOutcomes | WorkerPool |
| run scheduler | SchedulerMachine, SchedulerSafety, SchedulerRelease, SchedulerRuns | RunScheduler |
| event store | EventMachine, EventSafety, EventCommits, WorkflowStatus | EventStore |
| nested transactions | Transactions, TransactionQueue | SqliteAdapter |
| name mangling | MangledRoundTrip, CanonicalNames, MangledArtifacts | MangledNames |
| WebSocket streams | WebSocketRoundTrip, WebSocketStream, WebSocketWire | WebSocketFrames, WebSocketStream |
| rate limiter | RateLimiter | RateLimiter |

`dafny verify dfyconfig.toml` checks all of it.

## How the environment is modelled

- **Hooks, agents and verifiers** (engine) are arbitrary functions of the number of the hook call, so
  they may answer differently each time, and any call may throw. `WellBehaved` is the one hypothesis
  on them: a verdict accepts only items in play, each at most once. `TurnConserves` shows that the
  code conserves items exactly under it. Conservation also takes the planned items to have distinct ids.
  For the triggers, the outcome of a run is an arbitrary function of its number.
- **Processes** (worker pool): whether a process is alive, a spawn succeeds, or a write succeeds is an
  arbitrary function of the number of the dispatch, and what a line of output parses to is an arbitrary
  function of the line.
- **Executions** (scheduler): a run is taken to have one live execution at a time, and that to be at one
  checkpoint at a time. `EveryRun` says exactly when the first is so; behind a resume that queues a live
  run the model is not followed further. The second is the engine's, which awaits one agent step after
  the other.
- **Timers, clocks and awaits**: every stretch of code between two awaits is one atomic step, and the
  steps come in any order. A clock reading is a parameter of the step that takes it.
- **The database** is its contents. Row updates of the scheduler are steps of their own that may fall
  anywhere, and a statement of a transaction is an arbitrary partial function of the contents, which
  throws where it is undefined.
- **Numbers** are unbounded. `StoredValuesFit` bounds what the diff stores in 32-bit cells, and the rate
  limiter computes over the reals.

## What the theorems say about the code

Some properties that one would expect hold only under a condition. The model keeps the code as it is, a
lemma gives an input or a run on which the property fails, and the condition is proved exact.

- Pipelines and fragments share the map of route targets. `SharedIdsHideACycle` gives three accepted
  registrations after which two fragments route to each other; `PipelineKeepsRoutes` says exactly when
  a registration keeps the invariant.
- The comment on `findCycle` promises a cycle *containing* the node. `CyclesContainIff`: that holds for
  all registrations exactly if the graph before was acyclic. A refused registration leaves its entry
  behind, and then it fails (`CycleWithoutTheNode`).
- The engine does not check `verdict.accepted`: a turn conserves items exactly if what it accepts is
  among them (`TurnConserves`), and `AcceptedTwice` is a loop that ends with one item accepted twice.
- The comment on budgets promises one per route. Attempts are counted by position and target, so that
  routes of different foreach steps share them exactly if they agree in both (`BudgetsAreSharedIff`).
- Triggers mark a pipeline and a unit by one string. Every complete unit fires once, whatever has run,
  exactly if no id with triggers is another one with a colon and more behind it (`ExactlyOnceIff`).
  Otherwise one takes the other's unit away (`TakenUnitNeverFires`), and `LoseAUnit` is such a run.
- A unit is marked before its targets run. When one of them throws, those behind it are lost for good
  (`TriggerEngine.Fire`, `MarkedForGood`).
- `cancel` may overwrite `done`: `DoneCanBecomeCancelled` is such a run, and `DoneStaysIff` says which
  steps do it. The terminal set as a whole is absorbing.
- `resume` queues a run from a status that it read before an await. The scheduler is safe all the way
  exactly if no resume queues a run with a live execution (`EveryRun`), and `TwoResumesQueueALiveRun` is
  a run with one that does. `StepStrandsIff` says which steps leave a startable run beside a free slot,
  and `ResumeStrandsAQueuedRun` is a run that ends so.
- The event store accepts a `batchSize` or `maxPending` of 0. Numbering and order hold all the same; an
  empty batch leaves pending emits uncovered (`AlwaysCoveredIff`), and either strands emits for good
  (`StrandsNobodyIff`).
- Nested transactions of one callback that overlap share the depth that names their savepoints.
  `OverlapLosesAWrite` is one way to lose a write, and `OverlapIsFaithfulIff` says for which schedules
  what remains is what resolved, whichever of them return.
- A printed name is read back exactly when it holds no second marker (`MemberRoundTripIff` and its
  siblings). A member named `__ct` prints like a constructor (`MemberPrintsLikeCtor`); a class named
  `a__5c` and ten scope tokens are two other ways to fail. The canonical name of a member says the same
  under the same condition (`CanonicalMemberIff`), and that of `Fv__6abc__5` does not.
- The input cap of a stream bounds a chunk together with what is buffered, not a frame: exactly the
  chunks beyond it refuse a stream of valid frames (`RefusedIffOverCap`), so that a burst of small pings
  is refused when it arrives at once (`BurstIsRefusedIff`) and read when it arrives in pieces
  (`SmallChunksAreRead`).
- After a close frame the parse loop returns without closing the stream, and the next chunk is parsed
  (`PingBehindClose`). Chunking does not matter exactly if no more than an incomplete frame follows the
  close frame (`EveryChunkingAgreesIff`).
- The rate limiter's permits are paced whatever the clock reads. The release log reads the clock once
  more, and `LateEntryBreaksTheLog` is a run whose entries are too close. Punctual releases keep the log
  paced from some state on exactly if it is paced so far and its last entry is not later than its permit
  (`StaysPacedIff`).

## Model

| member | source | states |
|---|---|---|
| `CommonSubsequence.LcsBoundsMatchings` | src/parse/cpp/delta.ts:168-174 | No pairing of equal lines that increases on both sides is longer than `Lcs`: the reference that the diff is measured against is an upper bound |
| `CommonSubsequence.LcsIsAttained` | src/parse/cpp/delta.ts:168-174 | Some such pairing is as long as `Lcs` |
| `CommonSubsequence.LcsTrimmed` | src/parse/cpp/delta.ts:186-197 | Matching a common prefix and a common suffix directly never costs optimality |
| `Myers.RoundAdvances` | src/parse/cpp/delta.ts:112-117 | A round is at least as far as either of the two moves that lead to the diagonal, from the rounds before |
| `Myers.FurthestDominates` | src/parse/cpp/delta.ts:108-130 | No matching of any two prefixes gets ahead of the round with as many moves as the matching leaves lines out |
| `Myers.FurthestIsRealized` | src/parse/cpp/delta.ts:108-130 | Whatever a round stores, inside the grid or beyond it, is witnessed by a matching that leaves out exactly as many lines as the round has moves |
| `Myers.StoredValuesFit` | src/parse/cpp/delta.ts:102-110 | No stored value exceeds twice the number of lines, so the 32-bit cells do not overflow below 2^30 lines in all |
| `Myers.FirstCoverIsTheCorner` | src/parse/cpp/delta.ts:124-137 | The first `x >= n && y >= m` of the forward loop holds exactly at (n, m), although values may leave the grid |
| `Myers.FirstCoverIsOptimal` | src/parse/cpp/delta.ts:108-130 | The round that first leaves the loop is the edit distance n + m - 2 Lcs |
| `Myers.SomeRoundCovers` | src/parse/cpp/delta.ts:108-131 | The forward loop cannot run through all n + m + 1 rounds: the safety net behind it is unreachable |
| `Lines.Splitlines` | src/parse/cpp/delta.ts:70-84 | The regular-expression loop computes the lines of the text |
| `Lines.SplitInvertsWrite` | src/parse/cpp/delta.ts:64-84 | Splitting any well-formed writing of lines, with any mix of the universal line breaks, gives back those lines |
| `Lines.EveryTextIsWritten` | src/parse/cpp/delta.ts:64-84 | Every text is the well-formed writing of its lines, so the round trip covers all texts |
| `Lines.SplitsAtSeparators` | src/parse/cpp/delta.ts:64-84 | Lines free of the ten characters, written out, each followed by any of the eleven separators, written out, and a rest without one: the split gives exactly these lines, and the rest if it is not empty |
| `Lines.LinesArePlain` | src/parse/cpp/delta.ts:64-84 | No line of any text holds one of the ten characters |
| `LineDiff.ForwardCell` | src/parse/cpp/delta.ts:112-123 | The value computed for a diagonal from the row before is the furthest point of the mathematical recurrence |
| `LineDiff.ForwardRound` | src/parse/cpp/delta.ts:110-129 | One round fills its row in bounds and stops exactly when some diagonal covers the grid |
| `LineDiff.Forward` | src/parse/cpp/delta.ts:101-131 | The loop stops by round n + m, at the edit distance, on the far corner, with every earlier row recorded |
| `LineDiff.SkipSnake` | src/parse/cpp/delta.ts:152-155 | Walking back over equal lines adds exactly those pairs to the matching |
| `LineDiff.Predecessor` | src/parse/cpp/delta.ts:140-151 | The backtrack re-derives the move of the forward round, reading recorded rows in bounds |
| `LineDiff.BackRound` | src/parse/cpp/delta.ts:138-159 | Undoing one round stays inside the grid, keeps the matching and accounts for one unmatched line |
| `LineDiff.Backtrack` | src/parse/cpp/delta.ts:133-161 | From the recorded rows, the backtrack reports exactly the new lines outside a matching of (n + m - d) / 2 pairs |
| `LineDiff.MyersAddedIndices` | src/parse/cpp/delta.ts:96-161 | The reported indices increase strictly and are the complement of a longest common subsequence |
| `LineDiff.ComplementSize` | src/parse/cpp/delta.ts:160-161 | A complement lists the number of new lines minus the pairs of the matching |
| `LineDiff.Trim` | src/parse/cpp/delta.ts:186-197 | The scan finds equal ends that do not overlap, with a maximal prefix |
| `LineDiff.UntrimmedIsMatching` | src/parse/cpp/delta.ts:163-174 | A matching of the middle extends by both trimmed ends to a matching of the whole |
| `LineDiff.UntrimmedComplement` | src/parse/cpp/delta.ts:203-204 | Shifting the middle's indices by the prefix gives the complement of the extended matching |
| `LineDiff.AddedIndices` | src/parse/cpp/delta.ts:175-205 | For all line sequences the report has the number of new lines - Lcs(old, new) indices and complements a longest common subsequence |
| `LineDiff.ComputeAddedLines` | src/parse/cpp/delta.ts:175-205 | The same for texts, with 1-indexed numbers and the lines' own text; without an old text, every line |
| `RouteGraph.TopologicalNodesReachNoCycle` | src/pipeline/engine.ts:394-414 | A node all of whose edges lead to earlier finished nodes reaches no cycle |
| `RouteGraph.RetargetedGraphAcyclic` | src/pipeline/engine.ts:265-270 | Giving one node new targets keeps an acyclic graph acyclic iff that node reaches no cycle: searching from it alone is enough |
| `RouteGraph.AcceptedRegistrationsAcyclic` | src/pipeline/engine.ts:254-287 | After any sequence of accepted registrations and re-registrations the whole route graph is acyclic |
| `RouteGraph.LastRegistrationCounts` | src/pipeline/engine.ts:265-285 | The last registration of an id decides its targets |
| `RouteGraph.DescendantsShrink` | src/pipeline/engine.ts:872-885 | Along a route out of a node that reaches no cycle the reachable set strictly shrinks, and the target reaches no cycle either: the measure by which routing terminates |
| `RouteGraph.CycleSearch.Visit` | src/pipeline/engine.ts:398-412 | One call of the depth-first search: it blackens the node with the stack restored, or returns a cycle that the bottom of the stack reaches |
| `RouteGraph.FindCycle` | src/pipeline/engine.ts:394-414 | A path is returned iff a cycle is reachable from the node, and the path is such a cycle |
| `RouteGraph.CycleContainsNode` | src/pipeline/engine.ts:394-395 | Every cycle that appears when one node of an acyclic graph is re-targeted contains that node, as the comment on `findCycle` promises |
| `RouteGraph.CyclesContainIff` | src/pipeline/engine.ts:394-414 | The reachable cycles of every registration contain the registered node iff the graph before it is acyclic |
| `RouteGraph.CycleWithoutTheNode` | src/pipeline/engine.ts:265-270 | After a refused registration has left `b` routing to `b`, registering `a` routed to `b` finds a cycle, and no cycle contains `a` |
| `Registry.PipelineKeepsRoutes` | src/pipeline/engine.ts:265-269 | Storing a pipeline's targets keeps the route invariant iff its node reaches no cycle and it does not overwrite the routes of a fragment of the same id |
| `Registry.FragmentKeepsRoutes` | src/pipeline/engine.ts:281-285 | Storing a fragment keeps the route invariant iff its node reaches no cycle |
| `Registry.SharedIdsHideACycle` | src/pipeline/engine.ts:265-287 | A pipeline and a fragment of one id share an entry: three accepted registrations leave two fragments that route to each other |
| `Registry.PipelineEngine.RegisterPipeline` | src/pipeline/engine.ts:254-271 | The entry is stored before the check; the error is a real cycle, appears iff the node reaches one, and contains the node if the graph was acyclic; with disjoint ids it appears iff the whole graph has a cycle |
| `Registry.PipelineEngine.RegisterFragment` | src/pipeline/engine.ts:273-287 | The same for fragments |
| `Registry.NoFragmentReachesACycle` | src/pipeline/engine.ts:872-885 | Under the registration invariant no fragment can route back to itself |
| `Registry.SelfRouteGoesRound` | src/pipeline/engine.ts:802-885 | A fragment that routes what fails to itself without a limit: its batches over a failing item leave the same item for the same fragment, whatever has happened before |
| `Registry.PipelineEngine.RunPipeline` | src/pipeline/engine.ts:293-336 | A run of a registered pipeline whose reachable fragments do not route back to themselves, as after accepted registrations, ends and does what its steps mean; its outcome accounts for every planned item exactly once and only accepted items are finalized |
| `Pipeline.OnlyAndWithout` | src/pipeline/engine.ts:690-704 | Splitting the items in play by finished ids loses and duplicates nothing |
| `Pipeline.AcceptingConserves` | src/pipeline/engine.ts:628-640 | Dropping the accepted ids conserves the items iff what was accepted is a sub-collection of the items in play |
| `Pipeline.Chunk` | src/pipeline/engine.ts:231-238 | The slicing loop cuts the items into chunks |
| `Pipeline.ChunksCut` | src/pipeline/engine.ts:231-238 | Chunks are non-empty, at most the batch size, and read in order are the items |
| `Pipeline.GroupItems` | src/pipeline/engine.ts:899-908 | Groups hold their items in order, under keys in the order of first occurrence |
| `Pipeline.Partition` | src/pipeline/engine.ts:896-912 | The queue of batches is group after group, each cut into batches |
| `Pipeline.BatchesRefineSource` | src/pipeline/engine.ts:896-912 | The batches present every item once, group after group, in pieces of at most the batch size |
| `Pipeline.MatchRoute` | src/pipeline/engine.ts:921-950 | The first route, in order, whose predicate matches; none only when no route matches |
| `Pipeline.CollectRouteTargets` | src/pipeline/engine.ts:222-229 | The collected targets are those of the steps and of all nested foreach bodies |
| `Pipeline.RouteTargetsOfStep` | src/pipeline/engine.ts:222-229 | Whatever a nested foreach can route to is a target of the pipeline that contains it |
| `EngineConservation.TurnConserves` | src/pipeline/engine.ts:597-640 | A turn conserves the items in play iff its verdict accepts a sub-collection of what the drain left |
| `EngineConservation.AcceptedTwice` | src/pipeline/engine.ts:594-640 | A verdict that names an item twice: the loop over one item ends with two accepted |
| `EngineConservation.LoopConserves` | src/pipeline/engine.ts:594-672 | A whole agent loop conserves its items within max(1, cap) turns |
| `EngineConservation.VerifyPartitions` | src/pipeline/engine.ts:731-741 | The verifier's two sides partition the items |
| `EngineMeaning.RouteItemsKeep` | src/pipeline/engine.ts:840-869 | Routing accounts for every rejected item, and only to targets of the step's routes |
| `EngineMeaning.BudgetsAreSharedIff` | src/pipeline/engine.ts:849-862 | A routing by one foreach uses up the last attempt on a route of another iff both routes have the same position and the same target |
| `EngineMeaning.DrawKeepsOrder` | src/pipeline/engine.ts:799-830 | A shortened window and its returned excess keep the order of the items and the batch size, and the queue still shrinks |
| `EngineMeaning.FragmentRoutes` | src/pipeline/engine.ts:872-885 | A fragment routes only to proper descendants of itself: the measure by which runs end |
| `EngineSteps.VerifyDecides` | src/pipeline/engine.ts:725-742 | A known verifier that does not throw accepts exactly the items it says yes to and leaves the others in play, in order on both sides; an unknown or throwing one fails the step |
| `EngineSteps.GateDecides` | src/pipeline/engine.ts:456-470 | A gate that says no skips everything and ends its scope; one that says yes changes nothing for the rest of it |
| `EngineSteps.OthersDecideNothing` | src/pipeline/engine.ts:496-520 | Agent, shell, transform and select steps leave every item in play, accepted or not |
| `EngineSteps.NobodyIsAsked` | src/pipeline/engine.ts:496-545 | Agent steps and agent loops without items call no hook |
| `EngineSteps.TurnDecides` | src/pipeline/engine.ts:600-640 | In a turn exactly the items declared finished leave first, then the verdict is asked for the others, and exactly those that it does not accept stay in play |
| `EngineSteps.LoopAcceptsForAReason` | src/pipeline/engine.ts:594-672 | A loop accepts only items that some turn declared finished or accepted |
| `EngineSteps.CapDecides` | src/pipeline/engine.ts:551-555 | A loop in which nothing happens prompts exactly as often as the override of its scope says, else the step, else once, and at least once |
| `EngineSteps.FinalDecides` | src/pipeline/engine.ts:645-670 | A final verdict ends the loop; its feedback is one more prompt, after which only items declared finished are accepted |
| `EngineSteps.EmptyTurnEnds` | src/pipeline/engine.ts:641-644 | A turn after which nothing is in play ends the loop, whatever its verdict says |
| `EngineSteps.LoopBreaksForAReason` | src/pipeline/engine.ts:594-672 | A loop fails only because a hook throws, and one that ends has made only calls that did not |
| `EngineSteps.StepFailsForAReason` | src/pipeline/engine.ts:475-494 | The same for every step that runs no fragment, an unknown verifier apart |
| `EngineSteps.RouteDecides` | src/pipeline/engine.ts:840-869 | A rejected item goes to the fragment of the first route that matches it and to no other, and is counted there; with its attempts used up it stays rejected |
| `EngineSteps.UnmatchedStays` | src/pipeline/engine.ts:841-845 | An item that matches no route stays rejected |
| `EngineSteps.WhenDecides` | src/pipeline/engine.ts:921-950 | A route takes an item iff each of its conditions does: size strictly below, one of the statuses, attempts from the minimum up to the maximum |
| `EngineSteps.SetupDecides` | src/pipeline/engine.ts:809-835 | The setup hook keeps as many items as it says, at most the batch, and its cap beats that of the scope; a size below 1 fails the step |
| `EngineSteps.NoSetup` | src/pipeline/engine.ts:805-812 | Without a setup hook the batch is the window |
| `EngineSteps.FragmentDecides` | src/pipeline/engine.ts:872-885 | Items routed to a known fragment run through its steps, without an override of the cap, and their outcome is added; an unknown target fails the step |
| `EngineSteps.ForeachOfNothing` | src/pipeline/engine.ts:774-802 | A batch size below 1 fails the step; without items it does nothing |
| `EngineSteps.BatchesDoNotMix` | src/pipeline/engine.ts:896-919 | No batch mixes items of two units, or of two values of the grouping field |
| `EngineSteps.FinalizeDecides` | src/pipeline/engine.ts:622-640 | An agent loop finalizes exactly what it accepts, in order; verify, gate and the other steps without fragments finalize nothing |
| `EngineConservation.StepConserves` | src/pipeline/engine.ts:475-494 | Every kind of step conserves the items in play, whatever the hooks answer |
| `EngineConservation.AfterConserves` | src/pipeline/engine.ts:456-470 | A step that conserves what is in play, in front of a rest that does, conserves the items of the scope |
| `EngineConservation.ScopeConserves` | src/pipeline/engine.ts:453-471 | Accepted, rejected and skipped together are a permutation of the items that entered, through any nesting, and whatever was finalized on the way was accepted |
| `EngineConservation.BatchesAdd` | src/pipeline/engine.ts:802-870 | The windows of a foreach cover its queue in order, and the tally accounts for exactly their items |
| `EngineConservation.WindowsRefineSource` | src/pipeline/engine.ts:799-830 | The windows, in order, present the grouped source, uncut and unshuffled, in pieces of at most the batch size |
| `EngineConservation.BucketsConserve` | src/pipeline/engine.ts:872-885 | What the fragments return accounts for all routed items |
| `EngineConservation.ForeachConserves` | src/pipeline/engine.ts:774-892 | A foreach conserves its items through batches, setup splits, routing and fragments |
| `Engine.Run.DrainFinish` | src/pipeline/engine.ts:682-714 | Finished ids leave play, are accepted in order, and are finalized once each; unknown ids change nothing |
| `Engine.Run.AcceptAll` | src/pipeline/engine.ts:628-639 | The verdict's items are accepted and finalized in order, until a hook throws |
| `Engine.Run.Turn` | src/pipeline/engine.ts:595-640 | One evaluated turn is prompt, drain, reprompt, accept, in this order |
| `Engine.Run.FinalTurn` | src/pipeline/engine.ts:646-667 | A final verdict with feedback costs one more prompt, whose reply is drained but not evaluated |
| `Engine.Run.TurnAndTest` | src/pipeline/engine.ts:645-669 | After a turn the loop ends when nothing is in play, on a final verdict, or at the cap, tested in this order |
| `Engine.Run.Converse` | src/pipeline/engine.ts:590-670 | The session's loop ends after at most max(1, cap) evaluated prompts and one write-only prompt |
| `Engine.Run.RunAgentLoop` | src/pipeline/engine.ts:545-673 | Finalize is called exactly once per accepted item, in order of acceptance, and never for others; the retry override beats the step's cap; no items, no session |
| `Engine.Run.RunVerify` | src/pipeline/engine.ts:725-742 | The verdict decides each item's side; an unknown verifier or a throwing one fails the step |
| `Engine.Run.RunGate` | src/pipeline/engine.ts:763-772 | A gate keeps all items or skips them all and aborts the scope |
| `Engine.Run.RunPassThrough` | src/pipeline/engine.ts:496-540 | Steps that only run something leave every item in play; an agent step without items asks nothing |
| `Engine.Run.DrawWindow` | src/pipeline/engine.ts:804-835 | The setup hook may shorten the drawn batch, returning the excess to the front of the queue, and override the re-prompt cap; an invalid size fails |
| `Engine.Run.BumpAttempt` | src/pipeline/engine.ts:962-969 | One attempt more under exactly one route and item |
| `Engine.Run.RouteOne` | src/pipeline/engine.ts:840-868 | A rejected item goes to the bucket of the first matching route within its budget, else stays rejected; budgets are per route index and item |
| `Engine.Run.RunScope` | src/pipeline/engine.ts:453-471 | The loop over steps has the meaning of the scope: each step in order, on what the one before left in play, until a gate aborts |
| `Engine.Run.RunStep` | src/pipeline/engine.ts:475-494 | Each kind of step is run as what it is |
| `Engine.Run.RunWindow` | src/pipeline/engine.ts:804-869 | One round of the batch queue: draw, run the body, route its rejects |
| `Engine.Run.RunBatches` | src/pipeline/engine.ts:802-870 | The queue loop ends, with every window drawn, run and routed in order |
| `Engine.Run.RunForeach` | src/pipeline/engine.ts:774-892 | Batches first, then the fragments; a batch size below 1 fails |
| `Engine.Run.RunBuckets` | src/pipeline/engine.ts:872-885 | Each bucket runs through its fragment in the order of first routing; an unregistered target fails |
| `Triggers.CompleteIff` | src/pipeline/engine.ts:357-372 | A unit is complete iff some accepted item is of it and no rejected or skipped one is |
| `Triggers.CollideIff` | src/pipeline/engine.ts:373 | Two pipelines share a key for some units iff one id is the other followed by a colon and more |
| `Triggers.TakenUnitNeverFires` | src/pipeline/engine.ts:373-375 | For every two such ids with triggers: after the longer one has completed unit `c` and fired, the other completes the colliding unit, which is marked, and never fires for it |
| `Triggers.LoseAUnit` | src/pipeline/engine.ts:293-382 | An engine that runs the two in this order, with no run throwing, ends with a completed unit that has not fired |
| `Triggers.ExactlyOnceIff` | src/pipeline/engine.ts:342-382 | Whatever has run, every unit that a served run of a pipeline with triggers completed has fired once: iff no registered id with triggers is another one followed by a colon and more |
| `Triggers.MarkedForGood` | src/pipeline/engine.ts:374-380 | A marked key never fires again: with `Fire`, what a firing asked for and did not get because a target threw never runs on its account |
| `Triggers.Units` | src/pipeline/engine.ts:357-369 | The loop finds exactly the complete units: those with items of the run, all of them accepted |
| `Triggers.Compose` | src/pipeline/engine.ts:371-380 | What one stretch of dispatching runs and fires adds up with the next; what a firing owes is paid by the runs behind it |
| `Triggers.TriggerEngine.FireOnce` | src/pipeline/engine.ts:373-380 | A unit whose key is marked is passed over; else it is marked first and then its targets run |
| `Triggers.TriggerEngine.Fire` | src/pipeline/engine.ts:375-380 | The unit is marked before its targets run; when one throws, it stays marked and the targets behind it have not run |
| `Triggers.TriggerEngine.Dispatch` | src/pipeline/engine.ts:348-382 | After a dispatch every complete unit of the run is marked, and the runs since are exactly those that the firings since ask for |
| `Triggers.TriggerEngine.RunPipeline` | src/pipeline/engine.ts:293-336 | However triggers form loops, a run and everything it triggers ends, over a finite store of units; every completed run is served, nothing runs that was not asked for, and it fails only when some run throws or a target is unknown |
| `WorkerPool.WorkerPool.constructor` | src/core/worker.ts:206-249 | A new pool has one process per slot and an empty queue, and satisfies the invariant |
| `WorkerPool.WorkerPool.Pump` | src/core/worker.ts:329-342 | The loop, with its nested pumps, reaches the state of dispatching in queue order until nothing is dispatchable |
| `WorkerPool.WorkerPool.DispatchHead` | src/core/worker.ts:344-383 | A dispatch that fails rejects its request and pumps; the outer loop's result is unchanged by that |
| `WorkerPool.WorkerPool.SendHead` | src/core/worker.ts:344-383 | A new process only when there is none alive; a fresh wire id per attempt; a failed spawn or write frees the slot and rejects |
| `WorkerPool.PumpShrinks` | src/core/worker.ts:329-342 | Pumping leaves nothing for a second pump and never lengthens the queue |
| `WorkerPool.WorkerPool.Request` | src/core/worker.ts:258-264 | A closed pool rejects at once; an open one queues and pumps |
| `WorkerPool.WorkerPool.Settle` | src/core/worker.ts:457-467 | The slot's request is settled and the freed slot pumped |
| `WorkerPool.WorkerPool.HandleLine` | src/core/worker.ts:398-455 | Only a line with the latest wire id settles the request; garbage drops the process |
| `WorkerPool.WorkerPool.HandleData` | src/core/worker.ts:385-396 | A chunk joins the buffer and its complete lines are handled, until one of them makes the slot drop the process; stale output changes nothing |
| `WorkerPool.WorkerPool.HandleText` | src/core/worker.ts:388-395 | The loop cuts lines at line feeds, strips a carriage return, passes over blank lines and keeps the unfinished rest |
| `WorkerPool.WorkerPool.HandleTimeout` | src/core/worker.ts:469-495 | The first timeout drops the process and retries at the head of the queue, the second rejects |
| `WorkerPool.WorkerPool.HandleExit` | src/core/worker.ts:497-513 | Only the exit of the slot's current process rejects its request |
| `WorkerPool.WorkerPool.HandleSpawnError` | src/core/worker.ts:515-525 | The same for a process that could not be spawned |
| `WorkerPool.WorkerPool.Close` | src/core/worker.ts:277-300 | Closing rejects what is queued and in flight and detaches every process, once |
| `PoolSafety.StepKeepsInv` | src/core/worker.ts:258-541 | Every handler keeps the invariant and leaves the queue empty or all slots busy |
| `PoolSafety.EveryRun` | src/core/worker.ts:258-541 | Over every interleaving: one place per request, settled once, dispatched at most twice; wire ids never repeat; a result comes from the process and id of the latest attempt; first dispatches in request order; no request waits beside a free slot |
| `PoolSafety.ClosedSettlesEverything` | src/core/worker.ts:277-300 | A closed pool has settled every request it ever accepted, exactly once |
| `PoolSafety.RetryIsServedNext` | src/core/worker.ts:483-489 | A request that timed out once is the very next to be dispatched or to fail its spawn |
| `PoolOutcomes.LineDecides` | src/core/worker.ts:398-455 | A result under the latest wire id resolves the request, an error rejects it, garbage rejects it as a breach of the protocol: each iff the line is of that kind; every other line changes nothing |
| `PoolOutcomes.ReplyKeepsProcess` | src/core/worker.ts:422-455 | A reply leaves its process in the slot for the next request; garbage does not |
| `PoolOutcomes.FirstAnswerDecides` | src/core/worker.ts:385-455 | Of any text the first line that decides settles the request, as that line says |
| `PoolOutcomes.BlankIff` | src/core/worker.ts:392 | The lines passed over are exactly those of white space, written out |
| `PoolOutcomes.CarriageReturnIsDropped` | src/core/worker.ts:390 | A line may as well end with a carriage return and a line feed |
| `PoolOutcomes.DispatchDecides` | src/core/worker.ts:344-383 | A request goes to the living process of its slot or else to a new one, and fails iff none can be spawned or the write fails |
| `PoolOutcomes.EventDecides` | src/core/worker.ts:473-541 | An exit, a spawn error and a second timeout each reject the request for their own reason; the first timeout dispatches it again before any other |
| `PoolOutcomes.AskDecides` | src/core/worker.ts:258-264 | A pool accepts requests iff it is open; with a slot free the new one is dispatched at once, else it waits behind the others |
| `PoolOutcomes.CloseDecides` | src/core/worker.ts:277-300 | Closing an open pool settles every request that is not settled yet, as closed |
| `PoolOutcomes.EverySettlementHasAReason` | src/core/worker.ts:258-541 | Behind every settlement of a run stands one of its events: for a resolved one, a result under that wire id in the output of that process; else an error, garbage, a timeout, an exit, a spawn error, the close, or a failed dispatch |
| `PoolProgress.StepLeaves` | src/core/worker.ts:258-541 | At most two processes are left to serve an accepted request; every answer, timeout or exit takes one away, and no handler adds any |
| `PoolProgress.EndsAreBounded` | src/core/worker.ts:258-541 | In every run there are at most two answers, timeouts or exits of serving processes per accepted request, those still to come included |
| `PoolProgress.EndOfRequest` | src/core/worker.ts:398-541 | A request is settled once its process has answered or is gone or has timed out a second time; after the first timeout another process serves it at once, or the retry already failed and it is settled |
| `PoolProgress.AllSettledIff` | src/core/worker.ts:258-541 | Every accepted request is settled exactly when no process can answer, time out or go any more |
| `PoolProgress.AllSettleAtLast` | src/core/worker.ts:258-541 | From every reachable state, whichever answers, timeouts and exits come and in whatever order: they are at most as many as are left, and every accepted request is settled exactly when no more can come |
| `PoolProgress.UnsettledIsServed` | src/core/worker.ts:329-383 | While an accepted request is not settled, some process serves a request, so that its answer, timer or exit is still to come |
| `PoolProgress.TextThenMore` | src/core/worker.ts:385-396 | Output that arrives later is handled as if it had been there, even when a line was cut in two or its process was dropped |
| `PoolProgress.ChunksJoin` | src/core/worker.ts:385-396 | Two chunks of output in a row do the same as one |
| `RunScheduler.Semaphore.Acquire` | src/server/scheduler.ts:236-253 | Granted while a slot is free, refused when closed, else queued first come first served |
| `RunScheduler.Semaphore.Release` | src/server/scheduler.ts:255-263 | A freed slot goes to the longest waiter and only without waiters back to the pool |
| `RunScheduler.Semaphore.Close` | src/server/scheduler.ts:265-270 | Closing refuses every waiter |
| `RunScheduler.RunScheduler.constructor` | src/server/scheduler.ts:309-331 | A new scheduler has nothing queued and all slots free, over whatever rows it finds |
| `RunScheduler.RunScheduler.RecoverStaleRuns` | src/server/scheduler.ts:819-838 | Recovery, one operation on the write queue, pauses the rows left running, queues those left queued, and pumps |
| `RunScheduler.RunScheduler.Pump` | src/server/scheduler.ts:556-570 | Queued runs start while slots are free, skipping those asked to pause |
| `RunScheduler.RunScheduler.CreateDone` | src/server/scheduler.ts:342-377 | A created run is queued and pumped |
| `RunScheduler.RunScheduler.ResumeWake` | src/server/scheduler.ts:407-439 | Resume calls the waiter, or queues a run it had read as paused; the invariant is kept iff that does not queue a run with a live execution |
| `RunScheduler.RunScheduler.FinishResume` | src/server/scheduler.ts:407-439 | The pump at the end of a resume that queued its run |
| `RunScheduler.RunScheduler.RequestCancel` | src/server/scheduler.ts:447-452 | Cancel returns at once from a row that it read as terminal, and else flags the run |
| `RunScheduler.RunScheduler.RequestPause` | src/server/scheduler.ts:384 | The flag is set before the row update, and keeps the invariant |
| `RunScheduler.RunScheduler.ClearPause` | src/server/scheduler.ts:411 | The flag is cleared before the row update, and keeps the invariant |
| `RunScheduler.RunScheduler.StartClose` | src/server/scheduler.ts:509-513 | Close takes the whole queue over at once, and nothing starts any more |
| `RunScheduler.RunScheduler.FlagInClose` | src/server/scheduler.ts:509-536 | Close flags each queued run and each execution before the update of its row |
| `RunScheduler.RunScheduler.PipelineEnded` | src/server/scheduler.ts:610-643 | A stopped run ends as cancelled whatever its pipeline says |
| `RunScheduler.RunScheduler.CancelDone` | src/server/scheduler.ts:447-469 | Cancel takes the run off the queue and releases its execution |
| `RunScheduler.RunScheduler.CloseWake` | src/server/scheduler.ts:508-546 | After the wake phase of close no execution is blocked on a resume or on the semaphore |
| `RunScheduler.RunScheduler.UpdateRow` | src/server/scheduler.ts:393-396 | Each row update under its own guard keeps terminal rows terminal and cancelled rows cancelled |
| `RunScheduler.RunScheduler.CheckRun` | src/server/scheduler.ts:661-673 | A checkpoint aborts, yields with its waiter registered, or goes on |
| `RunScheduler.RunScheduler.Continue` | src/server/scheduler.ts:578-731 | Each stretch of an execution between two awaits keeps the invariant |
| `RunScheduler.RunScheduler.YieldSlot` | src/server/scheduler.ts:715-718 | A yielding execution gives its slot to the longest waiter, or else to queued runs |
| `RunScheduler.RunScheduler.TakeSlot` | src/server/scheduler.ts:704-731 | A grant is recorded, or given back by an execution that was stopped meanwhile |
| `RunScheduler.RunScheduler.Settle` | src/server/scheduler.ts:644-658 | The end of an execution gives its slot back and pumps |
| `SchedulerSafety.UpdatesKeepTerminal` | src/server/scheduler.ts:393-458 | No row update leaves the terminal set, and none leaves `cancelled` |
| `SchedulerSafety.TerminalRowsStay` | src/server/scheduler.ts:393-838 | Over all runs, restarts included, a terminal row never becomes queued, running or paused and a cancelled one never changes |
| `SchedulerSafety.RowChangesIff` | src/server/scheduler.ts:384-640 | Which update brings a row from which status to which other one, for all of them |
| `SchedulerSafety.RecoveryPauses` | src/server/scheduler.ts:819-838 | After a restart and its recovery no row is running: what ran is paused, the other rows are as before |
| `SchedulerSafety.DoneStaysIff` | src/server/scheduler.ts:393-779 | A step keeps a row `done` iff it is not a cancel that read an unfinished row, close's cancel of a queued run, or the failure of a second execution, of that row |
| `SchedulerSafety.DoneStays` | src/server/scheduler.ts:393-779 | So a row stays `done` over every run without such a step for it |
| `SchedulerRuns.DoneCanBecomeCancelled` | src/server/scheduler.ts:447-458 | A run of a new scheduler in which a cancel that read `running` turns a `done` row into `cancelled` |
| `SchedulerSafety.StepKeepsInv` | src/server/scheduler.ts:342-838 | A step keeps slot accounting, one execution per run, the semaphore's queue and the waiters iff it is not a resume that queues a run with a live execution |
| `SchedulerSafety.EveryRun` | src/server/scheduler.ts:226-838 | Over every interleaving, safe in all states iff no resume queues a live run. Safe: free slots, owners and unrecorded grants add up to the cap; no run is queued and executing; nobody waits beside a free slot, so queued runs do not overtake resumed ones; no wake-up is lost; after close nobody is blocked |
| `SchedulerSafety.SemaphoreStaysClosed` | src/server/scheduler.ts:265-270 | Once closed, the semaphore stays closed until a restart |
| `SchedulerRelease.FlagsDecide` | src/server/scheduler.ts:384-531 | What pause, resume, cancel and close set at once; a cancel that read a terminal status changes nothing |
| `SchedulerRelease.CancelReleases` | src/server/scheduler.ts:447-469 | After a cancel the run is not queued, has no waiter, and its execution waits for no resume |
| `SchedulerRelease.CancelledRunStops` | src/server/scheduler.ts:447-469 | Whatever happens after a cancel, an execution that takes three steps of its own, not counting those in which it waits for a slot, is gone |
| `SchedulerRelease.OwnStepStops` | src/server/scheduler.ts:661-725 | Each step of its own brings a stopping execution nearer to its end, which is `cancelled` unless it was finishing already |
| `SchedulerRelease.EndForgets` | src/server/scheduler.ts:644-655 | An execution that ends is forgotten with all its flags, and no other run's are |
| `SchedulerRelease.FinishDecides` | src/server/scheduler.ts:606-643 | A pipeline that returns or throws finishes as cancelled iff its run is to stop, and else with its outcome, and then no pause is asked for |
| `SchedulerRelease.OtherStepKeeps` | src/server/scheduler.ts:260-800 | No other step makes a released execution wait again, or takes the wish to stop away |
| `SchedulerRelease.CloseStopsAll` | src/server/scheduler.ts:508-546 | After the wake phase of close every execution stops, none waits for anything, and each is gone after three steps of its own |
| `SchedulerRelease.ClosedStartsNothing` | src/server/scheduler.ts:554-569 | Once closed, no step gives a run an execution |
| `SchedulerRelease.ResumeReleases` | src/server/scheduler.ts:407-424 | A resume that finds a waiter calls it: the execution waits for no resume |
| `SchedulerRelease.OwnStepGoesOn` | src/server/scheduler.ts:690-725 | Each step of its own brings a resumed execution on: to a slot if one is free, else into the semaphore's queue, and at last back to work |
| `SchedulerRelease.ResumingRunsOut` | src/server/scheduler.ts:690-725 | Whatever happens in between, these steps are at most five: then it is back at work, or finishes, or is to stop |
| `SchedulerRelease.PumpStartsTheFirst` | src/server/scheduler.ts:554-569 | With a slot free, the first queued run that is not asked to pause starts |
| `SchedulerRelease.SlotsGoInTurn` | src/server/scheduler.ts:222-272 | Slots are granted in the order in which they were asked for, over every step but close and restart |
| `SchedulerSafety.StepStrandsIff` | src/server/scheduler.ts:556-570 | A step leads to a startable run beside a free slot iff it is a resume that clears the flag of a queued run or queues one, or a stopped execution giving back a slot nobody waits for |
| `SchedulerRuns.ResumeStrandsAQueuedRun` | src/server/scheduler.ts:407-439 | A run of a new scheduler in which a resume that read `queued` leaves a startable run beside the free slot |
| `SchedulerSafety.RequeueKeepsOneExecution` | src/server/scheduler.ts:409-433 | Re-queueing from a stale `paused` keeps one execution per run iff the run is queued or has none |
| `SchedulerRuns.TwoResumesQueueALiveRun` | src/server/scheduler.ts:407-439 | A run of a new scheduler in which two resumes that both read `paused` leave a live run queued and ready to be started a second time |
| `EventSafety.EveryRun` | src/core/events.ts:139-239 | Over any mix of batches, failures and finalize transactions, whatever the options: rows numbered 1 to counter without gap; emits leave in acceptance order and are told their own rows; each is in one place; pending is bounded |
| `EventSafety.AlwaysCoveredIff` | src/core/events.ts:119-170 | Pending emits are in every run covered by a timer or by enough scheduled flushes iff `batchSize` is at least 1 or `maxPending` is 0 |
| `EventSafety.StepKeepsInv` | src/core/events.ts:139-239 | Each step of the store, or of the second writer, keeps all of this |
| `EventSafety.FlushedOrder` | src/core/events.ts:196-238 | A flush settles its batch in queue order and its rows are in that order |
| `EventSafety.FlushedOwnRow` | src/core/events.ts:196-238 | Each committed emit is told the number of its own row, and the numbering stays gap-free, also after a failed batch |
| `EventSafety.FinalizeKeeps` | src/core/daemon.ts:249-285 | The daemon's finalize transaction on the same counter keeps the numbering and the order |
| `EventCommits.FlushDecides` | src/core/events.ts:196-238 | A transaction that commits writes the whole batch, the i-th emit under the i-th number behind the counter, and tells each its number; one that fails writes nothing and fails each |
| `EventCommits.EverySettlementHasAFlush` | src/core/events.ts:188-238 | Over every run an emit has failed iff the transaction of its own batch failed, and else it has its number in that batch |
| `EventCommits.RestWritesEverything` | src/core/events.ts:139-238 | At rest, without a failed transaction and with both options at least 1, the database holds every accepted emit, in order |
| `EventCommits.AcceptedAreWritten` | src/core/events.ts:139-238 | Without a failed transaction, written, in flight and pending together are what was accepted, in order |
| `EventCommits.EmitDecides` | src/core/events.ts:139-151 | An emit is refused iff it cannot be serialized, and else accepted behind the others iff there is room, or blocked |
| `EventCommits.LookDecides` | src/core/events.ts:144-150 | A woken producer is accepted iff there is room by then, and else waits again |
| `EventCommits.WindowDecides` | src/core/events.ts:154-170 | An accepted emit that fills a batch is flushed at once; one that does not leaves the window running |
| `EventCommits.TimerDecides` | src/core/events.ts:165-169 | The end of the window flushes iff something is pending |
| `EventCommits.DrainDecides` | src/core/events.ts:188-195 | Flushes do not overlap; one takes the first min(pending, batchSize) emits, and all waiting producers look again iff there is room |
| `EventCommits.RunIsBatched` | src/core/events.ts:188-189 | No batch of any run is longer than `batchSize`, and the window never runs beside a full one |
| `EventCommits.FinalizeDecides` | src/core/daemon.ts:249-285 | The second writer adds one row iff the status changed and its transaction commits |
| `EventSafety.RestSettlesEverything` | src/core/events.ts:139-239 | A store at rest has no pending emit and no blocked producer, and every emit is settled or refused exactly once |
| `EventSafety.RunExtends` | src/core/events.ts:196-238 | Rows and settlements are never taken back |
| `EventSafety.EnabledStepsAreCloser` | src/core/events.ts:154-195 | Whatever the store does by itself brings it closer to rest, in a lexicographic measure |
| `EventSafety.NoEndlessRun` | src/core/events.ts:154-195 | Whatever steps of its own the store takes and whatever the options, it cannot take them forever |
| `EventSafety.RestsIffStuck` | src/core/events.ts:154-195 | Every sequence of its own steps leaves the store at rest exactly when it cannot be continued |
| `EventSafety.ComesToRest` | src/core/events.ts:154-195 | From every reachable state, some sequence of the store's own steps leads to rest |
| `EventSafety.StrandsNobodyIff` | src/core/events.ts:119-126 | Coming to rest never strands an emit iff `batchSize` and `maxPending` are at least 1; the constructor accepts 0 for both |
| `WorkflowStatus.RepeatIsSilentIff` | src/core/daemon.ts:216-249 | Whatever was finalized in between, finalizing a target again logs an event iff its status differs from that of the target's own last call; otherwise no status changes |
| `WorkflowStatus.CallIsSecondWriter` | src/core/daemon.ts:247-285 | On the event log a finalize transaction is the store's second writer, and logs iff the resolved status changes |
| `WorkflowStatus.PromotionDecides` | src/core/daemon.ts:216-245 | A promotion accepts the work item for good, a status of the action becomes its own, and no other item is touched |
| `WorkflowStatus.StoredStatus` | src/core/daemon.ts:216-230 | The status stored is the action's, else the workflow's, else DONE, and it is read back whatever scoped rows there are |
| `WorkflowStatus.OneEventPerChange` | src/core/daemon.ts:247-286 | A run of finalize transactions logs exactly one event per change of a resolved status |
| `WorkflowStatus.OwnCallsDecide` | src/workflow/status.ts:104-135 | Once finalized, a target's resolved status is that of its own last call: other targets and scoped rows never hide it |
| `WorkflowStatus.ScopedCallChangesIff` | src/workflow/status.ts:104-135 | Before that, a call for another key changes it iff it writes a different status to the first scoped row that applies |
| `EventStore.ResolveStatus` | src/workflow/status.ts:114-135 | The loop over the three probes returns the status of the first row that exists |
| `EventStore.FinalizeWorkflowItem` | src/core/daemon.ts:203-289 | Status row, work item and event together, or when rolled back nothing; an event under the next number iff the resolved status changed |
| `EventStore.Database.InsertBatch` | src/core/events.ts:196-232 | The loop inserts the batch under base + 1 upwards, and may fail at any statement |
| `EventStore.EventStore.constructor` | src/core/events.ts:119-126 | A new store satisfies the invariant |
| `EventStore.EventStore.Emit` | src/core/events.ts:139-151 | An emit up to its first await: refused, blocked, or queued with a flush or timer arranged |
| `EventStore.EventStore.ScheduleFlush` | src/core/events.ts:154-170 | A full batch cancels the window timer and flushes; otherwise one timer runs |
| `EventStore.EventStore.Look` | src/core/events.ts:144-146 | A woken producer checks the cap again |
| `EventStore.EventStore.FireTimer` | src/core/events.ts:166-169 | The window's end flushes what is pending |
| `EventStore.EventStore.StartDrain` | src/core/events.ts:188-195 | A flush takes a batch off the front and wakes the producers when that made room |
| `EventStore.EventStore.Flush` | src/core/events.ts:196-238 | The transaction writes the whole batch or, rolled back, nothing, and settles every emit of it |
| `Transactions.FailedSubtreesAreDropped` | src/core/store/sqlite.ts:228-257 | For any tree of nested transactions with any failures, caught or not, the result is that of replaying the statements outside the failed subtrees |
| `Transactions.StraightReturns` | src/core/store/sqlite.ts:228-257 | A callback of statements returns iff none of them throws, and then all of them count |
| `Transactions.NestedStatementsCount` | src/core/store/sqlite.ts:228-257 | A nested transaction of statements counts as a whole, or, caught when one throws, not at all |
| `Transactions.OutermostKeepsIff` | src/core/store/sqlite.ts:203-226 | An outermost transaction succeeds iff its callback returns and its commit is accepted; then the database is what the surviving statements make of it, and else as before |
| `Transactions.ClosingTheLast` | src/core/store/sqlite.ts:240-251 | RELEASE, or ROLLBACK TO and RELEASE, of the latest savepoint restores the stack, with or without the writes since |
| `Transactions.SiblingsKeep` | src/core/store/sqlite.ts:228-257 | What two nested transactions of one callback leave behind, in every order of opening, writing and ending and for every outcome, and which of them resolve |
| `Transactions.FairIff` | src/core/store/sqlite.ts:181-192 | For one order and outcome: what remains are the writes of exactly those that resolve iff the condition on who wrote when |
| `Transactions.OverlapIsFaithfulIff` | src/core/store/sqlite.ts:181-192 | This is so for all outcomes iff the two do not overlap, or the later one writes nothing and, unless the earlier ends first, neither does the earlier while both are open |
| `Transactions.IsolatedIsFaithful` | src/core/store/sqlite.ts:181-192 | Under that condition it is so whatever the writes do to the database |
| `Transactions.OverlapLosesAWrite` | src/core/store/sqlite.ts:240-251 | The earlier writes once the later has opened, the later fails, the earlier returns: it resolves and its write is gone |
| `SqliteAdapter.SqliteAdapter.RunOuterTransaction` | src/core/store/sqlite.ts:203-226 | All of the callback's effect, or none when it throws or the commit is refused; the depth returns to 0 |
| `SqliteAdapter.SqliteAdapter.NestedTransaction` | src/core/store/sqlite.ts:228-257 | Inside a transaction the savepoint machine gives the meaning of the subtree and restores depth and stack; outside, the call is queued as an outermost one |
| `SqliteAdapter.SqliteAdapter.RunCallback` | src/core/store/sqlite.ts:103-118 | A callback with nested transactions has the big-step meaning |
| `SqliteAdapter.SqliteAdapter.Transaction` | src/core/store/sqlite.ts:193-201 | A call queues behind the earlier ones |
| `SqliteAdapter.SqliteAdapter.RunQueue` | src/core/store/sqlite.ts:193-201 | Queued transactions run one after the other: the result is serial, in call order |
| `SqliteAdapter.DatabaseSync.Find` | src/core/store/sqlite.ts:240-251 | The most recent savepoint of a name |
| `TransactionQueue.RunKeepsInv` | src/core/store/sqlite.ts:193-257 | Every small step, with calls arriving between any two, keeps the nesting and the serial result to come |
| `TransactionQueue.EveryRunIsSerial` | src/core/store/sqlite.ts:180-226 | Overlapping outermost transactions equal their serial execution in call order, whatever the interleaving |
| `TransactionQueue.CallbackEnds` | src/core/store/sqlite.ts:228-257 | The small steps of a callback add up to its meaning, with the savepoint stack as it was |
| `TransactionQueue.TransactionEnds` | src/core/store/sqlite.ts:203-226 | Every transaction that began ends, and its promise settles |
| `MangledNames.ParseQualified` | src/parse/symbols/table.ts:160-182 | The loop reads the counted tokens, or fails as a whole |
| `MangledNames.FindLastMarker` | src/parse/symbols/table.ts:243-248 | The successive non-overlapping matches end at the last marker of the text |
| `MangledNames.ParseMangled` | src/parse/symbols/table.ts:204-261 | The method computes what the name says: the last `__ct__` or `__dt__` decides, else the last marker |
| `MangledNames.FindMemberName` | src/parse/symbols/extc.ts:567-577 | The text before the last marker |
| `MangledNames.CanonicalTargetFor` | src/parse/symbols/extc.ts:579-597 | The canonical name, or none when it is canonical already or left alone |
| `MangledArtifacts.NameStartIff` | src/parse/symbols/table.ts:81 | The characters that may follow the length digits, written out |
| `MangledArtifacts.DigitIff` | src/parse/symbols/table.ts:76-81 | Digits and hexadecimal digits, written out |
| `MangledArtifacts.MarkerIff` | src/parse/symbols/table.ts:81 | Two underscores start an encoding iff `Q` and a digit follow, or digits and the start of a name |
| `MangledArtifacts.KindDecides` | src/parse/symbols/table.ts:237-261 | A special prefix makes a constructor or a destructor; any other member has a class; every other name is free and says nothing |
| `MangledArtifacts.TargetIff` | src/parse/symbols/extc.ts:579-597 | A name has another canonical name iff it holds no `@`, is special or holds `Fv`, and does not print as it is |
| `MangledArtifacts.ArtifactsDoNotMatter` | src/parse/symbols/table.ts:228-235 | A name without `@` says the same behind a dtk bucket and with a local suffix |
| `MangledArtifacts.OnlySuffixesAreStripped` | src/parse/symbols/table.ts:75 | What is taken off the end of any name consists of local suffixes |
| `MangledArtifacts.AddressIsStripped` | src/parse/symbols/table.ts:76 | An address prefix of eight hexadecimal digits is stripped, and nothing behind it |
| `MangledArtifacts.OverrunDecides` | src/parse/symbols/table.ts:126-157 | A token whose length overruns the text ends at the first `F`, unless the length is above 99 or the `F` comes first |
| `MangledArtifacts.OverrunWithoutF` | src/parse/symbols/table.ts:141-150 | Without an `F`, a length that overruns the text is no token |
| `MangledArtifacts.NoLength` | src/parse/symbols/table.ts:126-136 | A length of zero, or none, is no token |
| `MangledRoundTrip.DecimalIsShortest` | src/parse/symbols/table.ts:132-157 | No length digits are shorter than the canonical ones |
| `MangledRoundTrip.ReadOwnTokens` | src/parse/symbols/table.ts:160-182 | Printed tokens are read back, with what follows them |
| `MangledRoundTrip.ReadTokenParts` | src/parse/symbols/table.ts:126-157 | What a token was read from: its digits, its name, the rest, clamped lengths included |
| `MangledRoundTrip.CoreSize` | src/parse/symbols/table.ts:197-202 | A text is never shorter than the print of what it says |
| `MangledRoundTrip.CoreOfPrint` | src/parse/symbols/table.ts:160-202 | The core parser recovers a printed encoding iff one digit counts its tokens |
| `MangledRoundTrip.LaterCoreDiffers` | src/parse/symbols/table.ts:160-202 | No encoding that starts later in the text says the same |
| `MangledRoundTrip.CleanedMember` | src/parse/symbols/table.ts:74-79 | Of a printed member only an address prefix inside the member name is stripped |
| `MangledRoundTrip.MemberRoundTripIff` | src/parse/symbols/extc.ts:484-507 | Parsing a printed member recovers class, scope and parameters iff at most nine tokens, no `__ct__`/`__dt__` in the cleaned name, and no second marker in the encoding |
| `MangledRoundTrip.CtorRoundTripIff` | src/parse/symbols/extc.ts:509-516 | Parsing a printed constructor recovers it iff at most nine tokens and no further special prefix |
| `MangledRoundTrip.DtorRoundTripIff` | src/parse/symbols/extc.ts:518-525 | The same for destructors |
| `MangledRoundTrip.MemberPrintsLikeCtor` | src/parse/symbols/extc.ts:484-516 | A member named `__ct` or `__dt` prints exactly like the constructor or destructor |
| `MangledRoundTrip.MarkedClassIsNotRecovered` | src/parse/symbols/table.ts:204-261 | Class `a__5c`: the encoding reads as a second marker, and the name is not recovered |
| `MangledRoundTrip.TenTokensAreNotRecovered` | src/parse/symbols/table.ts:160-182 | Ten scope tokens are not recovered |
| `CanonicalNames.CanonicalSpecial` | src/parse/symbols/extc.ts:579-597 | For every constructor or destructor name without `@`, the canonical name says the same and its canonical target is null |
| `CanonicalNames.CanonicalMemberIff` | src/parse/symbols/extc.ts:579-597 | For every member name without `@`, the canonical name says the same iff its print holds no marker, which it never does when the name had parameters; then its canonical target is null |
| `CanonicalNames.MarkedTokenIsNotCanonical` | src/parse/symbols/extc.ts:579-597 | `Fv__6abc__5` has the canonical target `Fv__6abc__5Fv`, which says something else |
| `CanonicalNames.PrintIsQuiet` | src/parse/symbols/extc.ts:484-525 | Rewriting the length digits of what was read brings in neither a marker nor a special prefix |
| `WebSocketFrames.EncodeFrame` | src/server/api.ts:480-500 | The header buffer is filled for all three length forms |
| `WebSocketFrames.WriteBigEndian` | src/server/api.ts:491-498 | Exactly the bytes of the field are written, most significant first |
| `WebSocketFrames.Unmask` | src/server/api.ts:552-556 | Unmasking in place |
| `WebSocketFrames.ParseWsFrame` | src/server/api.ts:522-558 | The parser decides as the specification of the frame format does |
| `WebSocketRoundTrip.MaskedTwice` | src/server/api.ts:552-556 | Masking is an involution (section 5.3 of RFC 6455) |
| `WebSocketRoundTrip.RoundTrip` | src/server/api.ts:480-558 | Parsing a frame followed by anything gives the frame and consumes exactly it, masked or not, in all three length forms; above the bound it is refused |
| `WebSocketRoundTrip.ProperPrefixNeedsMore` | src/server/api.ts:526-548 | No proper prefix of a frame yields a frame; a length above the bound is refused as soon as its field is complete |
| `WebSocketRoundTrip.ParseStays` | src/server/api.ts:522-558 | Once something is decided, later bytes do not change it |
| `WebSocketRoundTrip.WaitingIsShort` | src/server/api.ts:526-548 | A buffer that waits for more is shorter than the largest frame |
| `WebSocketWire.MaskedBit` | src/server/api.ts:552-556 | Each bit of a masked byte is set iff it differs between the byte and its key byte, the place taken modulo four |
| `WebSocketWire.FrameBytes` | src/server/api.ts:480-500 | The bytes of a server's frame in all three length forms |
| `WebSocketWire.ClientFrameBytes` | src/server/api.ts:522-560 | The bytes of a client's frame: the mask bit, the key, the masked payload |
| `WebSocketWire.HelloIsRead` | src/server/api.ts:480-560 | The frames of the standard's own example (section 5.7 of RFC 6455) are encoded and read as there |
| `WebSocketStream.DrainGoesOn` | src/server/api.ts:682-706 | Bytes that arrive later leave the frames so far alone, and an open buffer goes on where it stopped |
| `WebSocketStream.ChunkingDoesNotMatter` | src/server/api.ts:672-707 | Any chunking under the cap gives the frames of the whole, in order, up to the first close frame; and the same state in all if at most an incomplete frame follows it |
| `WebSocketStream.ChunkingsAgree` | src/server/api.ts:672-707 | Two chunkings of the same bytes under the cap make the stream do the same, replies included, if at most an incomplete frame follows the close frame |
| `WebSocketStream.EveryChunkingAgreesIff` | src/server/api.ts:690-698 | For bytes that fit under the cap, all chunkings agree with one chunk iff at most an incomplete frame follows the close frame |
| `WebSocketStream.PingBehindClose` | src/server/api.ts:690-698 | A close frame and a ping: one chunk handles the close frame alone, two chunks the ping too |
| `WebSocketStream.SmallChunksStayUnderCap` | src/server/api.ts:677-681 | Two bytes at a time never fill the buffer beyond the cap, as long as the stream is not closed for another reason |
| `WebSocketStream.RefusedIffOverCap` | src/server/api.ts:677-681 | Bytes of whole frames within the bound, without a close frame, are refused iff some chunk fills the buffer beyond the cap |
| `WebSocketStream.SmallChunksAreRead` | src/server/api.ts:672-707 | Such bytes, of any length, are read in full when they arrive two at a time |
| `WebSocketStream.BurstIsRefusedIff` | src/server/api.ts:677-681 | A burst of empty pings in one chunk is refused iff it is longer than the cap, although one by one all are answered |
| `WebSocketWire.FrameIsAnswered` | src/server/api.ts:683-712 | A ping is answered with a pong of the same payload, a close frame with an empty one behind which sending ends, and any other frame with nothing |
| `WebSocketWire.LargeFrameIsRefused` | src/server/api.ts:683-745 | A frame that declares more than the bound is refused once its length has arrived, with a close frame of status 1008 while the sending side is open |
| `WebSocketStream.WsStream.OnData` | src/server/api.ts:672-707 | Appending a chunk, the cap, and the parse loop |
| `WebSocketStream.WsStream.TakeFrames` | src/server/api.ts:682-706 | The loop takes all frames up to a close frame, answering pings and the close |
| `WebSocketStream.WsStream.Handle` | src/server/api.ts:690-705 | A ping is answered with its payload, a close frame with a close frame |
| `WebSocketStream.WsStream.Terminate` | src/server/api.ts:729-745 | A protocol error closes the stream, with status 1008 if its sending side is still open |
| `RateLimiter.LaneStepKeeps` | src/agent/ratelimit.ts:90-115 | Joining, starting, waking and failing keep the permits of a model paced and its callers in order |
| `RateLimiter.EveryRunIsPaced` | src/agent/ratelimit.ts:90-115 | Over every run, whatever the clock reads, each permit keeps its interval from the one before and callers leave in the order they came |
| `RateLimiter.ModelsAreIndependent` | src/agent/ratelimit.ts:56-60 | What happens to a model is decided by its own events: one model never delays another |
| `RateLimiter.AcquireDecides` | src/agent/ratelimit.ts:90-94 | A request with a positive rpm joins the chain of its model for a minute divided by rpm; any other leaves no trace |
| `RateLimiter.PermitDecides` | src/agent/ratelimit.ts:106-115 | The head sleeps iff its window is not open, and gets its permit as soon as clock and window allow: no caller is held longer than the interval asks for |
| `RateLimiter.FailDecides` | src/agent/ratelimit.ts:94-103 | A rejected sleep takes everyone in the chain with it and leaves window and permits as they are |
| `RateLimiter.FirstPermit` | src/agent/ratelimit.ts:106-115 | The first caller of a model does not sleep |
| `RateLimiter.AtMostRpmPerMinute` | src/agent/ratelimit.ts:90-115 | Paced permits leave fewer than rpm + 1 of them in any half-open minute |
| `RateLimiter.EveryRunIsLimited` | src/agent/ratelimit.ts:90-115 | In every run, however many callers queue, any half-open minute holds fewer than rpm + 1 permits of a model capped at rpm |
| `RateLimiter.StaysPacedIff` | src/agent/ratelimit.ts:106-115 | Whatever comes next, and as long as releases are punctual (the last look at the clock agrees with the look before, or with the later window), the log keeps the intervals: iff it does so far and its last entry is not later than its permit |
| `RateLimiter.NextReleaseIff` | src/agent/ratelimit.ts:106-115 | The same for the next release of a waiting caller, over all punctual releases of the lane |
| `RateLimiter.PunctualLogIsPaced` | src/agent/ratelimit.ts:72-76 | So a run whose releases are all punctual leaves a paced log |
| `RateLimiter.LateEntryBreaksTheLog` | src/agent/ratelimit.ts:111-113 | At 60 per minute, a clock that moves by half a second between two looks leaves log entries half a second apart |
| `RateLimiter.RateLimiter.Acquire` | src/agent/ratelimit.ts:90-104 | Unlimited models resolve at once and leave no trace; others join the chain of their model alone |
| `RateLimiter.RateLimiter.StartPace` | src/agent/ratelimit.ts:106-115 | The head sleeps until the stored window, or goes on at once and is logged |
| `RateLimiter.RateLimiter.WakePace` | src/agent/ratelimit.ts:106-115 | The window opens at the later of the clock and the stored time, closes for one interval, and the release is logged |
| `RateLimiter.RateLimiter.FailPace` | src/agent/ratelimit.ts:94-103 | A rejected sleep rejects everyone chained behind it and leaves the window as it was |

## Left out

- SchedulerSafety.EveryRun: assumes that created run ids are new and that recovery lists each queued row once and comes before everything else, as the write queue sees to.
- Registry.PipelineEngine.RunPipeline: covers pipelines whose reachable fragments do not route back to themselves; with fragments that do, which registration refuses but keeps, a run need not end (`SelfRouteGoesRound`), and is not followed.
- EngineConservation.ScopeConserves: covers steps without `foreach.from`, without `StepCtx.run` and without transforms that replace `ctx.items`: these introduce or replace items on purpose.
- LineDiff.ForwardCell: works on unbounded integers; `StoredValuesFit` shows when the 32-bit cells agree with them.
- Lines.Splitlines: works on characters where the original works on UTF-16 units; every line break is one unit.
- EventStore.FinalizeWorkflowItem: a failure at whichever statement is one failure of the transaction; actors, reasons, times and event payloads are not modelled, and neither are `unsetStatus` and the status list.
- WebSocketStream.WsStream.Terminate: the timers of a stream, its poll loop and its output cap are not modelled; `sent` are the writes that the stream asks for, also once its sending side is ended.
- RateLimiter.EveryRunIsLimited: bounds permits; the moment at which a sleeping caller is resumed is the timer's, not the limiter's.
- CanonicalNames.CanonicalMemberIff: covers names without `@`; with one, `canonicalTargetFor` returns null at once. The sloppy form `__ct__Class` without a length, which `extractClassInfo` reads itself, is not modelled.
- Engine: model names, prompt texts, session contents, usage and budgets, logs, and `select` bindings.
- Triggers.TriggerEngine.RunPipeline: takes the units of all runs from a finite set; with new units in every run, a loop of triggers need not end. Work items are compared by value, not by identity.
- Worker pool: requests are identified by a number, not by object identity; the stderr tail; the SIGTERM and SIGKILL phases of close; timers, which a stale key makes harmless.
- Run scheduler: audit rows, emitted run events, specs, and the guard of `createRun` against a concurrent close, which leaves a queued row behind; the re-entrancy of `close`.
- Event store: reading events back, and payloads beyond whether they can be serialized.
- Transactions.OverlapIsFaithfulIff: covers two siblings whose callbacks only write, without transactions nested further and without writes of the enclosing callback between theirs.
- Transactions: SAVEPOINT outside a transaction, which SQLite turns into one; the adapter sends it only at a positive depth. A callback's queries decide between two continuations at a time.
- Symbol tables: `loadSymbols`, the classifier, the extern "C" scanner and the conversion plan around the mangler.
- Regex and tree-sitter lint rules, the Shift-JIS tables, the HTTP server, authentication, the CLI and the web UI: libraries, tables or plumbing without a deep property.
- Real SQLite, processes, sockets and timers.
