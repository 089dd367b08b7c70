# A verified model of the Helios run engine

Helios is a CI/CD server. This project models the parts of it that decide things: which stages of a
pipeline run and when, what a pipeline expression means as a syntax tree, how an approval moves a run,
which hosts of a batch are tried, and what a log line may show. Each part is modelled as the code writes
it, and what the code promises is proved for all inputs, runs and interleavings. `dafny verify
dfyconfig.toml` checks everything.

## How the model is laid out

**Pipeline engine.** `Dags` builds the graph from the stages, `Cycles` searches it for cycles, which
`Rotations` tells apart, and says which of them are reported; `Discovery` fixes the order of that search;
`Layers` sorts the graph, `Schedulers` is the state machine of one run with its `status` and `dispatched`
maps. `Conditions` says, on the `if` texts and the statuses of the needs, what a poll does to every stage
and which stages run. `Runs` is about whole runs of that machine: one recursive function over the graph
fixes every terminal status, so the order of completions does not matter, and a run never gets stuck.
`Rounds` ties the scheduler to the sorted layers. `Matrix`, `Choices` and `MatrixGraph` expand matrix
stages and compare the expanded graph with the original one. `Validator` is the check made before a run,
and its agreement with the engine.

**Ticks.** In production no scheduler lives long: every tick rebuilds one from the stored rows, uses it
once and stores what it dispatched (`Orchestrate`); `TickResults` says what that means for every row and
for the run. A skip is never stored, because the skipped stages are written before the scheduler looks
for them (`Orchestrate.NoNewSkips`). `Ticks` proves that this is harmless, over whole runs, when every
stage that can be skipped is listed before the stages that need it (`Runs.SkipOrdered`); listing needs
first is enough. `TickLiveness` proves, for each choice of outcomes, that some sequence of ticks and
completions ends the run exactly if no stage is listed before a need that these outcomes skip
(`FinishExactly`), and finds the stages that can be skipped while the run goes on: a rejected approval
ends the run through its own row, so it does not count (`CanSkipLiveExactly`).

`TickEvents` follows the histories in which only events cause ticks: completions and approvals do, pauses
and rejections do not. They all end, and where they end is fixed by the outcomes. `EventLiveness` says
exactly when they always end with the run done (`EventsFinishExactly`). Besides the order of the stages
two things can leave a run without an end: a timeout that pauses it, and two approvals that wait at the
same time. Votes are accepted only while the run has the status approval; the first approval sets it back
to running, and until another one is handed out nobody can vote on the second (`TwoApprovals`).

**Expression language.** `Lexer` specifies the tokens of a text by longest match and proves the lexer
against that. `Parser` has the class with the moving cursor and a functional account of each precedence
level, against which its methods are proved. `Grammar` is the documented grammar as concrete syntax
trees; the parser accepts exactly its token lists, so the grammar is unambiguous. `Precedence` is the
table of the parser's comment with its operators written out, and the parser reads exactly what that
gives; `Literals` does the same for the tokens. `Printing` prints a tree with parentheses only where the
table needs them; lexing and parsing give the tree back, nothing shorter does, and the trees that can be
printed are exactly those some text parses to.

**Approvals.** `RunStates` is the run's row with its two writers. `Approvals` has one vote, one timeout,
one push and one cancellation as a step on a run with one request; the run status that a transaction
wants pushed afterwards is a message in flight. `ApprovalRuns` covers every interleaving of these steps.
`ApprovalRaces` looks inside the vote: it locks the run's row but not the request's, so a timeout can
commit between the read and the save. There the request and the run can end up apart, and a request can
be decided twice; the model says exactly for which requests.

**Batches and masking.** `Batches` has serial and rolling execution, `Pools` the parallel form as
interleaved goroutines. `Maskers` is the line-buffered writer over any cutting of the stream and any
pattern of write errors. It says for which patterns of any table no text leaks, and that these are the
only ones when every other pattern has a character of its own.

`Pipelines`, `Sequences`, `Strings` and `Digraphs` hold what the others share.

## Where the code and its comments differ

- `api/pkg/engine/dag.go:106` says that every different cycle is reported once. The search reports one for
  each edge back into its stack, so of the cycles a, b, d and a, c, d of four stages, neither of which has
  a shortcut, it misses one (`Cycles.FourStagesMiss`). Every cycle is reported exactly when no two
  different ones are closed, in the order of discovery, by the same edge or have the same key
  (`Cycles.ReportsExactly`); disjoint cycles of ids without the character that separates them in a key are
  all reported (`Cycles.DisjointCyclesReported`).
- `api/pkg/engine/scheduler.go:60-75` suggests a loop that waits for a completion whenever a poll returns
  nothing. When a stage and a need of it that is listed later are both pending before the poll, and the
  poll leaves nothing handed out, that wait has nothing to wait for (`Runs.WaitingForNothing`). Among the
  polls that leave nothing handed out these are exactly the ones that do not end the run
  (`Runs.WaitingIsSafeExactly`). Listing needs that can be skipped first rules them out
  (`Runs.WaitingIsSafe`), though some pipelines do without (`Runs.OrderNotNeeded`), and polling again
  always gets on (`Runs.Progress`, `Runs.Drive`).
- `api/pkg/runengine/orchestrate.go:111-116` gives an approval whose request cannot be created the status
  failed. No tick follows, so if nothing else runs or waits a stage that needs it stays pending for good
  (`Orchestrate.BrokenApprovalStalls`, `Orchestrate.BrokenStallsExactly`).
- `api/pkg/runengine/orchestrate.go:175` is meant to store skips. On a scheduler that has just been
  restored it has nothing to store.
- `api/pkg/sshrunner/batch.go:25` says that execution stops when the allowed number of failures is
  exceeded. It stops when the number is reached, so 0 and 1 mean the same (`Batches.Threshold`); the
  comment is right for 0 only (`Batches.ExceedingExactly`).
- `api/pkg/approval/timeout.go:14` relies on the request's row being locked. The vote does not lock it
  (`api/internal/service/approval.go:230`), so the two can leave the request rejected and the run in
  timeout (`ApprovalRaces.TornVote`); for which requests is said exactly
  (`ApprovalRaces.RacesAgreeExactly`, `ApprovalRaces.DecidedOnceExactly`).
- `api/pkg/masker/masker.go:65` says that buffering by line keeps a secret from being missed when writes
  cut it. A secret with a newline inside is still missed, and one with a star at an edge, or with the mask
  inside, can be put together again by the replacement (`Maskers.SecretLeaksExactly`).

## Model

| member | source | states |
|---|---|---|
| Dags.BuildDAG | api/pkg/engine/dag.go:51-91 | the loops build the graph of the first stage with each non-empty id, with one edge for each listed need that names another stage, repeated needs included, and the rest listed as dangling |
| Dags.DagWellFormed | api/pkg/engine/dag.go:51-91 | every built graph has each node once in Order, no self edges, and In and Out lists that mention each other equally often |
| Dags.DagEdges | api/pkg/engine/dag.go:60-89 | two stages are joined exactly when the first stage of that id lists the other, different one |
| Dags.BuiltOrder | api/pkg/engine/dag.go:62-73 | Order lists the ids of the stages that have one, each once, in the order in which they come first |
| Dags.BuiltSays | api/pkg/engine/dag.go:62-91 | a node has the first stage with its id; its In list is that stage's needs, in order, without itself and without unknown ids; the unknown ones are dangling, in order |
| Dags.BuiltOuts | api/pkg/engine/dag.go:75-91 | the Out list of a node follows Order |
| Dags.FeedsReverseNeeds | api/pkg/engine/dag.go:51-91 | Out edges are the In edges reversed, so one direction has a cycle exactly when the other has |
| Cycles.DetectCycles | api/pkg/engine/dag.go:111-172 | the result is empty exactly when the graph is acyclic; every reported path is a closed walk along Out edges without repeated inner node, which begins at the node of it found first; no two reported paths are rotations of each other; the closing edge of every simple cycle closes one whose key is reported; and every simple cycle is itself reported, up to rotation, exactly when no two different ones have the same key or, in the order of discovery, the same closing edge |
| Cycles.ReportsExactly | api/pkg/engine/dag.go:106-172 | after a search every simple cycle is among the reports exactly when the search cannot confuse two different ones |
| Cycles.ClosingIsBack | api/pkg/engine/dag.go:129-164 | the edge that closes a cycle, into the node of it found first, is met as an edge back into the stack |
| Cycles.DisjointCyclesReported | api/pkg/engine/dag.go:106-110 | if no edge lies on two different simple cycles and no id contains the separator of the keys, every simple cycle is reported |
| Cycles.FourStagesMiss | api/pkg/engine/dag.go:106-110 | for four stages with two cycles that share an edge, neither with a shortcut, the search does not report every cycle |
| Cycles.CycleSearch.Dfs | api/pkg/engine/dag.go:129-164 | a search from a white node returns with the stack as it was, the node black, earlier colours unchanged, and the nodes found in depth-first order |
| Cycles.CycleSearch.SearchAll | api/pkg/engine/dag.go:166-171 | searching from every node in turn finds all nodes, in depth-first order from the roots |
| Discovery.PreorderSays | api/pkg/engine/dag.go:129-171 | the order of discovery outright: the next node is the least successor not found yet of the latest node that has one, and if none has, the least node not found yet |
| Rotations.CanonicalCycle | api/pkg/engine/dag.go:177-192 | the loop finds the rotation that starts at the least node |
| Rotations.CanonicalExactly | api/pkg/engine/dag.go:177-192 | two simple paths have the same canonical form exactly when one is a rotation of the other |
| Rotations.KeyTells | api/pkg/engine/dag.go:153-157 | cycles with the same key are rotations of each other, if no id contains the separator |
| Strings.LessSays | api/pkg/engine/dag.go:166-171 | the order of the names: at the first place where two differ the smaller character, or the end of the string, comes first |
| Cycles.SuffixCycle | api/pkg/engine/dag.go:138-152 | a grey hit closes the stack from that node on into a simple cycle |
| Layers.TopologicalSort | api/pkg/engine/dag.go:202-260 | "incomplete" never happens; a cycle is returned exactly for cyclic graphs and is one; otherwise layer k lists, in Order order, exactly the nodes whose longest path of needs has k edges, and every node has a layer |
| Layers.Peel | api/pkg/engine/dag.go:219-255 | each round of the loop finds exactly the next depth, repeated needs counted |
| Digraphs.LongestWalk | api/pkg/engine/dag.go:194-245 | the depth used for layers is the length of a longest walk: no walk is longer and one is as long |
| Schedulers.Scheduler.ComputeReadyOrSkip | api/pkg/engine/scheduler.go:161-222 | a node with an unfinished need stays pending; otherwise, said on the `if` text and the statuses of the needs, it is ready or skipped: with "failure()" a need must have failed and, without "always()", none be canceled; with "always()" alone it is ready; with neither text all needs must have succeeded |
| Conditions.DecideSays | api/pkg/engine/scheduler.go:161-222 | the decision as the table of the two texts and the statuses of the needs has it, case by case |
| Conditions.PollSays | api/pkg/engine/scheduler.go:125-222 | one poll, for every node: it is handed out exactly if it is pending, its needs are all final when the poll comes to it and the texts let it run, and then waits if its kind is approval and runs otherwise; it is skipped exactly if they do not let it run; else it stays as it was; the needs listed before it are met with their new status |
| Conditions.PollLists | api/pkg/engine/scheduler.go:125-157 | the ready list is in the order of Order, each node once |
| Conditions.StagesRun | api/pkg/engine/scheduler.go:161-222 | in a run that is over exactly the stages have run that the final statuses of their needs let run by their text |
| Conditions.FinalSays | api/pkg/engine/scheduler.go:161-222 | so the final status of a stage is its outcome or a skip, in terms of its needs' final statuses and its text |
| Strings.ContainsSays | api/pkg/engine/scheduler.go:170-203 | a text contains another one exactly if it is that one with something before and after |
| Schedulers.Scheduler.NextReady | api/pkg/engine/scheduler.go:125-157 | one call is a sweep over Order in which each decision sees the earlier ones; it returns what it dispatched, in order |
| Schedulers.Scheduler.Complete | api/pkg/engine/scheduler.go:229-247 | an unknown node, a final node and a result other than success, failed and canceled are errors, in this order, that change nothing; otherwise the node has the result and is not dispatched any more |
| Schedulers.Scheduler.CancelAll | api/pkg/engine/scheduler.go:250-259 | every node that is not final becomes canceled and is not dispatched any more, and the others stay, so the run is done |
| Schedulers.Scheduler.Done | api/pkg/engine/scheduler.go:262-271 | true exactly when every status is final |
| Schedulers.Scheduler.Outcome | api/pkg/engine/scheduler.go:275-300 | failed exactly if some status is failed, otherwise canceled exactly if some is canceled, otherwise skipped exactly if a single stage is all there is and it is skipped, otherwise success |
| Schedulers.Scheduler.RestoreFromDB | api/pkg/engine/scheduler.go:306-340 | stored statuses replace the known nodes' ones, and exactly running and waiting nodes count as dispatched |
| Schedulers.RestoredSays | api/pkg/engine/scheduler.go:306-340 | the status for each stored text, anything unknown being pending; running and approval count as dispatched |
| Runs.StepCoherent | api/pkg/engine/scheduler.go:125-247 | every call keeps dispatched equal to running and waiting, keeps a reason for every status, and never changes a final status |
| Runs.TerminalIsFinal | api/pkg/engine/scheduler.go:125-247 | in every coherent state a final status equals one recursive function over the graph and the outcomes |
| Runs.Confluence | api/pkg/engine/scheduler.go:125-300 | two runs with the same outcomes agree on every status final in both, and finished runs have the same status map and Outcome, whatever the order of polls and completions |
| Runs.SweepSettles | api/pkg/engine/scheduler.go:125-157 | one call decides every pending node whose needs are all final |
| Runs.SweepExhausts | api/pkg/engine/scheduler.go:125-157 | if Order lists needs that can be skipped before the stages that need them, after one call no pending node has all its needs final |
| Runs.Progress | api/pkg/engine/scheduler.go:125-271 | on an acyclic graph, with nothing running or waiting and Done false, a call dispatches or skips some node, and the remaining work shrinks |
| Runs.Completes | api/pkg/engine/scheduler.go:125-271 | every reachable state can be driven to the end for every choice of outcomes |
| Runs.WaitingIsSafe | api/pkg/engine/scheduler.go:60-75 | with that order, after every poll something is handed out or the run is over, so the caller's loop never waits for nothing |
| Runs.WaitingIsSafeExactly | api/pkg/engine/scheduler.go:60-75 | for any order: after a poll that leaves nothing handed out the run is over exactly if before it no stage was pending together with a need listed later |
| Runs.OrderNotNeeded | api/pkg/engine/scheduler.go:60-75 | the order is not needed by every pipeline: three stages that break it, and never leave the caller's loop waiting for nothing |
| Runs.WaitingForNothing | api/pkg/engine/scheduler.go:60-75 | without that order a first poll can return nothing, with nothing handed out and the run not over |
| Runs.Drive | api/pkg/engine/scheduler.go:60-75 | the caller's loop, polling again instead of waiting when nothing is handed out, ends for every order of completions with the status map that the recursive function gives |
| Rounds.RoundsAreLayers | api/pkg/engine/dag.go:223-245 | without conditions and with every stage succeeding, the k-th call to NextReady returns layer k, as a sequence |
| Orchestrate.StageTable.Advance | api/pkg/runengine/orchestrate.go:37-148 | one tick on the stored rows: what it stores, what it dispatches, what waits, whether the run is done, its outcome, and what it does to the run's row: the final status, or the error if the run cannot take it, or the status approval; for a terminal run nothing but its status as the outcome |
| TickResults.RowSays | api/pkg/runengine/orchestrate.go:67-133 | every row after a tick: a stage handed out is running, or waits for its approval, or has failed if the request cannot be created or the run cannot take the status approval; a decided approval is success or failed; all other rows stay |
| TickResults.ReadySays | api/pkg/runengine/orchestrate.go:67-103 | a tick hands out exactly the stages stored as pending whose needs are all final and let them run by their text |
| TickResults.PolledSays | api/pkg/runengine/orchestrate.go:67-173 | the statuses that a tick starts from: the stored ones, with success or failed for a waiting approval that has been decided |
| TickResults.ResultSays | api/pkg/runengine/orchestrate.go:103-148 | the returned lists: of the stages handed out the approvals with a request wait, and all that are no approvals are dispatched |
| TickResults.ResultInOrder | api/pkg/runengine/orchestrate.go:103-148 | both lists are in the order of the stages |
| TickResults.RunSays | api/pkg/runengine/orchestrate.go:135-204 | a tick is done or fails exactly if every stage is final after it; the run has then failed if some row has, otherwise is canceled if some row is, otherwise has succeeded; it is an error, and changes nothing, exactly if the run's status does not allow that; before that the run takes the status approval exactly if something waits |
| Conditions.TicksRun | api/pkg/runengine/orchestrate.go:67-257 | in a run that a tick finds done a stage has its outcome if its needs let it run by its text, and is skipped if not |
| Orchestrate.StageTable.SyncApprovalStages | api/pkg/runengine/orchestrate.go:150-173 | decided approvals reach the row and the scheduler alike |
| Orchestrate.StageTable.MarkSkippedStages | api/pkg/runengine/orchestrate.go:175-187 | exactly the rows loaded as pending whose node is skipped are stored as skipped, and the others stay |
| Orchestrate.StageTable.Dispatch | api/pkg/runengine/orchestrate.go:103-133 | ready approval stages are stored as waiting and the others as running, each list in order; an approval whose request cannot be created, or whose run cannot take the status approval, is failed in the row and in the scheduler; otherwise the run takes that status |
| Orchestrate.StageTable.FinalizeRun | api/pkg/runengine/orchestrate.go:189-204 | the run is asked to take the status for the outcome of its stages |
| Orchestrate.BrokenTickIsEvents | api/pkg/runengine/orchestrate.go:103-133 | a tick in which approvals break leaves the rows of one in which none does, followed by their breaking, so the theorems about events cover it |
| Orchestrate.StageTable.OnStageComplete | api/pkg/runengine/orchestrate.go:207-257 | the row becomes success or failed and a tick follows on the new rows; an unknown stage changes nothing |
| Orchestrate.StageDoneSays | api/pkg/runengine/orchestrate.go:207-230 | the completion event of the theorems about histories stores success or failed |
| Orchestrate.NothingBroken | api/pkg/runengine/orchestrate.go:103-133 | when every request can be created a tick is the one that the theorems about ticks speak of |
| Orchestrate.BrokenStallsExactly | api/pkg/runengine/orchestrate.go:103-148 | after any possible events, earlier broken approvals included, a tick that leaves nothing running or waiting has found the run done exactly if no stage needs an approval whose request it could not create |
| Orchestrate.BrokenApprovalStalls | api/pkg/runengine/orchestrate.go:103-148 | two stages where the first tick leaves the run unfinished with nothing running or waiting |
| Orchestrate.NoNewSkips | api/pkg/runengine/orchestrate.go:87-103 | where the tick stores skips there is never one to store |
| Ticks.RowRoundTrip | api/pkg/engine/scheduler.go:306-340 | storing and restoring gives every status back, except that a skip comes back as pending |
| Runs.NeedsFirstSkipOrdered | api/pkg/runengine/orchestrate.go:67-133 | listing needs first is enough for the condition of the refinement |
| Runs.NeverSkips | api/pkg/engine/scheduler.go:161-222 | a stage outside CanSkip is never skipped, whatever its needs become |
| Ticks.PollAgrees | api/pkg/engine/scheduler.go:306-340 | in every coherent state, if the poll leaves no need skipped that is listed after a stage needing it, a scheduler rebuilt from the stored statuses returns the same ready list and reaches the same statuses as the one kept in memory |
| Ticks.TickAgrees | api/pkg/runengine/orchestrate.go:67-133 | under the same condition a whole tick, with approvals decided meanwhile, agrees with the long-lived scheduler in what it dispatches, in its statuses and in the rows it stores |
| Ticks.TicksRefine | api/pkg/runengine/orchestrate.go:67-257 | over every sequence of ticks and completions from the start, the stored rows are those of the long-lived scheduler and the next tick does what its next call does |
| TickLiveness.FinishedIsFinal | api/pkg/runengine/orchestrate.go:87-133 | a tick that finds the run done has the statuses of the recursive function, in any listing order |
| TickLiveness.TickStuck | api/pkg/runengine/orchestrate.go:87-133 | a pending stage listed before a need that is going to be skipped stays pending in a tick |
| TickLiveness.NeverFinishes | api/pkg/runengine/orchestrate.go:87-133 | with such a stage and such outcomes no sequence of ticks and completions ends the run |
| TickLiveness.FinishExactly | api/pkg/runengine/orchestrate.go:67-257 | on an acyclic graph, for each choice of outcomes, some sequence of ticks and completions ends the run exactly when no stage is listed before a need that these outcomes skip |
| TickLiveness.CanSkipLiveExactly | api/pkg/engine/scheduler.go:161-222 | the recursive condition on a stage, its needs and their conditions holds exactly when some outcomes in which every approval succeeds, but for the given ones, skip it |
| TickLiveness.SkipOrderedLive | api/pkg/runengine/orchestrate.go:67-133 | listing the needs that can be skipped while the run goes on first is no more than SkipOrdered asks, and the same if every approval can fail |
| TickLiveness.TicksFinishExactly | api/pkg/runengine/orchestrate.go:67-257 | on an acyclic graph, for all outcomes with which the run goes on some sequence of ticks and completions ends it, exactly when needs that can be skipped then are listed first |
| TickEvents.TickNeverStalls | api/pkg/runengine/orchestrate.go:87-148 | with SkipOrdered, after any possible sequence of ticks, completions and broken approvals, a tick leaves nothing running or waiting exactly when it finds the run done |
| TickEvents.HistoriesEnd | api/pkg/runengine/orchestrate.go:206-257 | when ticks follow completions and approvals only, a history has at most as many events as there are stages |
| TickEvents.HistoryOutcome | api/pkg/runengine/orchestrate.go:87-257 | in such a history, with outcomes that skip no need listed late, nothing runs or waits exactly when the last tick found the run done, and then the statuses are those of the recursive function |
| TickEvents.HistoryStops | api/pkg/runengine/dispatch.go:47-60 | with the order for live runs, a history that no rejection has ended and that cannot go on has ended the run, unless an approval waits that has been paused or that nobody can vote on |
| EventLiveness.WaitingApart | api/pkg/engine/scheduler.go:125-247 | two approvals that wait at the same time do not need each other, not even through other stages |
| EventLiveness.StrandedBeside | api/internal/service/approval.go:226-228 | an approval that waits while votes are refused was waiting when another one, which it does not need, was approved |
| EventLiveness.EventsFinishExactly | api/pkg/runengine/dispatch.go:47-60 | on an acyclic graph, every history without rejection that cannot go on has ended the run, if and only if needs that can be skipped while approvals succeed are listed first, no approval with a pausing timer is ever handed out, and of two approvals handed out with the same outcomes, neither needing the other, both have a timer that approves |
| EventLiveness.RejectionsDoNotCount | api/internal/service/approval.go:315-337 | three stages in an order that SkipOrdered refuses, where only a rejection could skip the late need: the order is enough for live runs |
| EventLiveness.TwoApprovals | api/internal/service/approval.go:226-228 | two approvals without needs and without timers can leave the run without an end |
| EventLiveness.FinalizeSucceeds | api/pkg/runengine/orchestrate.go:189-204 | whenever a tick finds the run done in such a history, the run's status allows the final one |
| Validator.ValidateCross | api/pkg/dsl/validator.go:181-221 | every repeated id with its first use, unknown need and self need is reported, and nothing else; so nothing is reported exactly when ids are unique and every need names another, existing stage |
| Validator.ValidateDAG | api/pkg/dsl/validator.go:330-410 | for every order of the roots, nothing is reported exactly when the graph of needs is acyclic, although each search stops at its first cycle and leaves its stack behind; the first report is a cycle of that graph |
| Validator.NeedsOfMembers | api/pkg/dsl/validator.go:338-352 | the edges of that graph: what any stage with the id lists, itself included, if some stage has that id |
| Validator.ValidatorAgrees | api/pkg/dsl/validator.go:330-410 | for unique ids, the validator is silent exactly when no stage needs itself and the engine's graph, searched in the other direction, is acyclic |
| Validator.AcceptedIsAcyclic | api/pkg/dsl/validator.go:330-410 | even with repeated ids, a silent validator means the engine finds no cycle |
| Validator.DuplicateIDsDisagree | api/pkg/dsl/validator.go:344-358 | with a repeated id the validator can report a cycle that the engine's graph does not have |
| Validator.AcceptedPipeline | api/pkg/dsl/validator.go:181-410 | a pipeline that passes both checks gives an acyclic graph in which every listed need is an edge |
| Matrix.Cartesian | api/pkg/engine/matrix.go:113-147 | the product over the sorted keys that are not internal, an error exactly for an empty dimension, and no combination without any dimension |
| Matrix.ProductSize | api/pkg/engine/matrix.go:113-147 | there are as many combinations as the product of the dimension sizes |
| Matrix.ProductDigits | api/pkg/engine/matrix.go:128-145 | combination i takes in each dimension the value at the mixed-radix digit of i |
| Matrix.NumberOfDigits | api/pkg/engine/matrix.go:128-145 | the digits determine i, so no choice of values is missing or listed twice |
| Matrix.SubsetEq | api/pkg/engine/matrix.go:159-169 | an exclude matches when it is not empty and every key of it has an equal value, by value or by text |
| Matrix.Filtered | api/pkg/engine/matrix.go:60-72 | the in-place filter keeps exactly the combinations no exclude matches, in order |
| Matrix.ExpandMatrix | api/pkg/engine/matrix.go:44-110 | a stage without a matrix stays as it is; otherwise instance i is a copy of the stage with `-i` after its id, i and its combination in `with`, and one value in every dimension of its matrix; the combinations are those of the product that no exclude matches, in the order of their positions, then the includes in theirs; an error exactly if a dimension is empty, or if nothing remains and there is no include |
| Matrix.HitSays | api/pkg/engine/matrix.go:150-180 | what an exclude matches, written out: it is not empty, and has only keys that the combination has with the same value or the same text |
| Choices.EveryChoiceOnce | api/pkg/engine/matrix.go:44-147 | the instances of the product carry exactly the choices of one value for every dimension that no exclude matches, and each only once if no dimension repeats a value |
| Choices.NoExcludeDigits | api/pkg/engine/matrix.go:113-147 | without exclude instance i carries the values that the mixed-radix digits of i select, the last key varying fastest |
| Matrix.SuffixInjective | api/pkg/engine/matrix.go:192-194 | an instance id determines its stage and its index |
| MatrixGraph.ExpandPipeline | api/pkg/engine/matrix.go:208-261 | an error exactly when some stage cannot be expanded; otherwise all instances in order, with needs rewritten |
| MatrixGraph.RewireNeeds | api/pkg/engine/matrix.go:236-256 | a need becomes the instances of the stage it names, or stays when it names none; the result has each of these ids once, in the order in which they come first |
| MatrixGraph.ExpansionSays | api/pkg/engine/matrix.go:213-227 | the ids that a stage's id stands for are those of its instances, in order; of several stages with one id the last counts |
| MatrixGraph.OutputAt | api/pkg/engine/matrix.go:213-261 | where an instance is in the expanded pipeline |
| MatrixGraph.ExpandedEdges | api/pkg/engine/matrix.go:208-261 | two instances are joined exactly when their stages are |
| MatrixGraph.CyclesPreserved | api/pkg/engine/matrix.go:208-261 | the expanded graph has a cycle exactly when the original has one |
| MatrixGraph.LayersPreserved | api/pkg/engine/matrix.go:208-261 | every instance is in the layer of its stage |
| MatrixGraph.CollisionsExactly | api/pkg/engine/matrix.go:192-261 | expanded ids are unique exactly when no stage without a matrix is literally called like an instance of another |
| Lexer.Tokenize | api/pkg/expr/lexer.go:65-151 | the loops find exactly the tokens of the longest-match specification, or fail when it has none |
| Lexer.NumberEnd | api/pkg/expr/lexer.go:73-84 | a number is the longest run of digits with at most one point |
| Lexer.WordEnd | api/pkg/expr/lexer.go:103-113 | an identifier is the longest run of identifier characters |
| Lexer.QuoteEnd | api/pkg/expr/lexer.go:92-102 | a string ends at the next quote of the same kind, or the text has no token there |
| Lexer.OperatorLongest | api/pkg/expr/lexer.go:125-144 | when an operator has two characters, when one, and when a lone & or vertical bar is an error |
| Lexer.TextLexesBack | api/pkg/expr/lexer.go:65-151 | tokens printed with spaces between them are read back as they were |
| Lexer.LexIsSound | api/pkg/expr/lexer.go:65-151 | every token that comes out can be printed: no reserved word as a name, no string with both quotes, no number beyond float64 |
| Literals.OperatorsSay | api/pkg/expr/lexer.go:125-144 | the list of all operators and brackets |
| Literals.OperatorReads | api/pkg/expr/lexer.go:125-144 | each of them on its own is one token |
| Literals.WordReads | api/pkg/expr/lexer.go:103-124 | a word of letters, digits, _ and - is a name, except for true, false and null |
| Literals.StringReads | api/pkg/expr/lexer.go:92-102 | a text between two quotes of the same kind is that string |
| Literals.NumberReads | api/pkg/expr/lexer.go:73-91 | decimal digits, with a fraction or without, are a number exactly if it is below 2^1024 - 2^970, where float64 overflows |
| Parser.Parser.ParseTernary | api/pkg/expr/parser.go:86-107 | reads what the functional account of level 0 reads and leaves the cursor there; never moves past EOF |
| Parser.Parser.ParseBinary | api/pkg/expr/parser.go:109-218 | the six left-associative levels: the loop reads what the functional account reads and leaves the cursor there; which operators are in which row is said by Precedence.ParserMeetsTable |
| Parser.Parser.ParseUnary | api/pkg/expr/parser.go:220-231 | the same for prefix operators |
| Parser.Parser.ParsePostfix | api/pkg/expr/parser.go:234-294 | the same for member access, subscripts and calls |
| Parser.Parser.ParseArguments | api/pkg/expr/parser.go:268-285 | the argument loop reads a list closed by a parenthesis, without a trailing comma |
| Parser.Parser.ParsePrimary | api/pkg/expr/parser.go:296-328 | the same for literals, identifiers and parentheses |
| Parser.Parser.Eat | api/pkg/expr/parser.go:58 | the cursor advances by one and is only ever moved before EOF |
| Parser.Parse | api/pkg/expr/parser.go:28-48 | a tree exactly when the text lexes and level 0 reads all of its tokens |
| Grammar.ExpressionSound | api/pkg/expr/parser.go:86-328 | whatever a level reads is derived by the grammar at that level, with that tree and exactly the tokens consumed |
| Grammar.Complete | api/pkg/expr/parser.go:86-328 | every phrase of the grammar is read with its tree, whatever follows that cannot continue it |
| Grammar.ParserMeetsGrammar | api/pkg/expr/parser.go:3-16 | the parser reads a token list as a tree exactly when the documented grammar derives it |
| Grammar.Unambiguous | api/pkg/expr/parser.go:3-16 | a token list has at most one tree |
| Precedence.ParserMeetsTable | api/pkg/expr/parser.go:3-16 | the parser reads a token list as a tree exactly when the precedence table, with its operators written out, gives the list that tree |
| Precedence.AcceptsTable | api/pkg/expr/parser.go:28-48 | a text parses to a tree exactly when the table gives its tokens that tree |
| Precedence.TwoOperators | api/pkg/expr/parser.go:109-218 | in a text with two binary operators the second one takes the middle operand exactly if it is in a later row |
| Precedence.PrefixBindsTighter | api/pkg/expr/parser.go:220-231 | a prefix operator takes its operand before any binary operator does |
| Precedence.ChoiceBindsLooser | api/pkg/expr/parser.go:86-107 | the operands of `? :` extend over all binary operators |
| Precedence.OnlyTheseOperators | api/pkg/expr/parser.go:109-231 | no other text is a binary or a prefix operator |
| Printing.RoundTrip | api/pkg/expr/parser.go:28-328 | printing a tree with the fewest parentheses, then Tokenize and Parse, gives the same tree |
| Printing.ParserRange | api/pkg/expr/parser.go:28-340 | the trees that some text parses to are exactly the printable ones; a call's name may lack its first identifier, as in null.b(x) |
| Printing.FlattenedIsCallName | api/pkg/expr/parser.go:330-339 | the flattened name of a callable tree is never empty and is a chain of names, the first of which may be missing |
| Printing.PrintIsShortest | api/pkg/expr/parser.go:3-16 | no text with the same tree has fewer tokens than the printed one |
| RunStates.RunRow.Transition | api/pkg/runstate/runstate.go:138-250 | exactly the listed changes, and a change to the same status, go through; a terminal run refuses any other status with its own error; a change sets the status, the start time when the run first runs, the end time when it ends, and one audit entry; everything else changes nothing |
| RunStates.RunRow.RepoMarkRunning | api/pkg/runrepo/runrepo.go:39-51 | a pending run becomes running and gets its start time; any other run stays, and there is no audit entry |
| RunStates.RunRow.RepoMarkFailed | api/pkg/runrepo/runrepo.go:55-70 | a pending or running run becomes failed and gets its end time; any other run stays, and there is no audit entry |
| RunStates.WrittenStamped | api/pkg/runstate/runstate.go:84-250 | every write by either writer keeps the meaning of the time stamps, never leaves a terminal status, and follows the transition matrix except for the repository's pending to failed |
| RunStates.HistoryStamped | api/pkg/runstate/runstate.go:84-250 | in every history finished_at is set exactly in terminal states, and started_at in running, approval, success and timeout |
| RunStates.HistoryFreezes | api/pkg/runrepo/runrepo.go:39-70 | after any history a terminal row is frozen and a start time stays, whatever both writers do next |
| RunStates.AuditReplays | api/pkg/runstate/runstate.go:223-243 | with the state machine as the only writer the audit log is a path of the transition matrix from pending to the current status |
| RunStates.AuditCounts | api/pkg/runrepo/runrepo.go:39-70 | with both writers the log lacks exactly the repository's changes |
| Approvals.Service.Vote | api/internal/service/approval.go:203-346 | an empty name, a run that does not wait, a decided request, a name that the list does not have, and a second vote are errors, in this order, that change nothing; otherwise the vote is stored, a reject rejects and pushes failed, an approval approves and pushes running in mode any or when there are as many approvals as listed names, and else the request waits on |
| Approvals.Service.CheckApprover | api/internal/service/approval.go:390-397 | true exactly when the list has the name or "*" |
| Approvals.Service.HandleTimeout | api/pkg/approval/timeout.go:62-194 | said on the text of on_timeout: nothing for a decided request or a timer more than a second early; "reject" and the empty text time the request out and push timeout, "approve" stores the vote of system, approves and pushes running, "pause" times it out and pushes nothing, any other text is an error, and so is "approve" when system has voted |
| Approvals.Service.Expire | api/pkg/approval/timeout.go:62-194 | the timer with its push, in a run that waits: "approve" leaves the request approved and the run running, "reject" and the empty text the request timed out and the run in timeout, "pause" the request timed out and the run waiting; an error or an early timer changes neither |
| Approvals.Service.Deliver | api/internal/service/approval.go:315-339 | a push is a transition of the run's row in its own transaction, whose error changes nothing |
| Approvals.Service.Cancel | api/pkg/runstate/runstate.go:272-275 | cancellation is a transition of the run's row |
| ApprovalRuns.Agreement | api/internal/service/approval.go:203-346 | in every interleaving of votes, timeout, cancellations and pushes at most one push is in flight; with none, the run is as the request says (approved running, rejected failed, timed out timeout, paused approval), unless it was canceled, which needs a cancel step |
| ApprovalRuns.Settles | api/internal/service/approval.go:315-339 | delivering the push that is in flight brings the run to where the request wants it, unless it was canceled |
| ApprovalRuns.DecidedOnce | api/pkg/approval/timeout.go:95-101 | the request leaves pending at most once, and then its row, votes and log are final; a terminal run never changes |
| ApprovalRuns.WaitingVotes | api/internal/service/approval.go:260-290 | a pending request holds no reject vote, and in mode any no vote |
| ApprovalRuns.Unanimity | api/internal/service/approval.go:269-280 | in mode all with distinct names and no "*", votes approve exactly when every listed approver has approved, and reject exactly when somebody rejected |
| ApprovalRuns.AttainableExactly | api/internal/service/approval.go:269-280 | some votes approve a request exactly when its list allows it; in mode all a list with a repeated name never can be approved by votes |
| ApprovalRaces.OrderlyIsAtomic | api/internal/service/approval.go:216-310 | as long as no timeout lands inside an open vote, a play with votes split into read and save is a run of atomic steps |
| ApprovalRaces.OrderlyAgrees | api/internal/service/approval.go:216-310 | so the request and the run then agree |
| ApprovalRaces.TornVote | api/pkg/approval/timeout.go:82-187 | with on_timeout reject and a deadline, a rejecting vote overtaken by the timeout can leave the request rejected and the run in timeout |
| ApprovalRaces.RacesAgreeExactly | api/internal/service/approval.go:216-339 | the request and the run agree at the end of every play exactly when on_timeout is not reject, or there is no deadline, or nobody can vote |
| ApprovalRaces.DecidedWhenClosed | api/internal/service/approval.go:216-310 | a request that is decided while no vote is open keeps its row, votes and log in every play |
| ApprovalRaces.DecidedOnceExactly | api/internal/service/approval.go:216-310 | every decision is final in all plays exactly when nobody can have a vote open at the timeout and save it after: no deadline, an unknown policy, no voter, or, where the timeout approves, only the name system |
| Batches.NewBatchExecutor | api/pkg/sshrunner/batch.go:45-53 | positive values and the other options are kept; a batch size that is not positive becomes 1, such a concurrency 5 |
| Batches.Threshold | api/pkg/sshrunner/batch.go:168-173 | the threshold is the larger of 1 and MaxFailures, and execution stops exactly when the failures reach it |
| Batches.ExceedingExactly | api/pkg/sshrunner/batch.go:25 | execution stops exactly when the failures exceed MaxFailures, if and only if MaxFailures is 0 |
| Batches.RunSerial | api/pkg/sshrunner/batch.go:67-83 | the hosts up to the first stop ran, in their slots, and all others are marked stopped |
| Batches.RunRolling | api/pkg/sshrunner/batch.go:123-166 | whole batches ran up to the first one that reaches the threshold, and all later hosts are marked stopped |
| Batches.RunBatch | api/pkg/sshrunner/batch.go:135-151 | however the goroutines of a batch interleave, its slots hold its results and the counter its failures |
| Batches.RollBound | api/pkg/sshrunner/batch.go:123-166 | rolling execution has at most T - 1 + BatchSize failures and stops early only at the threshold |
| Batches.RollAligned | api/pkg/sshrunner/batch.go:123-166 | rolling stops after whole batches only |
| Batches.FailSetCounts | api/pkg/sshrunner/batch.go:145-151 | the failures counted are the number of hosts with an error |
| Batches.RollOvershoot | api/pkg/sshrunner/batch.go:123-166 | rolling runs every host that serial execution runs, and fewer than one batch more |
| Pools.RunParallel | api/pkg/sshrunner/batch.go:85-121 | for every choice of who moves next: the hosts that have run have their own result in their slots and the others the text of a stop, which happens only at the threshold; the returned number is that of the failed ones among them, and at most T - 1 + MaxConcurrency |
| Pools.MoveBounded | api/pkg/sshrunner/batch.go:95-117 | every move keeps the holders of the semaphore, and the failures counted or still possible, within bounds, and brings the end nearer |
| Pools.ParallelBound | api/pkg/sshrunner/batch.go:85-121 | at every moment at most MaxConcurrency tasks run, and at most T - 1 + MaxConcurrency run or have failed, whether counted yet or not |
| Pools.BoundReached | api/pkg/sshrunner/batch.go:85-121 | the bound is exact: with enough failing hosts some complete interleaving has that many failures |
| Pools.WrittenOnce | api/pkg/sshrunner/batch.go:100-110 | a slot that has been written is never written again |
| Pools.SomeoneMoves | api/pkg/sshrunner/batch.go:93-119 | no deadlock: while a goroutine is left one of them can move |
| Pools.NothingStops | api/pkg/sshrunner/batch.go:100-105 | with fewer failing hosts than the threshold every interleaving runs every host, so the results do not depend on the order |
| Pools.Run | api/pkg/sshrunner/batch.go:56-65 | the defaults, then the strategy's promise, in the parallel case with the bound on the failures |
| Maskers.Writer.Write | api/pkg/masker/masker.go:79-96 | complete lines move, masked, to the sink and nothing else does; after an error the failed line is still buffered |
| Maskers.Writer.Flush | api/pkg/masker/masker.go:99-107 | the rest is masked and passed on, or lost on an error |
| Maskers.MaskSays | api/pkg/masker/masker.go:51-56 | at the first place where patterns of the table occur the first of them in table order becomes three stars, and masking goes on behind it |
| Maskers.MaskNothing | api/pkg/masker/masker.go:51-56 | a text in which no pattern occurs stays as it is |
| Maskers.MaskWhole | api/pkg/masker/masker.go:79-96 | complete lines are masked on their own, whatever follows them |
| Maskers.ChunkIndependence | api/pkg/masker/masker.go:64-107 | for every cutting of the stream into writes, also with writes that failed in between, the sink has the line-by-line masking of the whole stream after Flush |
| Maskers.CleanNeverLeaks | api/pkg/masker/masker.go:50-55 | for every table, a pattern of it with no newline inside, no star at an edge and no mask in it occurs nowhere in the output, not even across line or replacement borders |
| Maskers.LeaksExactly | api/pkg/masker/masker.go:50-55 | a pattern of a table in which every other pattern has a character that it has not: some text lets it through exactly when it is not of that kind |
| Maskers.ShelteredNeverLeaks | api/pkg/masker/masker.go:50-55 | a pattern that contains a pattern of that kind never gets through either |
| Maskers.SecretLeaksExactly | api/pkg/masker/masker.go:115-144 | the table built from one secret, whose encoded forms use a character that it has not: some text lets the secret through exactly when it is not of that kind |
| Maskers.BuildPairs | api/pkg/masker/masker.go:115-144 | the pairs are the table of forms, in order, each with the mask |
| Maskers.TableMembers | api/pkg/masker/masker.go:115-144 | the table has, each once, exactly the trimmed secrets, their base64 and their escaped forms that have four characters or more |
| Maskers.TableFirsts | api/pkg/masker/masker.go:115-144 | their order: secret by secret, trimmed, in base64, escaped, each where it comes first |
| Maskers.SecretsStay | api/pkg/masker/masker.go:79-144 | so no such form of any secret reaches the sink, however the stream was cut |

## Left out

- Two ticks of one run at the same time, retries of a stage, and an enqueue that fails inside a tick: a tick is one step and a dispatched stage is completed once.
- Pointers and shared storage between expanded stages: stages are values, so sharing of their lists and maps is not modelled.
- A scalar given where a matrix list is expected, and YAML and its positions: the model starts from a pipeline value with lists.
- Lexer.WordEnd: identifier characters are those of ASCII.
- Orchestrate.StageTable.Dispatch: why CreateApproval fails (a timeout that does not parse, the database) is a parameter, but for the transition of the run.
- EventLiveness.EventsFinishExactly: every request can be created (otherwise see Orchestrate.BrokenStallsExactly), somebody votes as long as votes are accepted, the push of a decision arrives before the tick that it causes, and a rejection, after which the run is over, counts as its end at once.
- Maskers.LeaksExactly: for other tables only the direction of CleanNeverLeaks and ShelteredNeverLeaks is stated; there a pattern can be hidden by one that is matched before it.
- Orchestrate.StageTable.Advance: loading errors, a missing state machine, logging and metrics are not modelled.
- Validator.ValidateDAG: does not say which paths are reported after the first, because by then the search works with a stale stack.
- Lexer.Tokenize: identifiers beyond ASCII are rejected where the source reads UTF-8 letters; positions and wording of errors are dropped, and a number keeps its digits instead of a float64.
- Parser.Parser.ParseBinary: one method with a level stands for the six methods parseOr to parseMul, which differ only in their operators.
- Evaluation and rendering of expressions (`eval.go`, `render.go`), which depend on float64 coercions and regular expressions.
- Approvals.Service.Vote: the run's new tick after an approval, comments, user ids and a service without a state machine are not modelled; mode quorum and several requests on one run are outside the model, as the code promises nothing there.
- ApprovalRuns.Agreement: what the run does after it has gone back to running is outside these steps.
- Batches.RunSerial: elapsed times, the interval between batches and the context's cancellation are not modelled; a task is its error.
- Maskers.BuildPairs: trimming, base64 and query escaping are parameters, so nothing is said about their results.
- Maskers.Writer.Write: a sink takes a line or reports an error; a partial write is not modelled.
- HTTP handlers, SQL text, queues, remote shells, cloud SDKs, web and command line: input and output around the logic above.
- Envelope encryption, log paging, artifact packing, access rules: easy slicing or library behaviour.
- Scheduler.Status, Snapshot and the String methods: copies and debug output.
