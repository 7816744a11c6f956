# Verification of the workflow-to-pipeline compiler

The compiler turns an authored workflow graph into steps that an external
scheduler runs, sometimes over several uploads into one build. This project
models the parts of it where many pieces have to agree, and proves what they
keep over every input, every interleaving and every run.

`dafny verify dfyconfig.toml` verifies the whole project.

## What is modelled

**Upload and scheduling.** `JobOrder` is `orderJobs`: Kahn's algorithm with a
sorted ready list. `GatePreparation` collects the reusable-workflow gates of a
job list, lifts what their members need from outside, and searches the closure
of those needs for the gate's own group. `StepNeeds`, `GateKeys`, `QueueCheck`
and `Emit` build the steps: an opening and a closing step for each scope, jobs,
approval gates, keys that collide with nothing, and the search for a cycle in
dependencies and queue order (`CycleCheck`). `Uploads` says what an upload must
satisfy, `Coherence` proves that every accepted pipeline satisfies it, and
`Scheduler` is the external scheduler as a step relation. A step may start when
its dependencies are over, strict ones have passed, and every earlier entry of
its concurrency group is over. Runs start from the empty build; uploads arrive,
steps start, finish, are given up or are canceled in any order. `StepLaws` says
of every emitted step, in terms of the workflow alone, what it waits for and
what not; `ScopeLaws` says that the scopes laid over the steps are the gates the
author named. Both carry over to runs. `OrderLaws` says what is accepted and
returned by the order of jobs and of gates in terms of the jobs themselves.

**Actions.** `PinnedSource` is `memoizedActionSource`. The two locked regions of
`Fetch` are methods of a class, tied to functions on its state; callers are
program counters, and the real source may answer differently each time. The
laws about runs speak of references and answers themselves, not of keys and pins.
`ActionLocks` is the memoized depth-first search for action locks, over
arbitrary answers of the network and the file system; the graph is tied to the
answers it was made from.

**Stages.** `StageRecords` reads a stage record and checks the shape of its
continuations, `StageChain` is `advance`, `StageLaws` writes out what it accepts,
adds and hands down, and `StageRuns` lets the stages of all components of a
workflow run in any order, each on whatever bundle its own checks accept.
`GateRace` is the end of a stage run: concurrent uploads that the server takes
whole or not at all, lost answers, replays, and one retry after a lost race for
an approval gate.

**Triggers.** `Globs` turns a filter glob into the pieces of a regular expression,
and reads it directly, character by character, as well. `RefFilters` has the
compiled and the interpreted form of branch, tag and path filters, `Triggers` the
translation of all events and the explanation of a skip, and `TriggerAgreement`
proves that the two agree. `TriggerLaws` says from the trigger and the event
alone when a trigger fires and when it is accepted, and proves that both paths
do just that.

**Other folds.** `DiffBase` finds the commit that a new branch is compared with,
for any history. `FailureClosure` is the in-place fixpoint over failed jobs and
the plan check that relies on it. `Diagnostics` compacts a report over the
array it reads and finalizes it; `ReportLaws` says what comes out, field by field.

`Graphs`, `Ordering`, `StableOrder`, `Claims` and `Pipelines` hold shared
definitions.

## What the model shows about the code

- Only one scope of a concurrency group is occupied at a time, unless the
  closing step of the scope that was ahead has been canceled. The exception is
  real and matches the repository's own contract notes
  (`Scheduler.CanceledCloseLetsScopesOverlap`), and it is exact: an entry that
  has only that closing step left ahead of it may start if and only if the step
  was canceled (`Scheduler.CanceledCloseAdmitsExactly`).
- `Emit` accepts a deferred pipeline with a failed or skipped workflow, and
  writes a step with an empty key then and only then
  (`Coherence.EmptyKeyExactly`, `Coherence.EmptyKeyIsAccepted`); all other keys
  are distinct. The two places in `internal/cli/upload_stage.go` that defer a
  pipeline set neither a failure nor a workflow skip reason, so only a direct
  caller of `Emit` can meet it.
- With several triggers for one event the condition takes any that matches,
  while the explanation looks at the first. The two agree if and only if the
  first one matches or none does (`TriggerAgreement.PathsAgreeExactly`), so
  always with at most one trigger of the event.
  `TriggerAgreement.SecondTriggerIsNotExplained` is a list on which they part.
  It is a list as handed to `TranslateEventTriggerCondition` and
  `TriggerFilterMismatchReason`; the parser that makes lists from workflow files
  is not part of this model, and nothing here shows that it can give this one.
- `JobsOutsideFailureClosure` panics when more keys fail than there are jobs,
  because it makes a slice of negative capacity. That takes an error about an
  instance that is not in the job list, as for a job that was rejected before it
  was listed (`FailureClosure.UnlistedFailureOverflows`); with errors about
  listed jobs only it never happens
  (`FailureClosure.KnownInstancesNeverOverflow`). The function has no caller in
  the repository.
- A stage run whose single retry fails has met at least two uploads by others;
  with two stages the retry is enough, and with three it may not be
  (`GateRace.ThirdStageDefeatsRetry`).

## Model

| member | source | states |
|---|---|---|
| JobOrder.OrderJobs | internal/buildkite/pipeline.go:1128-1192 | Succeeds exactly on valid jobs whose needs have no cycle; the result is a permutation of the jobs in the lexicographically least order that respects needs. |
| JobOrder.ValidateJob | internal/buildkite/pipeline.go:1194-1269 | Accepts exactly the jobs whose key, queue, stage, preparation result, concurrency, dependencies and approval gate fit together. |
| JobOrder.NormalizedExactly | internal/buildkite/pipeline.go:1146-1147 | The jobs that come out are those that went in, with their dependencies sorted. |
| Ordering.LeqExactly | internal/buildkite/pipeline.go:1156-1188 | Keys are compared as strings are: a prefix comes first, otherwise the first difference decides. |
| JobOrder.LeastOrderIsUnique | internal/buildkite/pipeline.go:1156-1188 | A graph has one least order. |
| JobOrder.InputOrderIsIrrelevant | internal/buildkite/pipeline.go:1128-1192 | The same jobs listed in any order are rejected alike or come out in the same order. |
| JobOrder.GreedyIsLeast | internal/buildkite/pipeline.go:1170-1187 | Always taking the least ready key gives the least of all orders. |
| JobOrder.StuckMeansCycle | internal/buildkite/pipeline.go:1188-1190 | Jobs left when nothing is ready contain a cycle of needs. |
| JobOrder.OrderExcludesCycles | internal/buildkite/pipeline.go:1188-1190 | A complete order shows that there is no cycle. |
| OrderLaws.AcyclicExactly | internal/buildkite/pipeline.go:1188-1190 | Needs are accepted exactly if no chain of jobs, each listing the next among its dependencies, leads back to where it began. |
| OrderLaws.NeedsComeFirst | internal/buildkite/pipeline.go:1170-1187 | In the order that is returned every job comes after the jobs of the upload that it lists among its dependencies. |
| CycleCheck.Searcher.Search | internal/buildkite/concurrency_gates.go:182-208 | Ends on every finite graph and reports a cycle exactly when one can be reached from an entry of the upload; otherwise a ranking exists. |
| CycleCheck.Searcher.Visit | internal/buildkite/concurrency_gates.go:184-202 | The keys being visited form a path; meeting one of them again closes a cycle. |
| GatePreparation.PrepareGates | internal/buildkite/concurrency_gates.go:12-95 | Accepts exactly the jobs whose gate declarations agree, whose nested gates use different groups, and whose gates meet their group neither in a member nor anywhere in what their prerequisites need. |
| GatePreparation.CollectGates | internal/buildkite/concurrency_gates.go:15-42 | Gates appear in order of first declaration with all their members; an enclosing gate always comes earlier. |
| OrderLaws.GatesInOrder | internal/buildkite/concurrency_gates.go:15-42 | The gates come in the order in which the jobs first name them, with the queue of the job that does; all jobs that name a gate agree on its group, its enclosing gate and cancellation. |
| OrderLaws.MembersJoin | internal/buildkite/concurrency_gates.go:18-41 | The members of a gate are the jobs that name it, in order. |
| GatePreparation.CheckAncestors | internal/buildkite/concurrency_gates.go:43-51 | The walk up the enclosing gates ends and finds a shared group exactly when an ancestor has it. |
| GatePreparation.AncestorVerdict | internal/buildkite/concurrency_gates.go:43-51 | The walk accepts exactly the job lists in which no job is inside two scopes of one group. |
| GatePreparation.LiftPrerequisites | internal/buildkite/concurrency_gates.go:62-70 | Lifts exactly the outside needs of the members, once each and in the order in which they are met. |
| GatePreparation.SearchClosure | internal/buildkite/concurrency_gates.go:73-92 | The worklist ends and finds a conflict exactly when something the prerequisites need, however indirectly, queues in the group. |
| GatePreparation.ChildMembersInParent | internal/buildkite/concurrency_gates.go:18-41 | The members of a gate are members of the gate around it, which precedes it. |
| GatePreparation.ClosureAvoidsMembers | internal/buildkite/concurrency_gates.go:71-92 | Nothing that a lifted prerequisite needs is a member of the gate, so lifting cannot make a scope wait for itself. |
| StepNeeds.OpenDependencies | internal/buildkite/concurrency_gates.go:97-118 | An opening step needs its enclosing scope and its prerequisites as OpenNeeds lists them. |
| StepNeeds.OpenNeedsExactly | internal/buildkite/concurrency_gates.go:97-118 | The enclosing scope is the only strict dependency, prerequisites may fail, no key occurs twice and none is empty. |
| StepNeeds.CloseDependencies | internal/buildkite/concurrency_gates.go:120-131 | A closing step waits for all members and for the closing steps of the gates directly inside, all allowed to fail. |
| StepNeeds.ChildClosesExactly | internal/buildkite/concurrency_gates.go:125-129 | The child closing steps are exactly those of gates whose parent is the gate. |
| StepNeeds.WorkflowCloseDependencies | internal/buildkite/concurrency_gates.go:133-147 | The workflow's closing step waits for the compiler step, all jobs and the outermost gates. |
| StepNeeds.JobDependencies | internal/buildkite/pipeline.go:955-974 | A job waits for the compiler step, the workflow gate if it is runnable, its needs, the openings of all its gates, and its approval gate, in this order; StepLaws.JobIsEmitted says the same of the emitted step. |
| StepLaws.StepsAreLawful | internal/buildkite/pipeline.go:529-857 | Every step of a prepared workflow has the key and group it should have and waits for exactly what is written out for opening and closing steps, jobs and approval gates: no need is missing and none is added. |
| StepLaws.EmittedIsLawful | internal/buildkite/pipeline.go:290-518 | The output for an accepted pipeline is that of its workflows one after the other, each as StepLaws.StepsAreLawful says. |
| StepLaws.PlansDiffer | internal/buildkite/pipeline.go:441-452 | No two jobs of an accepted pipeline that run a plan have the same plan, in one workflow or in two. |
| StepLaws.JobIsEmitted | internal/buildkite/pipeline.go:955-974 | Each authored job of a workflow that is not dropped is a step that waits for the compiler step if it has a name, the workflow's gate if the job runs something, its needs, which may fail, the openings of its gates and its approval gate, and for nothing else. |
| StepLaws.StartedJobHadItsNeeds | internal/buildkite/pipeline.go:955-974 | In every run: once a job has started, its approval gate, the compiler step and the openings of its gates have passed and all its needs are over. |
| ScopeLaws.AuthoredScope | internal/buildkite/concurrency_gates.go:15-42 | Each gate that an authored job names is uploaded as a scope with the gate's keys and group, whose members are exactly the jobs that name it, inside the gate named before it or the workflow's own gate. |
| ScopeLaws.ScopesAreAuthored | internal/buildkite/pipeline.go:594-615 | No other scope is laid over the steps. |
| ScopeLaws.JobRunsInside | internal/buildkite/concurrency_gates.go:97-131 | In every run: while an authored job runs, the opening step of each gate it names has passed and its closing step has not run. |
| ScopeLaws.JobsExclude | internal/buildkite/pipeline.go:594-613 | In every run two authored jobs whose gates use one group run together only inside the same gate, or if a closing step was canceled. |
| GateKeys.UniqueStepKey | internal/buildkite/pipeline.go:1112-1122 | The search for a suffix ends with the first candidate that is not used. |
| GateKeys.FirstFreeIsOne | internal/buildkite/pipeline.go:1112-1122 | For any base and any keys in use there is exactly one first free key. |
| GateKeys.ConcurrencyGateKeys | internal/buildkite/pipeline.go:1095-1105 | Returns the pair that belongs to the gate: for each marker the first free key beside the namespace, the job keys and the other marker. |
| GateKeys.KeyPairIsOne | internal/buildkite/pipeline.go:1095-1105 | A gate has exactly one such pair. |
| GateKeys.KeyPairApart | internal/buildkite/pipeline.go:1095-1105 | The two keys are not empty and differ from each other, from the namespace and from every job key. |
| GateKeys.KeyPairShape | internal/buildkite/pipeline.go:1095-1122 | The keys are the markers with the digest, and carry a number from two up only if that name is taken. |
| ScopeLaws.HashedTextsDiffer | internal/buildkite/pipeline.go:491-506 | The text that is hashed for a gate's keys tells its group, its ID and its workflow, as long as these contain no NUL. |
| QueueCheck.ValidateConcurrency | internal/buildkite/concurrency_gates.go:153-209 | Accepts exactly when dependencies and queue order together can be ranked. |
| QueueCheck.Queues.Add | internal/buildkite/concurrency_gates.go:157-168 | Records an entry's dependencies and a link to the entry before it in its group. |
| QueueCheck.RankableMeansOrderable | internal/buildkite/concurrency_gates.go:149-152 | Links between neighbours of a queue are enough: they can be ranked exactly if all pairs of a group can. |
| Emit.PrepareWorkflow | internal/buildkite/pipeline.go:353-509 | A rejection is deserved: a check fails, or with its gates named the workflow claims a key twice; on success order, approval gates, keys, digests and gates are as required. |
| Emit.CheckWorkflow | internal/buildkite/pipeline.go:342-400 | Accepts exactly workflows with jobs or a reason to have none, with a group key as the kind of upload asks for, and with a well-formed gate. |
| Emit.CheckHeader | internal/buildkite/pipeline.go:290-334 | Accepts exactly pipelines whose compiler step, artifact producer, existing steps and workflows fit together, and collects the existing steps. |
| Emit.NameGates | internal/buildkite/pipeline.go:491-506 | Gives each gate its own pair of keys; fails exactly if some key of the pairs is in use or occurs twice. |
| Emit.CheckApprovals | internal/buildkite/pipeline.go:410-440 | Accepts exactly when declared approval gates are well formed, every job's gate is declared or exists, and every declared gate is used. |
| Emit.EmitWorkflow | internal/buildkite/pipeline.go:529-857 | Writes the steps in the order gates, jobs, approval gates, each opening step directly before its closing step; a failed or skipped workflow is one step. |
| Emit.PreparationIsOne | internal/buildkite/pipeline.go:353-509 | A workflow can be prepared in one way only: job order, gates, prerequisites and keys leave nothing open. |
| Emit.RefusedIsNotAccepted | internal/buildkite/pipeline.go:290-518 | No preparation of a refused pipeline is accepted. |
| Emit.Emit | internal/buildkite/pipeline.go:290-518 | The steps are those of all prepared workflows, with keys and plan digests used once and queues that can be ordered; succeeds exactly if an acceptable preparation exists, which then is the only one; a rejection shows the workflow, or the circle in the queues, that deserves it. |
| KeyRegister.RegisteredOnceEmittedOnce | internal/buildkite/pipeline.go:337-508 | Registering every key once makes the keys of all entries and emitted steps distinct. |
| Emission.AllStepsFollow | internal/buildkite/pipeline.go:529-857 | What is emitted has the queue order and dependencies that were checked, apart from the compiler step. |
| EmittedSteps.ScopesHold | internal/buildkite/pipeline.go:594-615 | Every scope lies among the steps of its workflow as the protocol needs: adjacent markers, members between them, children inside parents. |
| Coherence.EmittedIsCoherent | internal/buildkite/pipeline.go:290-518 | Every accepted pipeline without keyless steps has distinct keys, can be ordered, and has all its scopes in place. |
| Coherence.EmittedNeedsResolve | internal/buildkite/pipeline.go:955-974 | Every dependency names a step of the upload, an existing step or the compiler step. |
| Coherence.EmittedIsAcceptable | internal/buildkite/pipeline.go:290-518 | An accepted pipeline can be appended to any build that has the steps it refers to and none of its keys. |
| Coherence.EmptyKeyExactly | internal/buildkite/pipeline.go:359-386 | A step has an empty key exactly if a failed or skipped workflow has no group key. |
| Coherence.EmptyKeyIsAccepted | internal/buildkite/pipeline.go:359-386 | A deferred pipeline with a failed workflow that Emit accepts, and whose step has an empty key. |
| Scheduler.RunsStayValid | internal/buildkite/concurrency_gates.go:149-152 | In every run, over any uploads, no step starts before its dependencies and its queue allow it, and none is given up without cause. |
| Scheduler.EveryRunCanMove | internal/buildkite/concurrency_gates.go:149-209 | Deadlock freedom: in every state of every run all steps are over, or one is running, can start, or can be given up. |
| Scheduler.RunsAreBounded | internal/buildkite/concurrency_gates.go:149-209 | A run makes at most two moves for each step ever uploaded. |
| Scheduler.AppendKeepsOrder | internal/buildkite/concurrency_gates.go:149-152 | Appending an upload that can be ordered to a build that can be ordered keeps that, also with shared groups. |
| Scheduler.MutualExclusion | internal/buildkite/pipeline.go:594-613 | In every state of every run at most one scope of a group is entered and unfinished, unless the closing step of the scope ahead was canceled. |
| Scheduler.CanceledCloseAdmitsExactly | internal/buildkite/pipeline.go:594-613 | In every state of every run, an entry that waits behind an occupied scope for its closing step alone may start if and only if that step was canceled. |
| Scheduler.NothingRunsBeside | internal/buildkite/pipeline.go:594-613 | While a scope is occupied no other entry of its group runs, unless its closing step was canceled. |
| Scheduler.MembersRunInside | internal/buildkite/concurrency_gates.go:120-147 | A running member's scope has opened and its closing step has not run. |
| Scheduler.ScopesNest | internal/buildkite/concurrency_gates.go:106-131 | A child scope opens after its parent has opened and is over before the parent closes. |
| Scheduler.CanceledCloseLetsScopesOverlap | docs/compatibility-contract.md:805-815 | A concrete run in which a canceled closing step lets two scopes of one group be occupied. |
| PinnedSource.MemoizedSource.Begin | internal/compiler/actions.go:731-768 | The first locked region finds an answer, a call or a pin to wait for, or takes the lead. |
| PinnedSource.MemoizedSource.Publish | internal/compiler/actions.go:789-804 | The second locked region keeps a success, writes the first pin, drops a failure and wakes all who wait. |
| PinnedSource.SuccessesAgree | internal/compiler/actions.go:727-806 | Over every interleaving and any answers, all successful fetches of one server, repository and ref return the same server, commit and digest, and those of the pin the source started with if there was one. |
| PinnedSource.CompletedExactly | internal/compiler/actions.go:775-797 | A fetch that was answered succeeds exactly if there is no pin or server, commit and digest are the pinned ones; without a pin they become the pin. |
| PinnedSource.KeysExactly | internal/compiler/actions.go:731-732 | Two references share a pin exactly if server, ref, and owner and repository up to case are the same, and share a call if path and root agree as well. |
| PinnedSource.LockedFetches | internal/compiler/actions.go:688-705 | With pins from recorded locks, whatever is fetched successfully for a locked repository and ref has the recorded server, commit and digest. |
| PinnedSource.PinsWrittenOnce | internal/compiler/actions.go:793-796 | A pin never changes once it is written. |
| PinnedSource.SingleFlight | internal/compiler/actions.go:737-768 | At most one real fetch is under way for one reference, and for an unpinned repository and ref. |
| PinnedSource.WaitersHaveOwners | internal/compiler/actions.go:737-766 | Whoever waits on an open channel waits for a caller that is fetching for the same key or repository. |
| PinnedSource.OwnerWakesWaiter | internal/compiler/actions.go:798-803 | Publishing lets every waiter of the call or the pin go on. |
| PinnedSource.SuccessesAreKept | internal/compiler/actions.go:734-738 | Once a fetch has succeeded the source is never asked for the same again: whoever enters with such a reference is given that answer. |
| PinnedSource.FailuresAreNotKept | internal/compiler/actions.go:789-804 | A failed fetch changes neither cache nor pins, and the next caller leads again. |
| PinnedSource.NewPinnedSource | internal/compiler/actions.go:688-705 | Accepts exactly the locks that agree on each repository and ref, and pins exactly these. |
| ActionLocks.Builder.Add | internal/compiler/actions.go:404-512 | Adds the described action and, from what loading it answered, all below it, and keeps finished nodes; a failure is real: a failed answer, a chain of ten nested actions, an action that uses itself, bytes over the limit, or an ID that another lock has. |
| ActionLocks.Builder.ChargePaths | internal/compiler/actions.go:419-426 | Charges all paths of a lock, and fails exactly when the limit is passed. |
| ActionLocks.PathsWithinLimit | internal/compiler/actions.go:419-426 | In a built graph the paths of all locks together are no longer than the limit, each lock counted once. |
| ActionLocks.BuildActionGraph | internal/compiler/actions.go:263-310 | A built graph is acyclic and closed; every node holds what describing and loading its action answered, and its children are the actions that this answer uses; selectors name the children's locks; roots are the requested actions; a build that fails deserves it. |
| ActionLocks.WalksDescend | internal/compiler/actions.go:413-418 | No walk down the children returns to where it was. |
| ActionLocks.LockIdsIdentify | internal/compiler/actions.go:427-435 | Two locks of a built graph share an ID only if they have the same content. |
| StageRecords.CheckShape | internal/cli/stage.go:742-817 | Accepts exactly continuations of the required shape. |
| StageRecords.ShapePartitions | internal/cli/stage.go:752-795 | The deferred jobs are exactly the roots, the later matrices and the jobs with instances, and no job is two of these. |
| StageRecords.SkippingAllFits | internal/cli/stage.go:513-534 | The placeholders of a whole component never exceed its budget. |
| StageRecords.CountDependents | internal/compiler/runtime_matrix.go:122-128 | The count does not depend on the order in which the instances are walked. |
| StageRecords.Decode | internal/cli/stage.go:615-709 | Accepts exactly records with well shaped continuations, distinct graph keys, published producers, and components and resolved jobs that do not overlap. |
| StageChain.Advance | internal/cli/stage.go:307-469 | Succeeds exactly if every recorded job is reproduced, all else is this stage's own and unmoved, the others are still deferred as recorded, nothing owned is forgotten and the budget holds; then adds just that. |
| StageChain.CheckEntries | internal/cli/stage.go:327-380 | Classifies every compiled job as reproduced, new or unacceptable, and counts the reproduced ones. |
| StageChain.CheckContinuations | internal/cli/stage.go:381-410 | Every recorded continuation is met unchanged; what is left over is a later stage of this one. |
| StageChain.SkippedFit | internal/cli/stage.go:513-534 | Skipping some jobs takes no more steps than skipping all of them. |
| StageLaws.EntriesExactly | internal/cli/stage.go:327-380 | The jobs of a bundle are accepted exactly if each recorded job is there with the same key, job, plan digest and needs up to order, and each other one has a step and is, in a later stage, owned, on a platform with a runtime, from the recorded source and with the recorded actions; the new jobs are those not recorded. |
| StageLaws.ChangedIsRejected | internal/cli/hosted_compile.go:308-310 | A recorded job that comes back with another job, plan digest or needs makes the stage fail. |
| StageLaws.ContinuationsExactly | internal/cli/stage.go:381-410 | The deferred steps are accepted exactly if all other components are deferred as recorded and at most one step is left, which is a next stage; it keeps the recorded action locks. |
| StageLaws.NextExactly | internal/cli/stage.go:478-495 | A next stage expands matrices left for later and takes over jobs of its parent with the recorded sources and instances. |
| StageLaws.AdvancedExactly | internal/cli/stage.go:411-469 | An accepted stage adds exactly the new jobs, in order, and the placeholders of skipped ones, within its budget, and hands down the graph, gates, resolved matrices and remaining budget, with a step that waits for every producer once or, with scheduling, for every job. |
| StageRuns.AllReproduced | internal/cli/stage.go:333-379 | Equal counts mean that every recorded job was classified as reproduced; StageLaws.EntriesExactly says what that is. |
| StageRuns.NextGraphIsExact | internal/cli/stage.go:541-550 | The graph handed down is the recorded graph and the new jobs, without overlap. |
| StageRuns.OthersUnchanged | internal/cli/stage.go:449-459 | A later stage hands on exactly the other components that were recorded. |
| StageRuns.NextOwnsFewer | internal/cli/stage.go:478-495 | An accepted next stage owns strictly fewer jobs, all of its parent's and none of its roots. |
| StageRuns.UploadedOnce | internal/cli/stage.go:307-380 | Over all stages of all components no planned step key is uploaded twice. |
| StageRuns.BudgetsAreKept | internal/cli/stage.go:420-456 | What a component has uploaded and what its next stage may upload add up to its first budget; it runs at most as many stages as it has jobs. |
| StageRuns.OwnershipIsPartition | internal/cli/stage.go:673-681 | In every state of a run in which a stage has run, no job belongs to two components, a component owns only jobs of its own, and each of these it still owns or has handled. |
| StageRuns.NothingIsForgotten | internal/cli/stage.go:411-419 | When a component ends, each of its jobs was compiled or skipped by one of its stages. |
| GateRace.SuccessIsReal | internal/cli/upload_stage.go:314-361 | After a reported success every expected step is in the build with its digest, and every approval gate its jobs use, for ever. |
| GateRace.SuccessHasReason | internal/cli/upload_stage.go:346-361 | A run succeeds only if it was told that its upload was taken, or after a rejection has found each of its steps, and at least one, in the build. |
| GateRace.FailureNeedsTwoOthers | internal/cli/upload_stage.go:451-472 | A first run fails only if two other stages uploaded while it was trying. |
| GateRace.ThirdStageDefeatsRetry | internal/cli/upload_stage.go:451-472 | A run of three stages in which the single retry fails after exactly two uploads by others. |
| GateRace.TwoStagesNeverFail | internal/cli/upload_stage.go:451-483 | With two stages racing for any shared gates one retry is enough. |
| Globs.GithubGlob | internal/buildkite/triggers.go:1124-1192 | The loop that rewrites the last piece in place fails exactly on globs that are not well formed, and otherwise ends with a regular expression that accepts what the characters of the glob say. |
| Globs.GlobMeaning | internal/buildkite/triggers.go:1116-1192 | For every accepted glob in both modes the regular expression accepts exactly the strings that the glob matches when its characters are read one by one. |
| Globs.ParsedExactly | internal/buildkite/triggers.go:1124-1216 | A glob is accepted exactly if no escape is cut off, every class is closed, allowed in this mode and compiles, and "?" and "+" follow a single character. |
| RefFilters.RefFilters | internal/buildkite/triggers.go:1022-1084 | Fails exactly on filters that are combined, empty, malformed, misplaced or wrongly negated; otherwise builds the nested condition. |
| RefFilters.RefFilterMatches | internal/buildkite/triggers.go:1086-1114 | Accepts the same filters and returns what the last matching pattern says. |
| RefFilters.LastMatchWins | internal/buildkite/triggers.go:1097-1113 | The result of the list is that of its last match, or of no match. |
| RefFilters.CompiledIsInterpreted | internal/buildkite/triggers.go:1022-1114 | On every ref the condition holds exactly when the interpreted filter selects it, also for empty lists. |
| RefFilters.PathFiltersMatch | internal/buildkite/triggers.go:946-1007 | Fails exactly on unacceptable path filters; otherwise says whether some changed path is selected. |
| Triggers.TranslateEvent | internal/buildkite/triggers.go:310-335 | Fails exactly on a trigger in error that matters; otherwise joins the conditions of the event's triggers. |
| Triggers.FilterMismatch | internal/buildkite/triggers.go:353-495 | Explains by the first trigger of the event, and nothing without one. |
| TriggerAgreement.ConditionTakesAny | internal/buildkite/triggers.go:310-335 | For every accepted list the condition applies and holds exactly when some trigger of the event matches. |
| TriggerAgreement.PathsAgreeExactly | internal/buildkite/triggers.go:310-495 | For every accepted list: condition and explanations agree if and only if the first trigger of the event matches or none of them does. |
| TriggerAgreement.TwoPathsAgree | internal/buildkite/triggers.go:310-495 | With at most one trigger of the event, the condition applies and holds exactly when neither explanation of a skip applies. |
| TriggerAgreement.AgreesOnPush | internal/buildkite/triggers.go:601-661 | For push: branches and tags, filters for either or both, and changed paths. |
| TriggerAgreement.AgreesOnPullRequest | internal/buildkite/triggers.go:662-732 | For pull requests: base branches, activities and changed paths. |
| TriggerAgreement.AgreesOnMergeGroup | internal/buildkite/triggers.go:733-769 | For merge groups: base branches and activities. |
| TriggerAgreement.AgreesOnActivity | internal/buildkite/triggers.go:770-928 | For events filtered by activity only. |
| TriggerAgreement.SelectTrigger | internal/cli/effective_event.go:158-180 | For any list: the condition holds on the snapshot exactly when some trigger matches, no explanation is given exactly when the first one does, and the two agree exactly as PathsAgreeExactly says. |
| TriggerAgreement.SecondTriggerIsNotExplained | internal/buildkite/triggers.go:353-358 | An accepted list of two triggers for one event on which the condition holds although a mismatch is reported. |
| TriggerLaws.RefListsExactly | internal/buildkite/triggers.go:1022-1084 | Branch and tag filters are accepted exactly if there is one list, of well-formed patterns, with "!" only in an include list and only after a pattern without it. |
| TriggerLaws.RefsPass | internal/buildkite/triggers.go:1086-1114 | An accepted filter selects a name exactly if the last pattern of an include list that names it has no "!", or no pattern of an ignore list names it. |
| TriggerLaws.SnapshotIs | internal/cli/effective_event.go:85-151 | The observed branch, tag, activity and base branches, read off the event one by one. |
| TriggerLaws.TranslatesExactly | internal/buildkite/triggers.go:540-943 | A list is accepted exactly if every trigger of a known event says nothing unsupported and those of the event are told what they ask for; changed paths have to be known only if everything else matches. |
| TriggerLaws.RunsExactly | internal/buildkite/triggers.go:310-335 | The condition emitted for an accepted list holds exactly if one of its triggers fires for the event: by its branches or tags, its activities or the default ones, and its paths. |
| TriggerLaws.UnexplainedExactly | internal/buildkite/triggers.go:353-495 | No skip is explained exactly if the first trigger of the event fires. |
| DiffBase.PushWebhookCommits | internal/cli/path_filters.go:208-231 | Accepts exactly bounded lists of distinct valid commits, and returns them in order. |
| DiffBase.NewBranchDiffBase | internal/cli/path_filters.go:233-286 | Finds a base exactly if all pushed commits are ancestors of the head, one of them alone has no pushed parent and has a single one, and local history from it matches. |
| DiffBase.BaseIsRight | internal/cli/path_filters.go:233-302 | In any history without cycles the base is not pushed, is an ancestor of every pushed commit, and the pushed commits are exactly those between it and the head. |
| DiffBase.SameCommitSet | internal/cli/path_filters.go:288-302 | Equal length and one inclusion decide equality of the two sets. |
| FailureClosure.FailedDependencyClosure | internal/compiler/bundle.go:416-436 | Ends with the least superset that every job needing a member belongs to. |
| FailureClosure.LeavesDecide | internal/compiler/bundle.go:352-400 | The walks over joined and wrapped errors read exactly the findings at the leaves. |
| FailureClosure.JobsOutsideFailureClosure | internal/compiler/bundle.go:405-414 | All jobs without an error, none after an unscoped one, otherwise those outside the closure; fails exactly if the error is scoped and its closure has more keys than there are jobs. |
| FailureClosure.KnownInstancesNeverOverflow | internal/compiler/bundle.go:438-450 | An error about listed jobs only never makes it fail. |
| FailureClosure.UnlistedFailureOverflows | internal/compiler/bundle.go:443 | With no job listed, the error of any one instance makes it fail. |
| FailureClosure.RemainingNeedNoRemoved | internal/compiler/bundle.go:416-450 | A remaining job needs, directly or through others, no failed and no removed job. |
| FailureClosure.CheckPlans | internal/compiler/bundle.go:522-546 | Accepts exactly distinct plans of known instances whose needs are all planned. |
| FailureClosure.RemainderIsPlannable | internal/compiler/bundle.go:405-546 | Planning exactly what remains outside the closure always passes that check. |
| Diagnostics.CompactDiagnostics | internal/compatibility/report.go:205-255 | Compacting over the array it reads gives the same as merging the diagnostics one by one. |
| Diagnostics.CompactedFindings | internal/compatibility/report.go:205-255 | One entry for each finding, in the order of first occurrence. |
| Diagnostics.CompactedRepresents | internal/compatibility/report.go:231-253 | Each entry is the first diagnostic of its finding and keeps the instance exactly if all of them share it. |
| Diagnostics.ProcessingReport.Finalize | internal/compatibility/report.go:127-203 | Sets status, result and sorted entries as Finalized says, on a fresh copy of the diagnostics. |
| Diagnostics.FinalizeIsIdempotent | internal/compatibility/report.go:127-203 | Finalizing twice is the same as once. |
| Diagnostics.CompactedErrors | internal/compatibility/report.go:140-146 | Compaction neither loses an error nor adds one. |
| ReportLaws.FindingExactly | internal/compatibility/report.go:220-231 | Two diagnostics are one finding exactly if all their fields but the instance agree, a runner policy counting as a runner label. |
| ReportLaws.CompactedExactly | internal/compatibility/report.go:205-255 | Compaction leaves the first diagnostic of each finding, in order, without its instance exactly if another one of the finding has a different one. |
| ReportLaws.FinalizedExactly | internal/compatibility/report.go:127-203 | The final status follows from stages and errors, an open result becomes the status, jobs, actions and diagnostics are sorted by the fields listed, equal ones in their old order, and the diagnostics are compacted. |
| StableOrder.StableSortSorts | internal/compatibility/report.go:147-202 | The sort orders by the keys, permutes, and keeps equal elements in place. |

## Left out

- Emit.PrepareWorkflow: the checks on group labels, event names, trigger conditions, skip reasons, provider check labels and the paths of a failure are not modelled.
- Emit.EmitWorkflow: presentation, and the errors about platforms, images and agents, are not modelled.
- Emit.Emit: labels, artifact paths, notifications, runner settings, conditions, retry and cache settings of steps are not modelled, nor are the checks on them; steps are records of key, group and dependencies.
- Scheduler.MutualExclusion: any step may be canceled at any time; the cancellation requests that opening steps make are not modelled beyond that.
- Scheduler: a concurrency limit above one is treated like one, following the queue rule stated with the cycle check; conditions on steps and skipped steps that pass at once are not modelled.
- PinnedSource.CompletedExactly: the reference that the real source is asked for when a pin exists is not modelled; its answers are arbitrary and checked. Releasing a rejected tree is not modelled.
- PinnedSource: the normal form of server URLs beyond the default one, and case folding outside ASCII; references with control characters.
- ActionLocks: what `describe` reads, substitutes and admits is an arbitrary answer; capabilities, programs and the final sort of the locks are not modelled. Nesting depth bounds the recursion only.
- StageRecords.CheckShape: the validation of each matrix descriptor's own fields, of remote sources and of the action lock list is not modelled.
- StageRecords.Decode: schema, version, workflow path, runners, runtimes and the JSON form of a record are not modelled, nor the row values, remote sources and lock lists of a continuation.
- StageChain.Advance: the size limit of an encoded record is not modelled. Keys of skipped placeholders are counted but not claimed to be new, since that depends on the compiler.
- StageLaws.EntriesExactly: assumes distinct keys in the bundle, which emission enforces, and in the record, which reading it checks.
- StageRuns.UploadedOnce: assumes that each compilation gives distinct keys, that a key determines its job, and that continuations of a bundle have distinct step keys, which emission enforces.
- StageRuns.OwnershipIsPartition: speaks of runs in which a stage has run, because a stage checks the components when it reads its record and the importer does not.
- GateRace.SuccessIsReal: assumes that a job's digest determines the approval gate it waits for; scheduling attributes that are compared as well are not modelled.
- GateRace.TwoStagesNeverFail: assumes that lookups succeed and that the server answers; without that a run may fail and be repeated, which GateRace.SuccessIsReal covers.
- Triggers: the predicate for live events and its fallbacks, TranslateTriggerCondition and ValidateTriggerConditions; the effective event's predicate is taken to hold for its own event. Messages of explanations are reduced to whether there is one.
- Globs: what a bracket expression contains and whether it compiles is given by a parameter; the glob linter for paths is one too.
- DiffBase: git is a history and its answers about it; failing commands, the webhook's JSON and the diff itself are not modelled.
- FailureClosure: job outcomes for reporting, and the rest of planned workflow generation.
- Diagnostics: locations are compared as values, which their printed form determines.
- Hashes and digests are opaque values; no freedom from collisions is claimed.
- Input and output, processes, downloads, artifacts, YAML and shell text, bootstrap scripts, annotations, telemetry and help text.
