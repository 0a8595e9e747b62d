# ForgeMind, modelled and proved

ForgeMind turns an issue into a pull request with a pipeline of agents under a
runtime that is meant to hold whatever the agents do. This project models the
parts of that runtime with the most state and the most branching, and proves what
they keep. Agents, language models, GitHub and the database's verdicts are arbitrary:
every result holds for all of their behaviours. So are the clock readings behind the
task's event trail; the artifacts and approvals are taken in the order they are
written.

- `Graphs`, `PlanDag`, `PlanRows`: the planner's output. The validator (Kahn's
  loop, then a recursive search that shares one mutable set) accepts exactly the
  plans that are legal in terms of paths, and the rows written for an accepted plan
  form chains that end.
- `StateMachine`, `TaskLifecycle`, `Orchestration`: the task row, its event trail
  and its replan budget, first as locked operations, then as runs of any number of
  workers and humans. A job has two locked sections, and anything may happen between
  them; it may also die, or pass its deadline.
- `JobChain`: the queue, where each job enqueues its own continuation and ids are
  deduplicated.
- `Evidence`, `EvidenceByQueue`: what the stored artifacts prove about the commit of
  a pull request, stage by stage and over runs of the queue, which itself keeps to one
  job at a time.
- `Merge`: the stub of GitHub with its two indices, the merge tool's gates, and runs
  of merge calls.
- `Fallback`: the chain of models with retries, hops and a malformed-output budget,
  and the agents' retry wrapper.
- `DeveloperLoop`: the single-commit tool loop under two budgets, and the summary.
- `ToolPipeline`, `TextScrub`, `JsonScrub`: the audit row over a session that can be
  rolled back, and the redaction and scrubbing of what is stored.
- `Worktrees`: concurrent creation of one task's worktree, with the git branch as
  the lock.

Code that changes state is a class or a method with loops; its contract ties the
new state to a function of the old one, and the results are proved about those
functions. Interleavings are state machines over atomic steps. `Run`-like functions
apply a list of steps; a step that is not possible changes nothing.

## Where the code and its documentation differ

- A rejected task is called a deliberate stop, like a cancelled one
  (`runtime/state_machine.py:25-29`). The driver holds only the cancelled one:
  `Orchestration.RejectionIsNotAStop` and `Orchestration.FailureIsHeldIffCancelled`.
- A transition into replanning is counted without a check, so the counter can pass
  the limit, by one and by one more for each deadline that passes in replanning;
  `Orchestration.OverrunIff` says exactly when, and `Orchestration.OverrunIsReached`
  that it happens. A stale verification is charged to no budget:
  `Orchestration.TrailsAreUnbounded`.
- The chain of jobs is meant to carry a task to its next human. A task that has a next
  step, rejected ones included, is stranded exactly when some step of the run lost the
  duty to move it on (`JobChain.StrandedIffLost`). Two steps do: an enqueue whose id is
  still held by another job that has not closed, and a rejection that comes when no job
  is left to take it up. They are reached in `JobChain.ContinuationCanBeLost`,
  `JobChain.RejectionCanStrand` and, for a task already rejected,
  `JobChain.RejectedTaskCanBeBlocked`.
- The scrub is said to make a JSON write never fail, but it skips keys:
  `JsonScrub.StoredFormIsStorableIff` and `JsonScrub.MalformedKeyCannotBeStored`.
- One audit row for each call is promised whatever the tool does. A call has its row
  exactly as `ToolPipeline.AuditedInWords` says: the session is usable at its entry,
  and the tool neither leaves it broken nor rolls it back before a commit succeeds. A
  rollback loses the row while the caller is given a status
  (`ToolPipeline.ARollbackLosesTheRow`). A broken session makes the pipeline raise, and
  costs the following calls their rows too until somebody rolls back
  (`ToolPipeline.ABrokenSessionLosesTheNextRow`): the developer's loop goes on without
  a rollback (`agents/developer/agent.py:381-388`), the researcher's does not.
- Creating a worktree is said to have no spurious failures. The last reload of a
  creator fails exactly while another one stands between `git worktree add` and its
  insert, or when a discard has taken branch and row away: `Worktrees.GivesUpIff`,
  reached in `Worktrees.ALoserCanFailSpuriously` and
  `Worktrees.DiscardsCanDefeatACreator`. The lock also needs discards to name the
  current row: `Worktrees.DiscardKeepsTheMutexIff` and
  `Worktrees.AStaleDiscardBreaksTheLock`.

## Model

| member | source | states |
|---|---|---|
| PlanDag.ValidatePlanDag | forgemind/app/agents/planner/schema.py:51-113 | accepts a plan if and only if it has steps, ids are unique, every dependency names a step, no dependency path returns to its start, and every implement step has a proper research ancestor; each error is raised exactly in its case and names the first offender |
| PlanDag.KahnOrder | forgemind/app/agents/planner/schema.py:73-92 | the order lists each step once, after everything it depends on, and a step is left out only if its dependencies lead into a cycle |
| PlanDag.FullOrderIffAcyclic | forgemind/app/agents/planner/schema.py:92-93 | comparing lengths decides acyclicity: the order is full exactly when no cycle exists |
| PlanDag.RemainderIsStuck | forgemind/app/agents/planner/schema.py:83-93 | when the loop stalls, every step not placed waits for another such step, and a cycle is found from it |
| Graphs.StuckSetHasCycle | forgemind/app/agents/planner/schema.py:83-93 | in a set where each node has a successor in the set, a walk must repeat: a real cycle exists |
| PlanDag.AncestorSearch.Visit | forgemind/app/agents/planner/schema.py:98-105 | for whatever was seen before, the search adds exactly the steps reachable without passing through a seen one, and it ends |
| PlanDag.ProperAncestors | forgemind/app/agents/planner/schema.py:95-109 | a fresh search, less its start, is the set of other steps that the start depends on transitively |
| PlanDag.SearchFindsResearch | forgemind/app/agents/planner/schema.py:106-113 | in an acyclic plan the search holds a research step exactly when one is a proper ancestor |
| PlanDag.CollectDependents | forgemind/app/agents/planner/schema.py:73-82 | the inverse of the dependency map, complete for every step |
| PlanDag.FindDangling | forgemind/app/agents/planner/schema.py:63-71 | finds the first dependency that names no step, and reports none only when none exists |
| PlanDag.FindUnresearched | forgemind/app/agents/planner/schema.py:106-113 | finds the first implement step without a research ancestor, and reports none only when none exists |
| PlanDag.DuplicatesAreCounted | forgemind/app/agents/planner/schema.py:56-62 | counting distinct ids decides uniqueness |
| PlanRows.PersistSteps | forgemind/app/agents/planner/agent.py:149-192 | the rows copy the plan in list order and each parent link points at the row of the step's first dependency |
| PlanRows.LinksAreEdges | forgemind/app/agents/planner/agent.py:165-186 | every parent link is an edge of the validated graph |
| PlanRows.EveryRowReachesARoot | forgemind/app/agents/planner/agent.py:119-186 | from every row of an accepted plan, following the single parent link ends at a root in fewer hops than there are rows |
| PlanRows.RunPlanner | forgemind/app/agents/planner/agent.py:88-134 | one correction at most; a plan is produced exactly when the deciding reply is a legal plan; the last raw output is kept on failure |
| StateMachine.AllTransitions | forgemind/app/runtime/state_machine.py:49-88 | the table built in place holds exactly the pipeline steps, plus failing and escalating from statuses that are not terminal |
| StateMachine.TableShape | forgemind/app/runtime/state_machine.py:49-102 | nothing leaves a terminal status, only a waiting task completes, and the reviewed path to a pull request has no side entrance |
| StateMachine.DocumentedWays | forgemind/app/runtime/state_machine.py:10-23 | every documented transition is in the table |
| TaskLifecycle.TaskRow.TransitionTask | forgemind/app/runtime/task_lifecycle.py:80-109 | an illegal move changes nothing and is reported; a legal one sets the status, counts a replan and appends one event later than all others |
| TaskLifecycle.TaskRow.AdvanceOnce | forgemind/app/runtime/task_lifecycle.py:147-185 | the driver's unit of work never meets an illegal transition |
| TaskLifecycle.TaskRow.CasTransition | forgemind/app/runtime/task_lifecycle.py:386-433 | moves only a task that is still in the expected status |
| TaskLifecycle.TaskRow.ReplanToImplementing | forgemind/app/runtime/task_lifecycle.py:331-383 | the shared replan path: charged once, or escalated when the budget is spent, or no effect when the status has moved on |
| TaskLifecycle.TaskRow.Finish | forgemind/app/runtime/task_lifecycle.py:436-1160 | the end of a stage under a fresh lock: the handler's move is legal and takes effect only from the handler's own stage; where it leads is fixed by the Evidence rows below |
| TaskLifecycle.TaskRow.Cancel | forgemind/app/api/routes/tasks.py:196-234 | cancel is refused exactly in terminal statuses and after a failure; accepted, it leaves the task failed with one more event, the user's |
| TaskLifecycle.TaskRow.Decide | forgemind/app/api/routes/tasks.py:237-356 | approve and reject are refused exactly when the task does not wait for a human; a decision completes or fails the task, with its reason on one event |
| TaskLifecycle.TaskRow.MarkTimeout | forgemind/app/worker/jobs/advance_task.py:51-65 | a passed deadline fails the task unless it is terminal or has failed, so it never overwrites a user's cancel |
| TaskLifecycle.NextStatusIsLegal | forgemind/app/runtime/task_lifecycle.py:112-144 | the driver only asks for legal transitions, and asks for none exactly when the task is finished or a user cancelled it |
| TaskLifecycle.TenMovesComplete | forgemind/app/runtime/task_lifecycle.py:40-52 | the stub driver takes a new task to completion in ten moves |
| TaskLifecycle.NextTimeIsTheEarliest | forgemind/app/runtime/task_lifecycle.py:55-77 | an event's time is the earliest one that is not before the clock and comes after every event so far |
| TaskLifecycle.HandlerDecisionIsLegal | forgemind/app/runtime/task_lifecycle.py:436-1160 | no handler can raise an illegal transition, complete a task, or restart it outside the shared replan path |
| Orchestration.EveryStepIsAllowed | forgemind/app/runtime/task_lifecycle.py:188-433 | any locked section of any worker or human leaves the task alone or makes one legal move under the budget rules |
| Orchestration.EveryRunIsSound | forgemind/app/runtime/task_lifecycle.py:55-109 | in every interleaving, with any clock and any deadlines: the trail is a gapless chain of legal transitions with strictly increasing times; the replan counter equals the replans on the trail and stays within the limit, one more, and one for each deadline in replanning; a task is completed if and only if its decisions end in an approval, the only one |
| Orchestration.LatestIsLast | forgemind/app/runtime/task_lifecycle.py:55-77 | ordering events by time gives the order of insertion, even when the clock runs backwards |
| Orchestration.MoveLowersRank | forgemind/app/runtime/task_lifecycle.py:112-144 | every move strictly lowers the distance to a stop, but for what is accounted for: spending budget, a stale verification, or a deadline in recovery |
| Orchestration.EveryRunStops | forgemind/app/runtime/task_lifecycle.py:112-433 | with a limit on replans, every run makes at most 18 (limit + 1) + 16 transitions, and five more for each stale verification, two for each deadline in recovery and seven for each in replanning |
| Orchestration.OneJobMovesTheTask | forgemind/app/runtime/task_lifecycle.py:188-270 | unless the task is finished, cancelled or waiting, one job of an idle worker makes exactly one transition |
| Orchestration.StoppedForGood | forgemind/app/runtime/task_lifecycle.py:112-185 | after completion, escalation or a user's cancel, no late agent, worker or human changes the row or the trail |
| Orchestration.CancelIsFinal | forgemind/app/api/routes/tasks.py:196-234 | an accepted cancel is the last event of the task in every run that follows; on a finished or failed task it changes nothing |
| Orchestration.DeadlineFailsAndRecovers | forgemind/app/worker/jobs/advance_task.py:51-65 | a deadline fails a task that is neither finished nor failed, frees its worker, and the next dispatch recovers the task |
| Orchestration.DeadWorkersStayOut | forgemind/app/worker/jobs/advance_task.py:156-160 | a worker that died leaves task and jobs as they were, and moves nothing in any run until it is dispatched anew, which resumes the stage it died in |
| Orchestration.RejectionIsNotAStop | forgemind/app/runtime/task_lifecycle.py:125-131 | a rejected task goes to recovery at the next dispatch |
| Orchestration.FailureIsHeldIffCancelled | forgemind/app/runtime/task_lifecycle.py:125-131 | a failed task is left alone if and only if a user cancelled it |
| Orchestration.OverrunIff | forgemind/app/runtime/task_lifecycle.py:80-144 | over whole runs: the counter ends over the limit exactly when a failure was recovered into replanning with the budget already spent, and then by one at most, and one for each deadline in replanning |
| Orchestration.OverrunIsReached | forgemind/app/runtime/task_lifecycle.py:95-96 | for every limit some run spends one replan more, so the bound is tight |
| Orchestration.StaleRoundsAreFree | forgemind/app/runtime/task_lifecycle.py:1076-1102 | any number of stale verifications costs no budget |
| Orchestration.TrailsAreUnbounded | forgemind/app/runtime/task_lifecycle.py:1076-1102 | without counting stale verifications no bound on runs exists |
| Evidence.StageEarnsItsGate | forgemind/app/runtime/task_lifecycle.py:540-1111 | a stage that moves a task past a gate has stored the evidence that the gate stands for, and every stage keeps the evidence of the earlier ones |
| Evidence.ImplementingLeadsOn | forgemind/app/runtime/task_lifecycle.py:540-644 | implementing leads to testing exactly when the agent has an implementation, then stored as the latest summary; else the task fails |
| Evidence.TestingLeadsOn | forgemind/app/runtime/task_lifecycle.py:647-721 | testing leads to review exactly when the run it stored passed, to debugging exactly when it failed or erred, and fails the task otherwise |
| Evidence.DebuggingLeadsOn | forgemind/app/runtime/task_lifecycle.py:724-831 | debugging leads to review exactly on a flaky verdict, to a replan exactly on a fixable one, and fails the task otherwise; a rerun is stored |
| Evidence.ReviewingLeadsOn | forgemind/app/runtime/task_lifecycle.py:834-928 | review leads on exactly when the stored review earns the gate, asks for a replan on any other verdict, and fails the task without one |
| Evidence.SecurityReviewLeadsOn | forgemind/app/runtime/task_lifecycle.py:931-1021 | the same for the security scan |
| Evidence.VerificationLeadsOn | forgemind/app/runtime/task_lifecycle.py:1024-1111 | the last gate opens exactly when HEAD could be read and completes the evidence for one commit; otherwise the task goes back to testing |
| Evidence.OthersLeadOn | forgemind/app/runtime/task_lifecycle.py:436-537 | planning, research and pull request creation lead on exactly when their agent returns |
| Evidence.ExceptionsFail | forgemind/app/runtime/task_lifecycle.py:436-1160 | an exception fails the task in every stage and leaves the rows written before it |
| Evidence.MissingInputs | forgemind/app/runtime/task_lifecycle.py:724-1111 | for any log, a check without its inputs fails the task |
| Evidence.NoPassedRun | forgemind/app/runtime/task_lifecycle.py:1076-1102 | without a passed run a verification goes back to testing |
| EvidenceByQueue.PullRequestsAreEarned | forgemind/app/runtime/task_lifecycle.py:540-1160 | in every run of the queue from one bootstrap enqueue, with workers, queue and humans interleaved and any agents: a task that creates its pull request, waits or is completed has one commit that is the latest summary's, was HEAD when checked, and whose latest review approves, latest scan passes and latest test run passed, all recorded after the summary |
| EvidenceByQueue.StagesLeadOn | forgemind/app/runtime/task_lifecycle.py:331-433 | in every run, a stage's end takes the task where its evidence leads, or to escalation exactly when that is a replan and the budget is spent, with the evidence of the earlier gates in place |
| EvidenceByQueue.ReviewHasItsCause | forgemind/app/runtime/task_lifecycle.py:647-831 | in every run, a task in review was put there by a testing stage whose stored run passed, or by a debugging stage with a flaky verdict |
| EvidenceByQueue.TheGatesOpen | forgemind/app/runtime/task_lifecycle.py:436-1160 | for every limit and every commit some run takes the task to its human with all the evidence for that commit |
| EvidenceByQueue.StepsAreAChainRun | forgemind/app/worker/jobs/advance_task.py:92-186 | these runs are runs of the queue, so its theorems apply |
| JobChain.OneJobPerTask | forgemind/app/worker/jobs/advance_task.py:127-183 | from one bootstrap enqueue, in every run: never two live jobs, queued or running |
| JobChain.OwnIdNeverBlocks | forgemind/app/worker/queue.py:25-46 | in every run, a running job's own id never equals the id of the continuation it enqueues |
| JobChain.NoJobForTheEnd | forgemind/app/worker/jobs/advance_task.py:178-183 | in every run no job is queued or run for a finished status |
| JobChain.FinishedTaskQueuesNothing | forgemind/app/worker/jobs/advance_task.py:163-183 | a job that begins on a finished task changes nothing and queues nothing |
| JobChain.StrandedIffLost | forgemind/app/worker/jobs/advance_task.py:127-183 | in every run, a task that has a next step, rejected or not, is stranded, whatever queue and workers do, exactly when some step of the run blocked a needed continuation or rejected the task with no job left to take it up |
| JobChain.StrandedIffNotAlive | forgemind/app/worker/jobs/advance_task.py:92-183 | while a live job is left that has not decided to stop, queue and workers can take the task's next step; without one they never do |
| JobChain.ContinuationLostIffBlocked | forgemind/app/worker/queue.py:62-78 | enqueuing a needed continuation strands the task exactly when another job that has not closed holds its id, and queues it otherwise |
| JobChain.ContinuationCanBeLost | forgemind/app/worker/jobs/advance_task.py:127-183 | for every limit on replans such a run exists: the testing job is slow to close and the verification goes back to testing |
| JobChain.OnlyACancelEndsIt | forgemind/app/worker/jobs/advance_task.py:127-183 | a task lost in this way keeps its status and trail until a user cancels it |
| JobChain.RejectionStrandsIff | forgemind/app/worker/jobs/advance_task.py:163-183 | at the moment of a rejection, the task has a next step, and is stranded there and then exactly when the job that saw it waiting had already ended or decided to stop |
| JobChain.RejectionCanStrand | forgemind/app/api/routes/tasks.py:330-356 | for every limit on replans some run in which nothing was lost before ends in that state |
| JobChain.RejectedTaskCanBeBlocked | forgemind/app/worker/jobs/advance_task.py:127-183 | a run in which a rejected task is not stranded at its rejection, but by the blocked continuation after it |
| JobChain.StepKeeps | forgemind/app/worker/jobs/advance_task.py:92-183 | every step of queue, workers and humans keeps at most one duty to move the task on, and loses a needed one only in the two ways named |
| JobChain.ChainIsARun | forgemind/app/worker/jobs/advance_task.py:92-186 | every run of the queue is a run of the system of many workers |
| Fallback.CallWithFallback | forgemind/app/llm/fallback.py:137-229 | the nested loops with their counters do what the specification says one call at a time, for every oracle |
| Fallback.EveryCallIsExplained | forgemind/app/llm/fallback.py:146-221 | each call follows the one before for a stated reason, and the next model is reached only from one that was malformed within the hop budget, retired, or out of retries; a request stops on malformed output only when hopping is off, the budget is used up, or no model is left; only retries pause |
| Fallback.OnlyOneExplanation | forgemind/app/llm/fallback.py:137-229 | those reasons leave no choice: calls, result and back-off of a request are the only ones they allow |
| Fallback.FirstAnswerWins | forgemind/app/llm/fallback.py:146-221 | the first answer in chain order is returned, and all earlier calls failed |
| Fallback.FatalErrorsStopTheChain | forgemind/app/llm/fallback.py:146-221 | an error of no known class ends the request at once, unchanged |
| Fallback.MalformedLeavesTyped | forgemind/app/llm/fallback.py:62-88 | in hop mode a malformed-classified error leaves the chain only as malformed output |
| Fallback.ClassesAreDisjoint | forgemind/app/llm/openai_compat.py:41-78 | no error is in two of the classes malformed, retired and transient, so the order of the checks does not matter |
| Fallback.MalformedInWords | forgemind/app/llm/fallback.py:62-72 | a provider error counts as malformed exactly when its code is 400 and its body mentions one of the four cues somewhere, in any letter case |
| Fallback.DeprecatedInWords | forgemind/app/llm/openai_compat.py:69-78 | a model counts as retired exactly on a 404 whose body mentions both phrases |
| Fallback.TransientInWords | forgemind/app/llm/openai_compat.py:36-58 | transient are timeouts and the codes 0, 408, 429, 500, 502, 503 and 504 |
| Fallback.CallsAreBounded | forgemind/app/llm/fallback.py:146-193 | from any point, at most the calls left to the remaining models, and the back-off of their remaining retries |
| Fallback.MalformedIsBounded | forgemind/app/llm/fallback.py:165-185 | at most the hop budget and one more malformed replies in a request, and one without hop mode |
| Fallback.RequestsAreBounded | forgemind/app/llm/fallback.py:146-193 | n models make at most n (retries + 1) calls and sleep at most n (2^retries - 1) base delays |
| Fallback.StructuredOutputWithRetries | forgemind/app/agents/base.py:32-66 | only timeouts and transient failures are tried again, malformed output never; a transient failure is raised only when the tries are used up; the result is the last try's; the wrapper itself sleeps 2^(tries - 1) - 1 base delays |
| Fallback.TriesAreBounded | forgemind/app/agents/base.py:47-66 | wrapped, a request makes and sleeps at most as many times its own bounds of calls and back-off as there are tries |
| DeveloperLoop.ToolBudget.Note | forgemind/app/agents/_budget.py:47-54 | executed calls and rejections are counted apart; the final signal counts for neither |
| DeveloperLoop.ExecuteTool | forgemind/app/agents/developer/agent.py:290-423 | after the commit, a write or a commit is denied without running; any other call is recorded with the pipeline's status and sha, or as failed; a call costs the executed budget exactly when its tool ran |
| DeveloperLoop.ToolLoop | forgemind/app/agents/developer/agent.py:186-281 | for every stream of replies: the record of the calls, at most maxCalls + maxRejections - 1 of them, one commit at most and no write after it, under the sha that the pipeline reported for the first executed commit; the loop stops on a budget exactly when one is used up |
| DeveloperLoop.RecordIsSound | forgemind/app/agents/developer/agent.py:317-337 | the one-commit contract follows from the guard for any replies, denied and raising calls included |
| DeveloperLoop.RecordInWords | forgemind/app/agents/developer/agent.py:186-281 | the recorded commit is the first executed commit among the replies, and the written paths are those of the executed writes before it |
| DeveloperLoop.WrittenPaths | forgemind/app/agents/developer/schema.py:60-74 | the loop collects exactly the paths of executed writes |
| DeveloperLoop.Synthesize | forgemind/app/agents/developer/agent.py:458-579 | a summary exists exactly when the sha has 7 to 64 characters and a draft stands; it records exactly the paths that only one side names and, for an unexplained draft, the written paths that research did not flag; one with problems is accepted only after two attempts, neither of them grounded |
| DeveloperLoop.RunDeveloper | forgemind/app/agents/developer/agent.py:159-281 | in terms of the replies: a summary names the sha that the pipeline reported for the first executed commit, which comes after every executed write; with a commit there is a summary exactly when sha and drafts allow it, and without one the run fails |
| ToolPipeline.Evaluate | forgemind/app/policies/engine.py:56-71 | denies if and only if some rule denies, with the first denying rule's reason |
| ToolPipeline.Pipeline.Invoke | forgemind/app/execution/tool_pipeline.py:147-242 | on a usable or a broken session: the tool runs if and only if no capability is missing and no rule denies; a status DENIED means it never ran, EXECUTED that it ran and did not raise, FAILED that it ran and raised or had its first write refused; an audited call adds one row with the returned status, and earlier rows never change |
| ToolPipeline.Pipeline.RunActions | forgemind/app/execution/tool_pipeline.py:199-221 | where the audit row is after any sequence of the tool's own commits, rollbacks and failures |
| ToolPipeline.EffectInWords | forgemind/app/execution/tool_pipeline.py:199-221 | the session stays broken exactly when the last failure is not followed by a rollback, and the row is dropped exactly when the first rollback comes before any commit that succeeds |
| ToolPipeline.AuditedInWords | forgemind/app/execution/tool_pipeline.py:199-271 | a call whose tool runs leaves its one row exactly when the session is usable at entry, the tool neither breaks it for good nor drops the row, and the database takes one of the two writes |
| ToolPipeline.BrokenEntry | forgemind/app/execution/tool_pipeline.py:244-271 | on a session broken at entry no tool can save its row: without a rollback the session stays broken, and the first rollback drops the row |
| ToolPipeline.StatusWithoutRow | forgemind/app/execution/tool_pipeline.py:204-242 | the caller is given a status without a row exactly when the tool rolled its row away and left the session usable |
| ToolPipeline.ARollbackLosesTheRow | forgemind/app/execution/tool_pipeline.py:204-242 | a tool that rolls back once and succeeds: the caller gets EXECUTED and no row exists |
| ToolPipeline.ABrokenSessionLosesTheNextRow | forgemind/app/agents/developer/agent.py:381-388 | after a call that broke the session, with no rollback by the caller: a harmless tool runs and leaves no row |
| ToolPipeline.Pipeline.PersistAudit | forgemind/app/execution/tool_pipeline.py:244-271 | a rejected write is rolled back, marked failed and written again: one row either way, unless the second write fails too |
| ToolPipeline.Pipeline.RecordDenied | forgemind/app/execution/tool_pipeline.py:273-296 | a denied call leaves one denied row and never reaches the tool |
| ToolPipeline.InvokeAll | forgemind/app/execution/tool_pipeline.py:147-296 | over any sequence of calls, tools and verdicts, with callers that roll back or do not: call k has its row, at the status its caller was given, if and only if the session is usable at its entry and the call is audited; an EXECUTED row belongs to a call whose tool ran without raising; nothing else is in the table but rows that a failed call's tool committed itself |
| TextScrub.CleanIffWellFormed | forgemind/app/repository/file_access.py:35-37 | the regular expression's look at neighbours finds a problem exactly when the text cannot be read as scalar values and surrogate pairs (compare section 8.2 of RFC 8259) |
| TextScrub.PairsAreTheRest | forgemind/app/repository/file_access.py:35-37 | the two ranges of the expression are the halves of the pairs that stand for the code points above U+FFFF, each of them and no others |
| TextScrub.ScrubChangesOnlyBadPositions | forgemind/app/repository/file_access.py:40-54 | the length is kept and a position becomes U+FFFD exactly when it holds U+0000 or a lone surrogate; replacing NUL first makes no difference |
| TextScrub.ScrubbedIsWellFormed | forgemind/app/repository/file_access.py:40-54 | no NUL is left and every surrogate belongs to an adjacent pair |
| TextScrub.ScrubIsIdentityIffWellFormed | forgemind/app/repository/file_access.py:40-54 | the scrub is the identity exactly on well-formed text, and idempotent |
| JsonScrub.RedactIsIdempotent | forgemind/app/execution/tool_pipeline.py:69-82 | redacting twice is redacting once |
| JsonScrub.SanitizeIsIdempotent | forgemind/app/execution/tool_pipeline.py:85-99 | scrubbing a tree twice is scrubbing it once |
| JsonScrub.PassesCommute | forgemind/app/execution/tool_pipeline.py:69-99 | the order of redaction and scrub makes no difference |
| JsonScrub.RedactionByPath | forgemind/app/execution/tool_pipeline.py:69-82 | at any depth the value under a sensitive key is the redaction text and nothing is left below it; all other paths lead where they led |
| JsonScrub.RedactionShowsExactlyTheRest | forgemind/app/execution/tool_pipeline.py:69-82 | two trees have the same redaction if and only if no path outside the sensitive keys tells them apart: nothing leaks and nothing else is lost |
| JsonScrub.ScrubByPath | forgemind/app/execution/tool_pipeline.py:85-99 | the shape, keys included, stays; only text leaves change, each on its own |
| JsonScrub.ScrubIsIdentityIffLeavesAre | forgemind/app/execution/tool_pipeline.py:85-99 | a tree is left unchanged exactly when all its text leaves are well-formed |
| JsonScrub.StoredFormIsStorableIff | forgemind/app/execution/tool_pipeline.py:85-99 | the stored form can be written if and only if, outside the sensitive subtrees, no key is malformed and no number is a not-a-number or an infinity |
| JsonScrub.MalformedKeyCannotBeStored | forgemind/app/execution/tool_pipeline.py:85-93 | a NUL in a key survives both passes, contrary to the documented promise |
| Worktrees.AtMostOneActiveRow | forgemind/app/git/worktree_manager.py:45-190 | in every interleaving of creators and current discards, active rows and creators past `git worktree add` number one exactly when the branch exists, so never two active rows |
| Worktrees.CreatorsKeepTheMutex | forgemind/app/git/worktree_manager.py:45-93 | no step of any creator breaks that |
| Worktrees.DiscardKeepsTheMutexIff | forgemind/app/git/worktree_manager.py:95-146 | a discard keeps it exactly when its row is active or there is no branch |
| Worktrees.AStaleDiscardBreaksTheLock | forgemind/app/git/worktree_manager.py:95-146 | from any resting state with an old row, a discard of it between two creators ends with two active rows |
| Worktrees.EveryoneGetsTheSameRow | forgemind/app/git/worktree_manager.py:148-190 | without discards, all creators that return have the same row, the only one |
| Worktrees.GivesUpIff | forgemind/app/git/worktree_manager.py:171-183 | in every state that keeps the lock, the last reload fails if and only if another creator is between `git worktree add` and its insert, or there is no branch any more |
| Worktrees.GivesUpAfterTwoReloads | forgemind/app/git/worktree_manager.py:169-183 | in every run, a creator has given up exactly when two of its own reloads found no row: one failed try is always followed by another |
| Worktrees.TheRetryFindsTheRow | forgemind/app/git/worktree_manager.py:158-183 | a creator whose first reload found nothing has the winner's row two steps later, if the winner inserted before its next look |
| Worktrees.FirstLookSuffices | forgemind/app/git/worktree_manager.py:162-164 | a creator that comes to a task with a worktree has it after its first look |
| Worktrees.OneTry | forgemind/app/git/worktree_manager.py:45-93 | an undisturbed try ends at the first of row, directory and branch in its way, and adds the worktree when there is none |
| Worktrees.NobodyGivesUpAlone | forgemind/app/git/worktree_manager.py:148-183 | over whole runs with current discards, whoever raised did so at a move at which another creator was in flight or the branch had been discarded |
| Worktrees.WithoutDiscardsAWinnerIsInFlight | forgemind/app/git/worktree_manager.py:158-183 | in runs without discards the last reload fails if and only if another creator is in flight |
| Worktrees.DiscardsCanDefeatACreator | forgemind/app/git/worktree_manager.py:95-183 | a run with two current discards in which a creator fails both tries and nobody else is in flight |
| Worktrees.ALoserCanFailSpuriously | forgemind/app/git/worktree_manager.py:158-183 | whenever the task has no worktree, two creators can be scheduled so that one fails both tries and the other succeeds |
| Worktrees.NineStepsAreEnough | forgemind/app/git/worktree_manager.py:162-183 | nine steps of its own bring every creator to an answer, whatever the others do |
| Worktrees.AloneIsAnUndisturbedRun | forgemind/app/git/worktree_manager.py:148-183 | what the sequential method returns is what an undisturbed run of the protocol ends with |
| Worktrees.DiscardThenRecreate | forgemind/app/git/worktree_manager.py:95-106 | discarding the active row and asking again gives a fresh worktree: the reset always works |
| Worktrees.WorktreeManager.Create | forgemind/app/git/worktree_manager.py:45-93 | creates exactly when no active row, directory or branch is there, and a refusal changes nothing |
| Worktrees.WorktreeManager.DiscardRow | forgemind/app/git/worktree_manager.py:95-146 | removes branch and directory by name and marks the row, whatever its status was |
| Worktrees.WorktreeManager.GetOrCreate | forgemind/app/git/worktree_manager.py:148-190 | undisturbed, it returns the active row, or a new one after one try, and raises after two exactly when leftovers without a row are in the way |
| Merge.CreateKeepsAgreement | forgemind/app/github/stub.py:95-141 | opening or reusing a pull request keeps the two indices in agreement and numbers unique |
| Merge.MergeKeepsAgreement | forgemind/app/github/stub.py:178-203 | marking a pull request merged keeps the two indices in agreement |
| Merge.StubGitHub.Create | forgemind/app/github/stub.py:95-141 | a branch that has a pull request is answered with it; otherwise a draft with a fresh number enters both indices |
| Merge.StubGitHub.Get | forgemind/app/github/stub.py:159-176 | the current pull request as the hooks show it, with nothing changed but the record of calls |
| Merge.StubGitHub.Squash | forgemind/app/github/stub.py:178-203 | marks the pull request merged under both keys, without a gate of its own |
| Merge.MergePrTool | forgemind/app/tools/github_tools.py:295-436 | the gates in order, each with its own denial; the row's merge state is set exactly when the merge was made |
| Merge.EveryRunIsSound | forgemind/app/tools/github_tools.py:295-436 | over any operations, forks set anew included: rows name existing pull requests with the base recorded, and merge calls and merged pull requests correspond one to one |
| Merge.MergesIff | forgemind/app/api/routes/tasks.py:363-477 | a merge request merges if and only if the task is completed on an approval, its latest pull request is in the repository that is still its fork and is allowed, was never merged by any row, and GitHub reports no conflict and the recorded base |
| Merge.DeniedLocally | forgemind/app/tools/github_tools.py:321-366 | a request is denied as already merged, not completed or not allowed exactly for the first of these that holds, and ends in an error exactly when none does and no fork is set |
| Merge.DeniedByGitHub | forgemind/app/tools/github_tools.py:368-419 | past these, it is denied as not found, not open, in conflict or drifted exactly for the first of these that holds, in terms of forks, earlier merges and what GitHub reports |
| Merge.MergedAtMostOnce | forgemind/app/tools/github_tools.py:295-436 | over any operations a pull request number is merged at most once, and the indices agree |
| Merge.EveryMergeIsEarned | forgemind/app/tools/github_tools.py:295-436 | every merge in a history was made by a call at which all those conditions held for the task whose pull request it was |

## Left out

- Prompts, HTTP, provider parsing, git, Redis, SQLAlchemy and subprocesses: replaced by arbitrary outcomes or a small state.
- The research, reviewer, security and debugger loops: weaker forms of the developer's loop; only their verdicts appear, as outcomes.
- Command and install policies, test-run parsing and path normalisation: single-branch checks over libraries; paths are compared as already normalised.
- The sweeps (`worker/worker.py:94-107`): they write without a row lock, so the results about interleavings do not cover them. The timeout handler (`worker/jobs/advance_task.py:51-65`) reads without a lock too; `Orchestration` takes its read and write to be one step, which the code does not enforce. Runs of the queue contain no crash, retry or deadline of a job.
- Reasons of transitions are a datatype and times are integers in microseconds; time zones are not modelled.
- Approvals and artifact rows are kept in the order they are written; two rows written at the same instant and then ordered by id are not modelled.
- EvidenceByQueue.PullRequestsAreEarned: holds as long as nothing but the bootstrap and the jobs themselves enqueues; the compare-and-swap looks at the status only and would let a second worker from an earlier round act, whose move is legal but whose evidence may be old.
- JobChain.OneJobPerTask: a job runs to its end; a crash, a retry by the queue, a deadline or a sweep would break the chain or start a second one.
- DeveloperLoop.ToolLoop: speaks of finite streams of replies, because an unparsable reply costs no budget and the source's loop need not end on an endless stream of them.
- Merge.MergesIff: GitHub is the stub, which gives each number out once over all repositories; that a pull request is not found in a changed fork rests on it. The pull request row's own status and the case of slugs are not modelled.
- Worktrees.AtMostOneActiveRow: a discard is one step, no creator crashes between `git worktree add` and its insert, and cloning succeeds; git failures for other reasons are not modelled.
- ToolPipeline.Pipeline.Invoke: between calls no audit row waits in a usable session, which every call keeps; latency, inputs and outputs of the row are reduced to a text, and name lookup and input validation have succeeded.
- Whether a key is sensitive is an arbitrary predicate on keys, so the results hold for the source's list and any other; duplicate keys, which JSON objects of the source cannot have, are allowed.
- Letter case in error texts is folded for ASCII only.
- The order in which sets are iterated is arbitrary, and lists that the source sorts for messages are sets here.
