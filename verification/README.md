# A verified model of pipeline runs, callback waits and the evidence journal

AOS runs declared pipelines that pause for people or for external callbacks, keep their progress in a
store, resume, and journal every action before it is taken. This project models that behaviour in
Dafny and proves what holds over whole runs: starts, pauses, decisions, callbacks, lost messages,
failed writes and crashes included.

| file | what it models |
|---|---|
| `Pipelines.dfy` | steps, their two names, three-valued conditions |
| `PipelineSafety.dfy` | the static check that a human approval precedes every dangerous tool |
| `DagExecution.dfy` | one segment of a DAG run: a goroutine per node, freely interleaved |
| `DagTask.dfy` | a DAG task over its pauses, decisions and resumptions |
| `DagApprovals.dfy` | what a DAG task can load and store before an approval |
| `DagCompletion.dfy` | what the analyst's completion does to the approvals of a DAG task |
| `DagChannels.dfy` | when a DAG task closes a channel twice |
| `DagProgress.dfy` | what a DAG task keeps of its progress between pauses |
| `LinearTask.dfy` | a linear task over its pauses, decisions, callbacks and crashes |
| `LinearOrder.dfy` | the order in which a linear task handles its steps |
| `LinearCompletion.dfy` | when the analyst's completion of a linear task drops a callback wait |
| `CallbackWaits.dfy` | callback waits between the API, a lossy bus, the store and two scans |
| `AuditChain.dfy` | the hash-chained journal, its verification, failure and reopening |
| `EvidenceShipper.dfy` | shipping the journal to a broker after a persisted cursor |
| `ExecutionManifest.dfy` | manifests, write-ahead of tool calls, verifying one execution |
| `Reproducibility.dfy` | evidence without secrets, and the version of a definition |
| `StepOutputs.dfy` | step outputs and what a resumed execution reads of them |
| `Recall.dfy` | the newest-first listing and the recall of recent executions |
| `RateLimiter.dfy` | the fixed-window limiter and its sliding-interval bound |
| `JsonValues.dfy` | values as JSON keeps them |

Each operation that changes state in the repository is a method of a class here, proved against a
specification function; the properties are lemmas about that function over every run. What the
function itself does is stated once more, case by case and on the fields and constants of the code, by
lemmas named `...Exactly` beside it. A component's
code is atomic per message, tick, request or node step; what the world answers (a tool's result, a
store or journal failure, a clock) is a parameter of the step. Hashes and digests are injective where
a statement needs it, and never otherwise.

## What the model says about the code

Some of the properties one would expect fail. For each of these the model has a run or an input that
shows it, and, unless the item says otherwise, the exact condition under which the property holds.

- The static check labels a step by id, tool or `step_<index>`; the DAG executor names it by id,
  `agent.<name>` or tool. An approval step without an id is therefore found by the check and not by the
  executor, and the payment behind it runs unapproved (`UnnamedGateIsNotWaitedFor`).
  `NamesAgreeExactly` says when the names agree.
- In a DAG a step with both an agent and a `human_approval` runs the agent and asks nobody, while
  the check counts it as an approval (`AgentGateIsNotAsked`). What counts for the executor are its own
  gates: `CallsAreApprovedExactly`.
- The analyst's completion records every step declared before the first analyst step as done, gates
  included. A decision that is queued then resumes the task past gates that nobody approved
  (`AcceptedPipelinePaysPastCompletion`, `AcceptedPipelinePaysPastOtherGate`).
  `CallsAreApprovedExactly` says which steps are safe from that: those that the completion lists, or
  that descend from a gate through steps it does not list, and those for which no completion that is
  resumed from can come before an approval. One can if an analyst step does not wait for such an
  approval, or if conditions can skip every gate with such a name once some gate has been asked, or
  once a journal failure has made the task start over.
- When a step on which a listed one depends is not listed and can fail, a resumption from the list
  closes a channel twice, and the process panics (`AcceptedPipelineClosesTwice`).
  `ChannelsCloseOnceExactly` says when no run does; a list that names a step twice panics at once. In
  such a pipeline even a listed payment can be made unapproved (`AcceptedPipelinePaysOverwritten`), so
  that the theorems on approvals ask that the list settles.
- What a DAG pause saved can be forgotten: a journal failure writes back what the segment had loaded,
  and so does a failed call after the record was deleted. `SavedStepIsCalledAgainExactly` says when a
  saved step is called again, and `SavedStepIsCalledAgain` is such a run.
- A linear step that hands out the callback credentials stores its wait before the call. When the
  process dies after the call, the callback counts the next step as done, whatever it is: a gate there
  is passed over (`AcceptedPipelinePaysUncleared`, and exactly when: `CallsAreClearedExactly`).
- That wait, and the wait of a conditional await step, can outlive the step they stand for, and their
  callback then runs later steps again, until the analyst writes the completion. `NoLeak` is exact.
- An approval does not clear the stored gate, so that a second approval that was queued meanwhile runs
  the steps after the gate again (`SecondApprovalRunsAgain`), until the completion clears the gate. It
  is excluded from orderly runs.
- A gate named `await_callback` is taken for approved by a linear run that still holds a stored wait
  (`GateNamedAwaitIsNotAsked`). `CallsAreClearedExactly` covers that name, too.
- The store drops an empty callback body (`omitempty`), so that an accepted empty callback protects
  neither from the deadline nor from a later callback with other data.
- Every await step of a task is given the first one's token, and a message left over from an earlier
  wait resumes a later one with its data (`ReusedTokenIsResumedWithOldData`, and exactly when:
  `UnansweredIsResumedExactly`). Two waits with one token can also be mixed up by the recovery scan
  (`NextScanResumesExactly`).
- A human decision is accepted at a callback wait, and drops the callback that the API had accepted
  (`DecisionDropsTheCallback`).
- The analyst's completion clears the token of whatever is stored. A wait that outlives its run, as
  when the await step is skipped, is gone with what the API accepted for it, though nobody decided
  anything (`SkippedAwaitIsDropped`, `CompletionDropsTheCallback`; exactly when:
  `CompletionDropsExactly`).
- The API reads the clock for its deadline check and again for the stamp. A callback stamped after the
  deadline is closed by it, though it was accepted (`LateStampExpires`; with one reading it would not
  be: `OneReadingIsInTime`).
- A failed write that leaves a whole record without its newline is accepted on reopening, and the next
  record is glued to it. From there on the journal is refused.
- The load that begins a run discards its error. A run without an execution journals none of its
  calls (`FailedLoadIsUnrecorded`, and exactly when: `CallsAreRecordedExactly`), and what it stores at
  a pause has no version, so that after a restart another definition goes on with the task
  (`DarkPauseLosesVersion`).
- A completion that meets a deleted record creates one without a version, and a decision that is
  queued makes the resumption journal a second manifest (`CompletionLosesVersion`, and exactly when:
  `VersionIsKeptExactly`).
- A task whose manifest could be saved but not journaled would, if it were handed over a second
  time, run without one (`SecondStartIsUnaccounted`). That it is handed over once is a hypothesis.
- Definitions are sanitized by key, and a tool's name is a key: how a tool with a secret-like name is
  defined does not reach the pipeline version.
- Two dotted step ids, or a tool named like a step's variables, can publish one variable with two
  values, and what a resumed run then reads depends on the iteration order of a map.
- A limit below one still admits one request per window.

## Model

| member | source | states |
|---|---|---|
| Pipelines.NamesAgreeExactly | internal/agent/verifier_dag.go:45-52 | the check's and the executor's names of a step are equal if and only if it has an id, or a tool and no agent (or a tool spelled like the agent's name) |
| Pipelines.NamesAgreeGiveOneGraph | internal/config/safety.go:59-62 | where all names agree the check and the executor work on the same graph, duplicates included |
| Pipelines.GraphsAreLastOfEachName | internal/agent/verifier_dag.go:43-59 | both graphs have exactly the names of the steps, each with the last step of that name |
| PipelineSafety.SearchGate | internal/config/safety.go:63-81 | the worklist search finds a gate if and only if a chain of known depends_on entries leads to one; it ends on cyclic declarations too |
| PipelineSafety.ApprovedBefore | internal/config/safety.go:49-82 | approval before a step, linear or DAG, in both directions |
| PipelineSafety.ValidatePipelineSafety | internal/config/safety.go:16-46 | refused are exactly the steps whose tool is known and dangerous, whose reason is white space only, and that no gate comes before, in the list or along depends_on; loading succeeds if and only if there are none |
| PipelineSafety.SafeExactly | internal/config/safety.go:27-40 | a pipeline loads if and only if a gate comes before each such step |
| PipelineSafety.UngatedIsRefused | internal/config/safety.go:27-40 | a dangerous tool that no gate precedes loads only with a reason that has a character other than white space |
| PipelineSafety.OthersAreNotRefused | internal/config/safety.go:27-31 | a pipeline whose tools only read or write is never refused |
| DagExecution.SuccessStays | internal/agent/verifier_dag.go:82-107 | once a node is a success no step of any goroutine changes that |
| DagExecution.StepKeepsInv | internal/agent/verifier_dag.go:77-376 | every atomic step of every goroutine keeps the segment's invariant |
| DagExecution.ClosesAtMostOnce | internal/agent/verifier_dag.go:61-68 | the only step that closes a channel finds it open |
| DagExecution.SomeNodeCanStep | internal/agent/verifier_dag.go:82-101 | no deadlock: with acyclic dependencies a node that has not returned leads to one that can step |
| DagExecution.StepShrinksWork | internal/agent/verifier_dag.go:77-378 | every step leaves less to do, so that the group's wait ends |
| DagExecution.EveryRunCanEnd | internal/agent/verifier_dag.go:77-378 | every configuration that satisfies the invariants has a schedule to its end |
| DagExecution.ReturnedHasFinalStatus | internal/agent/verifier_dag.go:82-107 | a returned node has the recursive status: it acts if all its dependencies succeeded, else its first failing one in declared order decides how it cascades |
| DagExecution.FinalExactly | internal/agent/verifier_dag.go:82-376 | that status, case by case: cascaded from the first dependency that is no success, skipped or failed where the condition does not let the step act, else what its own gate, call or tool made of it |
| DagExecution.UnevaluableGateIsKept | internal/engine/expression.go:45-54 | a gate whose condition cannot be evaluated never ends as skipped |
| DagExecution.UnevaluableActionNeverActs | internal/engine/expression.go:45-54 | any other step with such a condition is never acted on |
| DagExecution.EveryInterleavingEndsAlike | internal/agent/verifier_dag.go:77-378 | every complete interleaving ends in that status map with every channel closed once |
| DagExecution.DagExecutor.BuildNodes | internal/agent/verifier_dag.go:43-59 | the node map, a later step of the same name winning |
| DagExecution.DagExecutor.CloseCompleted | internal/agent/verifier_dag.go:61-68 | resuming marks and closes exactly the known completed steps, and panics exactly on a list that names one of them twice |
| DagExecution.DagExecutor.Advance | internal/agent/verifier_dag.go:79-375 | one node's step equals the specified one and leaves the other nodes alone |
| DagExecution.DagExecutor.Run | internal/agent/verifier_dag.go:75-392 | an unscheduled execution ends with every node's recursive status, and says whether the completion message is sent |
| DagExecution.DagExecutor.Verdict | internal/agent/verifier_dag.go:380-392 | the completion message is sent if and only if no node failed, paused or cascaded from a pause |
| DagTask.EveryCallIsApproved | internal/agent/verifier.go:527-578 | over all runs of starts, pauses, decisions, completions, crashes and resumptions, a call comes after the approvals, given while the task was stored at them, of all the gates it descends from, or, if the completion does not list it, of all those past the listed steps |
| DagTask.AcceptedDagIsSafe | internal/config/safety.go:49-82 | in an accepted DAG with agreeing names a guarded tool is called only after an approval of an ancestor gate, provided that no completion stands between them and its list settles |
| DagTask.AcceptedWithoutAnalystIsSafe | internal/config/safety.go:49-82 | without an analyst step the check alone is enough |
| DagTask.BringRegion | internal/agent/verifier.go:527-578 | any steps closed under depends_on can be brought to success by approvals, across pauses and crashes |
| DagTask.UnnamedGateIsNotWaitedFor | internal/agent/verifier_dag.go:45-52 | an accepted pipeline and a run that pays unapproved: the gate has no name for the executor |
| DagTask.AgentGateIsNotAsked | internal/agent/verifier_dag.go:141-195 | an accepted pipeline and a run that pays unapproved: the gate step names an agent |
| DagTask.PauseSavesClosedSet | internal/agent/verifier_dag.go:210-226 | a pause saves exactly what has succeeded, which holds what the segment had loaded and is closed under depends_on if that was |
| DagTask.DecisionExactly | internal/agent/verifier.go:527-578 | an approval resumes the task from exactly what is stored, at the stored gate; a rejection starts nothing, clears the gate and keeps the completed steps |
| DagTask.ApprovalWasDecided | internal/agent/verifier.go:527-578 | in every run an approval of a gate comes from an approved decision that was processed while the task was stored at that gate |
| DagTask.CompletionExactly | internal/agent/analyst.go:254-261 | the completion clears the stored gate and replaces the completed steps by the listed ones, if there are any |
| DagTask.CrashExactly | internal/agent/verifier.go:527-578 | after a crash nothing but another decision goes on with a stored task |
| DagTask.NoDoubleClose | internal/agent/verifier_dag.go:77-107 | over all runs no goroutine closes a closed channel, and each channel is closed when a segment ends, if the completion's list settles |
| DagCompletion.CallsAreApprovedExactly | internal/config/safety.go:59-81 | a tool step is called only after an approval of an ancestor gate, in every run, if and only if it has one in the executor's graph, and no completion stands between them, or none that is resumed from can come before such an approval: decided on the graph |
| DagCompletion.AcceptedDagIsSafeExactly | internal/config/safety.go:49-82 | what the static check's acceptance of a DAG means for a guarded tool step, exactly |
| DagApprovals.CertainSucceeds | internal/agent/verifier_dag.go:380-392 | in a segment that ends as completed every step has succeeded that no condition outside what was loaded could keep from running, gates included |
| DagApprovals.RunKeepsApart | internal/agent/verifier.go:527-578 | where no such completion can come first, in every run before an approval the analyst is not told, or the task can never be resumed |
| DagCompletion.ReachCompletion | internal/agent/verifier_dag.go:82-136 | otherwise a run comes to a completion before any approval above the step, a decision being queued: past an analyst step, past skipped gates, or after starting over |
| DagCompletion.CompletionRunsUnapproved | internal/agent/analyst.go:235-289 | from such a completion a run calls the step with no approval of a gate above it |
| DagCompletion.AcceptedPipelinePaysPastCompletion | internal/agent/analyst.go:235-289 | an accepted pipeline and a run that pays past a gate that was rejected and then skipped |
| DagCompletion.AcceptedPipelinePaysPastOtherGate | internal/agent/analyst.go:235-289 | an accepted pipeline and a run that pays past an unconditional gate, with two approvals of another gate and no failure |
| DagChannels.ChannelsCloseOnceExactly | internal/agent/verifier_dag.go:61-107 | no run closes a channel twice, if and only if whatever the listed steps descend from is listed or cannot fail, or the list names a step twice, or there is no gate |
| DagChannels.ResumedClosesTwice | internal/agent/verifier_dag.go:89-98 | in every graph, a resumption from a list with an unlisted ancestor that may fail can close a channel twice |
| DagChannels.AcceptedPipelineClosesTwice | internal/agent/verifier_dag.go:89-98 | an accepted pipeline and a run from its start that closes a channel twice |
| DagChannels.AcceptedPipelinePaysOverwritten | internal/agent/verifier_dag.go:89-98 | an accepted pipeline and a run that makes a payment, though the completion lists it, with no approval of its gate |
| DagProgress.HeldUnlessForgotten | internal/agent/verifier_dag.go:210-226 | over each event a saved step stays saved if and only if the event does not write steps that lack it |
| DagProgress.MoveWrites | internal/agent/verifier_dag.go:110-376 | what each step of a node leaves in the store: gate and completed steps, after a pause, a refused journal entry, a failed call or a missing tool |
| DagProgress.CalledAgainOnlyIfForgotten | internal/agent/verifier_dag.go:103-107 | over whole runs a saved step is called again only after such an event |
| DagProgress.SavedStepIsCalledAgainExactly | internal/agent/verifier.go:315-361 | from the resumption on, a run that goes well can call a saved step again if and only if the last write of the stored steps between the pause and the resumption lacked it |
| DagProgress.SavedStepIsCalledAgain | internal/agent/verifier.go:315-332 | a run in which a journal failure makes a saved step be called twice |
| LinearTask.EveryCallIsPastItsGates | internal/agent/verifier_linear.go:81-177 | over all runs with crashes and completions, a call comes after an approval, given while the task was stored at that gate, of every earlier gate that does not directly follow a step storing the callback wait, or after the gate's condition was evaluated to false; for a gate named like the wait, this gate or an earlier one, unless a run can come to it holding the wait |
| LinearTask.ClearedExactly | internal/agent/verifier_linear.go:90-94 | in every run the log calls a gate cleared if and only if an approval was processed while the task was stored at it, or an iteration at it evaluated its condition to false |
| LinearTask.UnevaluableGateIsKept | internal/engine/expression.go:45-54 | an iteration at a gate whose condition cannot be evaluated resumes through it if the execution holds its name, and otherwise stops there |
| LinearTask.UnevaluableActionIsSkipped | internal/engine/expression.go:45-54 | any other step with such a condition is skipped, or the run ends there if the skip cannot be journaled |
| LinearTask.CallsAreClearedExactly | internal/agent/verifier_linear.go:334-357 | a reachable step is called only past a cleared gate, in every run, if and only if some gate before it is binding: it does not directly follow a step that stores the callback wait, and is not named like the wait where a run can come to it holding the wait |
| LinearTask.AcceptedLinearIsSafeExactly | internal/config/safety.go:50-57 | what the static check's acceptance means for a guarded step, exactly |
| LinearTask.AcceptedPipelinePaysUncleared | internal/agent/verifier_linear.go:334-357 | an accepted pipeline and a run that pays past no cleared gate |
| LinearTask.GateNamedAwaitIsNotAsked | internal/agent/verifier_linear.go:132-136 | an accepted pipeline and a run that passes a gate named await_callback unapproved, and pays |
| LinearTask.GatesAreNeverSkippedExactly | internal/agent/verifier_linear.go:334-357 | no run moves past an unhandled gate if and only if no reachable step that stores the callback wait is directly followed by a gate |
| LinearTask.RefusalIsStored | internal/agent/verifier.go:315-332 | whenever the journal refuses an entry the run ends, and what is stored waits neither for a decision nor for a callback, with exactly these steps done |
| LinearTask.PassesOrPausesExactly | internal/agent/verifier_linear.go:90-177 | else a skipped step and a gate that the execution holds are passed, the analyst is told, and any other gate, or a step that awaits the callback, is stored with the steps before it done |
| LinearTask.CallsExactly | internal/agent/verifier_linear.go:180-432 | and a call goes on, ends the run, or withdraws a wait it still holds, by what it is and how it ended |
| LinearTask.PreparesExactly | internal/agent/verifier_linear.go:332-336 | a wait is stored before a call if and only if it is a registry tool that a callback credential is handed to and a later step awaits the callback |
| LinearTask.PreparedExactly | internal/agent/verifier_linear.go:337-432 | what the store and the run hold after such a call, whether it crashes, fails, or returns |
| LinearTask.DecisionExactly | internal/agent/verifier.go:527-578 | an approval goes on behind the stored steps; a rejection leaves them stored, waiting for nothing |
| LinearTask.CallbackExactly | internal/agent/verifier.go:206-237 | a callback that is saved counts its step as done and takes the token away; the run goes on behind it if it was journaled |
| LinearTask.TimeoutAndCrashExactly | internal/agent/verifier.go:139-177 | a deadline leaves the task waiting for nothing, with its completed steps; a crash leaves what is stored and no message |
| LinearTask.CompletionExactly | internal/agent/analyst.go:254-261 | the completion leaves a task that waits for nothing, with the steps before the first analyst step done |
| LinearOrder.StepsRunInOrderExactly | internal/agent/verifier_linear.go:76-81 | all orderly runs handle the steps strictly in order, each once, if and only if no stored wait can outlive its step; and just then the stored prefix has the length handled wherever the task can be resumed |
| LinearOrder.SecondApprovalRunsAgain | internal/agent/verifier.go:572-577 | a run in which a second approval, before the completion is written, repeats the steps after a gate |
| LinearOrder.SkippedAwaitRunsAgain | internal/agent/verifier.go:216-217 | an orderly run in which a callback for a skipped await step, before the completion is written, repeats later steps |
| LinearCompletion.CompletionDropsExactly | internal/agent/analyst.go:254-261 | in an orderly run a completion can drop a stored callback wait, if and only if a run can come from a step that stores one, or from a conditional await step, to its end or to an analyst step with the wait stored |
| LinearCompletion.SkippedAwaitIsDropped | internal/agent/analyst.go:254-261 | an orderly run without any decision in which the completion drops the wait |
| LinearTask.SegmentIsRun | internal/agent/verifier_linear.go:81-470 | running a segment's loop is a run of the task |
| LinearTask.LinearExecutor.FindAwait | internal/agent/verifier_linear.go:30-58 | the last await step's index |
| LinearTask.LinearExecutor.RunToolStep | internal/agent/verifier_linear.go:332-432 | the tool branch, with the wait stored before the call |
| LinearTask.LinearExecutor.RunAgentStep | internal/agent/verifier_linear.go:180-217 | the agent branch |
| LinearTask.LinearExecutor.RunInternalStep | internal/agent/verifier_linear.go:257-321 | the internal tools: only a memory tool fails |
| LinearTask.LinearExecutor.FailTool | internal/agent/verifier_linear.go:497-507 | a failed call withdraws the wait stored for it |
| LinearTask.LinearExecutor.ExecuteLinear | internal/agent/verifier_linear.go:76-470 | the loop from the stored prefix equals the specified segment |
| CallbackWaits.ExactlyOneGuard | internal/agent/verifier.go:121-158 | past its deadline a tokened wait is due for exactly one of the two scans, and the handler resolves what the deadline scan leaves |
| CallbackWaits.NeverExpiresExactly | internal/agent/api_agent.go:434-443 | an accepted callback is never expired if and only if there is no deadline, or it is not empty and stamped by the deadline |
| CallbackWaits.EmptyCallbackIsForgotten | internal/state/manager.go:46 | a run in which an accepted empty callback is replaced by a later one |
| CallbackWaits.AtMostOneOutcome | internal/agent/verifier.go:193-237 | over all runs each wait is resumed, timed out, failed closed, decided, completed or cut off by a crash at most once, and not while it is stored |
| CallbackWaits.AcceptedCallbackIsNotLost | internal/agent/verifier.go:206-217 | stored callback data stays or becomes exactly what the task gets, unless a person decides or the analyst completes the task; in time, the deadline never closes it |
| CallbackWaits.FirstPayloadIsUsed | internal/agent/api_agent.go:434-449 | data that the API accepted first for a wait, if not empty, is what its task gets; and where no token is handed out twice a task gets no other |
| CallbackWaits.UsedIsFirstExactly | internal/agent/verifier.go:206-215 | a message resolves a wait with the data accepted first for it if and only if some was accepted that was not empty, or all was empty |
| CallbackWaits.UnansweredIsResumedExactly | internal/agent/verifier.go:193-215 | an unanswered wait can be resolved with data that was not accepted for it if and only if a message with its token is left over or another wait with it was answered |
| CallbackWaits.NextScanResumesExactly | internal/agent/verifier.go:121-135 | every fair scan gives an answered wait's task its data if and only if each other wait with the same token is answered as well |
| CallbackWaits.ReusedTokenIsResumedWithOldData | internal/agent/verifier_linear.go:42-50 | a run in which the second wait of a task is resumed with the first one's data |
| CallbackWaits.DecisionDropsTheCallback | internal/agent/api_agent.go:1010-1034 | a decision at a callback wait stores the wait anew without the accepted data |
| CallbackWaits.CompletionDropsTheCallback | internal/agent/analyst.go:254-261 | a run in which an accepted callback's message is lost and the completion drops its data |
| CallbackWaits.PostExactly | internal/agent/api_agent.go:400-452 | the first listed wait with the token whose deadline lies ahead takes the callback: its own data is sent on again if it has any, else the callback is stored and sent, or refused when it cannot be |
| CallbackWaits.PostRefuses | internal/agent/api_agent.go:400-452 | where there is no such wait, or the token is empty or too long, nothing changes |
| CallbackWaits.HandleExactly | internal/agent/verifier.go:193-237 | the first listed wait with the token that is not overdue is resolved, with its own data if it has any; what each outcome of the resolution leaves |
| CallbackWaits.HandleIgnores | internal/agent/verifier.go:193-237 | where there is no such wait nothing changes |
| CallbackWaits.DeadlineScanExactly | internal/agent/verifier.go:139-177 | after any run, a scan that lists each wait once closes exactly the overdue ones, up to a crash: each is gone with one outcome, timed out or failed closed, unless it could not be saved; all others are unchanged |
| CallbackWaits.RecoverLeaves | internal/agent/verifier.go:121-135 | the recovery scan leaves every wait alone whose token no listed wait has that was answered in time |
| CallbackWaits.DecidesExactly | internal/agent/verifier.go:527-578 | a decision ends the wait, and leaves a new one without data if the await step is run again, unless it is passed over |
| CallbackWaits.Desk.Send | internal/bus/bus.go:43-58 | a non-blocking send: appended while there is room, else dropped |
| CallbackWaits.Desk.PostCallback | internal/agent/api_agent.go:400-452 | the API handler over the listed executions equals the specified step, and changes nothing when it refuses |
| CallbackWaits.Desk.HandleMessage | internal/agent/verifier.go:193-237 | the verifier's handler equals the specified step |
| CallbackWaits.Desk.DecideOnWait | internal/agent/verifier.go:527-578 | a decision at a callback wait equals the specified step |
| CallbackWaits.Desk.PersistCompletion | internal/agent/analyst.go:235-267 | the completion equals the specified step |
| CallbackWaits.Desk.RecoverPendingCallbacks | internal/agent/verifier.go:121-135 | the recovery scan equals the specified step |
| CallbackWaits.Desk.ExpireAwaitingCallbacks | internal/agent/verifier.go:139-177 | the deadline scan equals the specified step, and DeadlineScanExactly says what that does |
| AuditChain.Verify | internal/audit/chain.go:251-281 | accepts exactly the chains, and else names the first line that breaks and the head before it |
| AuditChain.HeadDeterminesJournal | internal/audit/chain.go:251-290 | two accepted journals with one non-empty head are identical |
| AuditChain.JournalStaysAccepted | internal/audit/chain.go:94-142 | over all appends, failures, crashes and reopenings the terminated lines are an accepted chain, and an unfailed process holds exactly its length, head and trace heads |
| AuditChain.HashOfEveryTrace | internal/audit/chain.go:134-136 | over all those runs an unfailed process holds for each trace the hash of the last line of that trace |
| AuditChain.TraceHeadsExactly | internal/audit/chain.go:292-310 | the trace heads of any records: exactly the named traces, each with the hash of its newest record |
| AuditChain.LogExactly | internal/audit/chain.go:94-142 | what an append leaves in the file and in memory, and when it fails the process |
| AuditChain.FailureIsFinal | internal/audit/chain.go:97-99 | a failed process writes nothing any more, until the journal is reopened |
| AuditChain.ReopenRebuildsMemory | internal/audit/chain.go:71-92 | reopening gives exactly what an unfailed process held |
| AuditChain.UnterminatedRecordIsGlued | internal/audit/chain.go:123-132 | reopening and appending keeps the chain if and only if the file does not end in a whole record without its newline |
| AuditChain.UnterminatedIsReached | internal/audit/chain.go:123-127 | such a file is reached by the first failed write |
| AuditChain.FileChain.OpenChain | internal/audit/chain.go:71-92 | opening succeeds if and only if the file verifies, and rebuilds the memory |
| AuditChain.FileChain.LoadTraceHeads | internal/audit/chain.go:292-310 | every trace with a name, and no other, with the hash of its newest record |
| AuditChain.FileChain.LogEvent | internal/audit/chain.go:94-142 | an append equals the specified step for every outcome of the write |
| EvidenceShipper.CollectIsBatch | internal/audit/kafka_shipper.go:215-241 | a batch is exactly the complete records between the cursor and the next one, in order |
| EvidenceShipper.CollectFailsExactly | internal/audit/kafka_shipper.go:226-234 | a pass reads nothing if and only if it comes to an unreadable line before its limit of records |
| EvidenceShipper.CollectStops | internal/audit/kafka_shipper.go:215-241 | a batch ends at its limit, right behind its last record, or where no further line is complete |
| EvidenceShipper.ShipExactly | internal/audit/kafka_shipper.go:181-263 | one pass, for every answer: where it starts to read, also when the journal has become shorter, what the broker receives and acknowledges, and whether the cursor moves |
| EvidenceShipper.NothingLostNothingTorn | internal/audit/kafka_shipper.go:181-263 | over all appends and passes the cursor stands on a line boundary, each record before it was acknowledged, and nothing but complete lines was published |
| EvidenceShipper.TracesArriveInOrder | internal/audit/kafka_shipper.go:310-340 | where failed publishes deliver prefixes per key, first deliveries of each trace follow the journal |
| EvidenceShipper.DrainsInCeilPasses | internal/audit/kafka_shipper.go:215-262 | n outstanding records drain in ceil(n / BatchSize) successful passes and no fewer |
| EvidenceShipper.ChainCountsUp | internal/audit/chain.go:251-281 | the records of a journal that Verify accepts count up from one along its lines |
| EvidenceShipper.CursorCountsRecords | internal/audit/kafka_shipper.go:240 | on such a journal the cursor's sequence is the number of records before its offset |
| EvidenceShipper.KafkaShipper.ReadBatch | internal/audit/kafka_shipper.go:215-241 | the reading loop equals the specified batch, refusals included |
| EvidenceShipper.KafkaShipper.ShipOnce | internal/audit/kafka_shipper.go:181-263 | one pass equals the specified step for every failure |
| ExecutionManifest.CheckRecord | internal/audit/chain.go:205-236 | one record is accepted if and only if its digests fit and it does not contradict the version found |
| ExecutionManifest.VerifyExecution | internal/audit/chain.go:179-243 | accepts exactly the traces of a valid chain with a manifest, one version and fitting digests, and counts their calls |
| ExecutionManifest.AccountsExactly | internal/audit/chain.go:205-236 | a trace is accounted for if and only if each of its records carries the digests of its own fields, all manifests one version, and there is a manifest |
| ExecutionManifest.CallsExactly | internal/audit/chain.go:224-229 | the calls are the records of the trace with which a tool started |
| ExecutionManifest.CallsAreAccountedFor | internal/agent/verifier.go:262-306 | over all runs the calls made, but for those of runs whose load failed, are in the journal after the manifest, and all manifests carry one version, provided that a task whose version was lost is resumed with the definition first saved |
| ExecutionManifest.CallsAreRecordedExactly | internal/agent/verifier_linear.go:63-69 | whatever calls follow at any time of a run, as many are recorded as were made, if and only if no load that began a run failed |
| ExecutionManifest.VersionIsKeptExactly | internal/agent/analyst.go:244-246 | at every time of a run the store has the version first saved, if and only if no completion met a deleted record, and no run without an execution, or with one without a version, was paused |
| ExecutionManifest.FailedLoadIsUnrecorded | internal/agent/verifier.go:247-250 | a run whose load fails makes a call of which the journal has nothing |
| ExecutionManifest.CompletionLosesVersion | internal/agent/analyst.go:244-246 | a run in which the completion creates a record without a version, and a second manifest is journaled |
| ExecutionManifest.DarkPauseLosesVersion | internal/agent/verifier_dag.go:228-243 | a run, with a failed load and a restart, whose execution does not verify, as its manifests carry two versions |
| ExecutionManifest.VerifyRun | internal/audit/chain.go:179-243 | verifying any such run with a call succeeds, with its version and at least as many calls as were made and granted with an entry |
| ExecutionManifest.ResumedDefinitionIsRecorded | internal/agent/verifier.go:262-297 | a running definition is the very one in the manifest |
| ExecutionManifest.SecondStartIsUnaccounted | internal/agent/verifier.go:274-296 | a start whose manifest was not journaled, a new process and a second start end in a call without manifest |
| ExecutionManifest.EnsureExactly | internal/agent/verifier.go:262-332 | a run begins if and only if its definition is the recorded one, or nothing is recorded and its manifest was saved and journaled; else what is stored waits for nothing |
| ExecutionManifest.CallExactly | internal/agent/verifier_linear.go:247-255 | a call goes ahead once it is journaled, or at once without an execution; when the journal refuses it or its result the run ends, with its execution stored and waiting for nothing |
| ExecutionManifest.DecisionExactly | internal/agent/verifier.go:527-578 | what an approval or a rejection leaves, whether it could be saved or not |
| ExecutionManifest.CallbackExactly | internal/agent/verifier.go:206-237 | a saved callback ends the wait, and the task is resumed only if it was journaled |
| ExecutionManifest.PauseAndCompletionExactly | internal/agent/analyst.go:235-267 | a pause stores the version that the run holds; the completion keeps the stored one, and waits for nothing |
| ExecutionManifest.TaskRun.EnsurePipelineManifest | internal/agent/verifier.go:262-297 | refuses, resumes or starts as specified |
| ExecutionManifest.TaskRun.StartCall | internal/agent/verifier_linear.go:247-255 | a call goes ahead if and only if it was journaled, or the run holds no execution |
| ExecutionManifest.TaskRun.FailAuditExecution | internal/agent/verifier.go:315-332 | ends the run and the wait, and stores the execution at hand |
| ExecutionManifest.TaskRun.SavePause | internal/agent/verifier_dag.go:228-247 | stores what the run holds, or a record without a version, or deletes it |
| ExecutionManifest.TaskRun.PersistCompletion | internal/agent/analyst.go:235-267 | the completion equals the specified step |
| Reproducibility.SanitizedAlikeExactly | internal/audit/reproducibility.go:93-119 | two values leave the same evidence if and only if they differ in nothing but secrets, at any depth |
| Reproducibility.SanitizedStays | internal/audit/reproducibility.go:93-119 | sanitizing is idempotent |
| Reproducibility.SecretKeyExactly | internal/audit/reproducibility.go:97-102 | a key is secret if and only if it contains one of six words, in any case and with dashes or spaces, or is private_key |
| Reproducibility.LinkKeyExactly | internal/audit/reproducibility.go:103-106 | a string is cleaned as a URL if and only if its key is one of three words, in any case and with dashes or spaces |
| Reproducibility.KeptAtEveryPath | internal/audit/reproducibility.go:93-119 | whatever no secret key leads to is kept at its place, at any depth, only URLs being cleaned |
| Reproducibility.RedactedAtEveryPath | internal/audit/reproducibility.go:97-102 | the first secret key on a path has its whole value replaced |
| Reproducibility.BuildPipelineSnapshot | internal/audit/reproducibility.go:27-51 | the loop collects exactly the configured definitions that the steps name |
| Reproducibility.SnapshotExactly | internal/audit/reproducibility.go:25-51 | a snapshot is the pipeline and exactly the configured tools and agents that its steps name, sanitized |
| Reproducibility.SameVersionExactly | internal/audit/reproducibility.go:25-51 | under two configurations two pipelines have one version if and only if they and the definitions their steps name differ in nothing but secrets |
| Reproducibility.OtherDefinitionsDoNotMatter | internal/audit/reproducibility.go:29-42 | definitions that no step names do not change the snapshot |
| Reproducibility.SecretNamedToolIsUnseen | internal/audit/reproducibility.go:97-102 | a tool with a secret-like name can be redefined without changing the snapshot |
| StepOutputs.RestoredExactlyWhenSole | internal/agent/step_outputs.go:27-47 | a resumed run reads a recorded output in every map order if and only if no other entry publishes another value under its name |
| StepOutputs.ResumedRunSeesOutputs | internal/agent/step_outputs.go:10-47 | with dot-free ids a resumed run reads what each step put out, though others called the same tool |
| StepOutputs.RunningReadsTheSame | internal/agent/step_outputs.go:22-24 | the run that did not pause reads the same |
| StepOutputs.DottedIdsClash | internal/agent/step_outputs.go:34-41 | with dotted ids it depends on the order |
| StepOutputs.ToolNamedLikeStepsClashes | internal/agent/step_outputs.go:43-45 | and so it does with a tool named like a step's variables |
| StepOutputs.TaskResults.RecordStepOutput | internal/agent/step_outputs.go:10-25 | keeps the output under the step's id and publishes each of its entries |
| StepOutputs.TaskResults.RestoreResultVars | internal/agent/step_outputs.go:27-47 | the nested loops publish all groups in some order of both maps |
| StepOutputs.TaskResults.PublicResults | internal/agent/step_outputs.go:51-55 | everything but the per-step copies |
| Recall.SortNewestFirst | internal/state/manager.go:162-168 | the exchange sort gives a newest-first permutation, in place |
| Recall.ListExecutionStates | internal/state/manager.go:144-171 | the readable executions of the listed keys, newest first |
| Recall.ReadableCounts | internal/state/manager.go:144-160 | each execution is listed as often as a listed key leads to it |
| Recall.BuildRecall | internal/agent/recall.go:31-79 | the first matching executions up to the cap, as the loop finds them |
| Recall.MatchingCounts | internal/agent/recall.go:32-46 | which executions match does not depend on their order |
| Recall.FirstAreMostRecent | internal/agent/recall.go:11-79 | min(10, matches) executions, newest first, each at least as new as every match left out |
| Recall.Recall | internal/agent/recall.go:20-80 | so does recalling from any store in any listing order |
| Recall.RecalledExactly | internal/agent/recall.go:20-80 | at most ten executions of the user, or without one of the session, none of them the current one or a system's; a stored one that is left out gives way to ten at least as new |
| RateLimiter.Limiter.AcquireRL | internal/agent/api_agent.go:180-199 | a request's answer and the buckets after it |
| RateLimiter.SlidingIntervalBound | internal/agent/api_agent.go:180-199 | on a non-decreasing clock any half-open window-long interval admits at most 2 x limit - 1 requests of a key |
| RateLimiter.BoundIsReached | internal/agent/api_agent.go:191-197 | for every limit and every window of at least two ticks a history reaches the bound |
| RateLimiter.RefusalChangesNothing | internal/agent/api_agent.go:191-197 | a refused request changes no later answer |
| RateLimiter.LaterIsAdmitted | internal/agent/api_agent.go:185-190 | on a non-decreasing clock a request that comes a window or more after every earlier admitted one of its key is admitted |
| RateLimiter.RefusalIsEarned | internal/agent/api_agent.go:191-193 | on such a clock a request is refused only if a full limit of its key was admitted within the last window |
| RateLimiter.OtherKeysDoNotMatter | internal/agent/api_agent.go:181-189 | a request's answer depends on its own key's requests only |

## Left out

- Hypotheses of the task models: `depends_on` is acyclic, a gate is identified by its name, and what one message, tick, request or node step does is atomic (the code loads, modifies and saves without a version check, so that the API and the verifier can overwrite each other's writes; the API can also accept a callback while the verifier still runs the step that hands out its token).
- DagCompletion.CallsAreApprovedExactly: where the completion's list does not settle, nothing is proved but that a run panics and that a listed payment can be made unapproved. A failing save of the completion is left out.
- LinearOrder.StepsRunInOrderExactly: orderly runs have no crash, and no decision that was queued before the task was resumed; LinearCompletion.CompletionDropsExactly is about the same runs.
- LinearTask.EveryCallIsPastItsGates: a linear task's decisions are not required to have been posted at a stored gate, so that the runs include more than the API lets through; the runs that show a failure post theirs at a pause.
- A failing load at the start of a segment, in the DAG and linear models: such a run starts over from the first step, with neither its progress nor its gate, so that what they say of order and progress does not cover it (the manifest model has it). Failing saves inside `failAuditExecution` and `failTool`, and the refusal of a resumption by the manifest, are not in these two models either.
- Whether parallel gates are all eventually asked, and a DAG tool that still runs when another branch pauses and is then run again: the code promises nothing.
- Outcomes of other goroutines on a node: that a journal failure elsewhere empties the loaded gate is a flag of a node's own outcome.
- ExecutionManifest.CallsAreAccountedFor: covers registry tools and agents; the internal tools (`system.*`, `workspace.generate_code`) are not covered, as some of their paths journal no start. A task is handed over by the planner once.
- EvidenceShipper.NothingLostNothingTorn: the journal is append-only; trimming white space, decoding a line and building its evidence are one uninterpreted reading of a line; replacing the cursor is atomic (the temporary file is not modelled), and the broker's order across keys is not modelled.
- AuditChain.Verify: SHA-256 and JSON text are an abstract hash of a record; the scanner's line limit and the wrap-around of a 64-bit sequence are not modelled.
- CallbackWaits.Desk.PostCallback: signatures, body limits and decoding are left out; a token's length is counted in characters.
- StepOutputs.TaskResults.RecordStepOutput: maps are values, so that the aliasing of one output under two keys is not captured; automatic casting of variables is left out.
- Reproducibility.SanitizedAlikeExactly: lower-casing a character and removing credentials from a URL are functions of the caller; the snapshot's four own keys are taken as they are, not sanitized.
- Recall.Recall: what is copied from an execution into a recalled record (facts, summary, error) is not modelled.
- HTTP routing, authentication, governance tables, LLM clients, prompts, intent detection, templates, the expression evaluator, tool transports, SQL and Redis stores, metrics, several audit sinks at once (`MultiLogger`), the event streams and the user interface.
