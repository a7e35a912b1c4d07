# Work groups with retry quotas, and two string permuters

This project models the core of the `org.softwareartisans` utilities and
proves properties of that model:

- **The completion-driven `Group` executor** (`util/workgroup`). It submits
  every task of a group to a fixed pool, collects completed futures one at a
  time, and hands each failed attempt to a retry worker. The worker asks the
  retry policy for permission and then either resubmits the task or records a
  fatal quota error and interrupts the collector. `GroupBuilder` numbers the
  groups.
- **The retry policy.** `ImmediateCounting` has three quotas, checked in the
  order global, group, task, with limits 20, 10 and 2. `RetrierDecorator`
  forwards each call, and `TimedRetrierDecorator` adds a 1 ms backoff after a
  retry is allowed.
- **The round-based `WorkGroup`** (`exemplars`). It runs up to three rounds of
  `invokeAll` over the incomplete callables and matches the k-th future to the
  k-th incomplete task.
- **The sequencers.**
  - `util/workgroup`: `Distributor` and `Space`.
  - `exemplars`: `Distributor` and `WorkGroupDistributor`.
  Each runs its groups in order with increasing group indexes and stops at the
  first exception.
- **The recursive string permuters** `Permuter` and `Permutor`, together with
  their `main` report, a `TreeSet` of the distinct permutations and their count.

## How the model is built

Each imperative class of the source is a Dafny `class` with the same fields,
and its methods are proved against functions on an abstract state:

| class | abstract view | spec function |
|---|---|---|
| `Group` | `Abs()` | `GroupSpec.Collect`, `GroupSpec.ProcessGroupSpec` |
| `WorkGroup` | `TaskStates()` | `WorkGroups.Rounds` |
| `ImmediateCounting` | `State()` | `RetryPolicy.RetryStep` |

The properties are proved as lemmas about those functions.

Java statics become small objects that the caller shares:

- `RetryCounts` holds the policy's two static maps.
- `RetryExceptionFlag` holds `Group.isRetryExceptionSet`.
- `GroupIndexCounter` holds the builder's `AtomicInteger`.

Exceptions become outcome datatypes: `RetryOutcome`, `LoopExit`,
`GroupOutcome`, `WorkGroupOutcome` and `WorkOutcome`.

Threads are replaced by the environment:

- A `Group` run is driven by a sequence of completion events. Each event names
  the future that `take()` hands back and whether its callable returned a value
  or threw.
- A retry worker runs synchronously in the step that dispatches it.
- The futures of a `WorkGroup` round are given by a function
  `outcome(round, k)`.
- The sequencers take the processing of one group as a function from the
  group, its index and the shared context to a result or an exception.

### Behaviour the proofs make explicit

- **The global quota fires once.** The global check compares the count
  before the increment with the limit using `==`, so it fires on the 21st
  call of an instance and on no other call (`GlobalFailsOnlyAtLimit`). Calls 22 onwards
  pass the global check.
- **The global count belongs to one group.** Each `Group` builds its own
  `ImmediateCounting`, so the global count covers one group, not the whole
  process. The task and group maps are static and shared by every group, and
  task counts are keyed by task id alone, so tasks with the same id in
  different groups share one counter (`TaskCounterSharedAcrossGroups`). The
  model follows the code here. The field name `globalRetryCount` and the
  message "Global retries exceeded limit"
  (`util/workgroup/retry/ImmediateCounting.java`, lines 56-61) suggest a count
  for the whole process that fires whenever the limit is exceeded, but neither
  is what the code does.
- **A later group throws null.** `isRetryExceptionSet` is static and never
  reset, so after one group in the process has stored a quota error, a later
  group's fatal retry stores nothing. That group's `processGroup` then executes
  `throw retryException` with a null field: it ends in a NullPointerException,
  not in its quota error, and it does so exactly when its collector was
  interrupted (`LaterGroupThrowsNull`).
- **A `Group` processes once.** The `finally` of `processGroup` shuts both
  pools down. A second `processGroup` on a group with tasks is rejected at its
  first `ecs.submit`, before any future is recorded (`ProcessGroupErrors`).
  While the collector is still blocked in `take()` the call has not returned,
  so the pools stay open.
- **`WorkGroupDistributor` numbers its groups from 1.** It reads the index from
  `iter.nextIndex()` after `iter.next()`, so its first group gets index 1. Both
  `Distributor`s start at 0.
- **An exemplar distributor hands on a shut-down pool when reused.** Both
  exemplar distributors shut their pool down at the end of `doWork`, so a
  second `doWork` on the same instance passes a shut-down pool to its work
  groups. For `WorkGroupDistributor` that second call fails on its first
  non-empty work group, with the rejection from `invokeAll`
  (`ShutDownServiceRejects`). What `exemplars.Distributor` then does depends
  on the `Processor` implementation, whose `processGroup` is not part of this
  model.
- **The permuters keep duplicates.** Their `HashSet<StringBuilder>` never merges
  two builders, so an n-character input yields n! builders even when characters
  repeat (`PermutationsCount`). The `TreeSet` in `main` removes the duplicates.

### `Permuter` and `Permutor`

`Permutor` is the same algorithm as `Permuter` under other variable names
(`chars`, `newChars`, `oldPerms`, `newPerms`). The members cited for
`Permuter.java` below model both files, with this correspondence:

| Permuter.java | Permutor.java | member |
|---|---|---|
| `getPermutations`, lines 56-63 | `getPermutations`, lines 51-58 | `StringFun.GetPermutations` |
| `permute`, lines 65-85 | `permute`, lines 60-82 | `StringFun.Permute` |
| the loop in `permute`, lines 74-82 | the loop in `permute`, lines 70-78 | `StringFun.PrependEach` |
| `formStrings`, lines 87-95 | `formStrings`, lines 84-92 | `StringFun.FormStrings` |
| `main`, lines 38-54 | `main`, lines 34-49 | `StringFun.Report` |

## Model

| member | source | states |
|---|---|---|
| RetryPolicy.Bumped | org/softwareartisans/util/workgroup/retry/ImmediateCounting.java:79-93 | one retry of an id adds that id to the map if it was missing and raises its count by one; every other id keeps its count |
| RetryPolicy.RetryStep | org/softwareartisans/util/workgroup/retry/ImmediateCounting.java:50-93 | the global count always goes up by one; the global check fails exactly when the old count equals 20; the group count rises and fails at 10 earlier retries; the task count rises and fails at 2 earlier retries; a failing check leaves the later counters untouched; the error names both ids |
| RetryPolicy.RunRaisesGlobal | org/softwareartisans/util/workgroup/retry/ImmediateCounting.java:56-62 | a run of calls raises the global count by exactly the number of calls, whatever the outcomes |
| RetryPolicy.GlobalFailsOnlyAtLimit | org/softwareartisans/util/workgroup/retry/ImmediateCounting.java:56-62 | the k-th call of a run fails the global check if and only if the count before the run plus k equals 20 |
| RetryPolicy.RunOnlyGrows | org/softwareartisans/util/workgroup/retry/ImmediateCounting.java:79-93 | no sequence of retries lowers or removes any counter |
| RetryPolicy.TaskCounterSharedAcrossGroups | org/softwareartisans/util/workgroup/retry/ImmediateCounting.java:71-77 | retries of task t from two groups raise one shared counter by two; if t had one earlier retry, the second call fails the task check |
| RetryPolicy.RepeatedRetries | org/softwareartisans/util/workgroup/retry/ImmediateCounting.java:41-77 | on a fresh instance, repeated retries of one task give: calls 1-2 pass, calls 3-10 fail the task check, call 21 fails the global check, every other call from 11 on fails the group check; it also gives the exact counters after k calls |
| RetryPolicy.RetryCounts.constructor | org/softwareartisans/util/workgroup/retry/ImmediateCounting.java:36-37 | both static maps start empty |
| RetryPolicy.ImmediateCounting.constructor | org/softwareartisans/util/workgroup/retry/ImmediateCounting.java:34-38 | a new instance shares the given maps and starts its global count at 0 |
| RetryPolicy.ImmediateCounting.Retry | org/softwareartisans/util/workgroup/retry/ImmediateCounting.java:50-54 | the new counters and the outcome are those of `RetryStep` applied to the old counters |
| RetryPolicy.ImmediateCounting.CheckGlobalRetries | org/softwareartisans/util/workgroup/retry/ImmediateCounting.java:56-62 | post-increment: the count goes up by one, and the call fails exactly when the old count equals the limit |
| RetryPolicy.ImmediateCounting.CheckGroupRetries | org/softwareartisans/util/workgroup/retry/ImmediateCounting.java:64-69 | the group map is bumped for the group id and the task map is unchanged; the call fails exactly when the old count is at least 10 |
| RetryPolicy.ImmediateCounting.CheckTaskRetries | org/softwareartisans/util/workgroup/retry/ImmediateCounting.java:71-77 | the task map is bumped for the task id and the group map is unchanged; the call fails exactly when the old count is at least 2 |
| RetryPolicy.ImmediateCounting.IsRetryLimitReached | org/softwareartisans/util/workgroup/retry/ImmediateCounting.java:79-93 | an unseen id is stored as 1 and a seen id as its count plus one; other ids are kept; the result is true iff the new count exceeds the limit |
| RetrierDecorators.RetrierDecorator.constructor | org/softwareartisans/util/workgroup/retry/RetrierDecorator.java:6-8 | the decorator wraps the given retrier |
| RetrierDecorators.RetrierDecorator.Retry | org/softwareartisans/util/workgroup/retry/RetrierDecorator.java:10-13 | forwards both ids unchanged; the counters and the outcome are exactly the wrapped retrier's |
| RetrierDecorators.TimedRetrierDecorator.constructor | org/softwareartisans/util/workgroup/retry/TimedRetrierDecorator.java:33-35 | wraps the retrier through the base decorator, with no time waited yet |
| RetrierDecorators.TimedRetrierDecorator.Retry | org/softwareartisans/util/workgroup/retry/TimedRetrierDecorator.java:37-44 | the policy decides as the wrapped retrier does; the 1 ms wait happens only when the retry passes, and an interrupted wait still returns normally |
| Tasks.Task.constructor | org/softwareartisans/util/workgroup/Task.java:43-47 | a task keeps its id and callable, starts incomplete, and has a null result |
| Tasks.Task.SetResult | org/softwareartisans/util/workgroup/Task.java:39-41 | the result slot is overwritten and the completion flag is kept |
| Tasks.Task.SetComplete | org/softwareartisans/util/workgroup/Task.java:61-63 | the flag is set either way and the result is kept |
| Tasks.NoGuardOnTask | org/softwareartisans/util/workgroup/Task.java:39-63 | nothing guards a task: a second result replaces the first, and a complete task can be marked incomplete |
| GroupSpec.Initial | org/softwareartisans/util/workgroup/Group.java:70-81 | a new group has one incomplete task without a result per callable, nothing pending and no error |
| GroupSpec.FutureEntries | org/softwareartisans/util/workgroup/Group.java:108-113 | submission maps the handle start + i to task i, for every task and for no other handle |
| GroupSpec.SubmittedInv | org/softwareartisans/util/workgroup/Group.java:108-113 | after submission every pending future belongs to an incomplete task, every task has exactly one pending future, and the bookkeeping invariant holds |
| GroupSpec.SetRetryException | org/softwareartisans/util/workgroup/Group.java:178-183 | once the static flag is set the state is unchanged; otherwise the error is stored and the flag is set |
| GroupSpec.Collect | org/softwareartisans/util/workgroup/Group.java:115-140 | the loop returns true iff every task is complete; an interrupted exit means the thread was interrupted; a stored first error and the flag are never replaced; counters only grow; the task count is kept |
| GroupSpec.ConsumeInv | org/softwareartisans/util/workgroup/Group.java:120-132 | a taken future belongs to a valid task, and one loop iteration preserves the bookkeeping invariant |
| GroupSpec.ConsumeSuccessInv | org/softwareartisans/util/workgroup/Group.java:123-131 | completing the future's task and removing the future keeps the invariant |
| GroupSpec.ConsumeFailureInv | org/softwareartisans/util/workgroup/Group.java:128-149 | a failed attempt either leaves exactly one new pending future for its task or interrupts the collector; the invariant holds either way |
| GroupSpec.CollectInv | org/softwareartisans/util/workgroup/Group.java:115-140 | from a valid state the collector keeps the invariant, never hits the unknown-task exception, and never changes an already complete task |
| GroupSpec.CollectExits | org/softwareartisans/util/workgroup/Group.java:115-140 | a normal exit leaves no pending future; an interrupted exit follows a fatal retry with the flag set; running out of events leaves some attempt in flight |
| GroupSpec.CollectInvFlag | org/softwareartisans/util/workgroup/Group.java:198-207 | the collector is interrupted only after the static flag was set, and a waiting exit is never interrupted |
| GroupSpec.ConsumeCommutes | org/softwareartisans/util/workgroup/Group.java:123-131 | two successful completions of different tasks give the same state in either order |
| GroupSpec.CompletionOrderIrrelevant | org/softwareartisans/util/workgroup/Group.java:115-140 | swapping two successful completions of distinct pending futures changes neither the final state nor the exit |
| GroupSpec.ProcessGroupOutcome | org/softwareartisans/util/workgroup/Group.java:94-106 | `processGroup` returns results iff every task completed; then there is one result per task, in task-id order, and every result is set |
| GroupSpec.ProcessGroupErrors | org/softwareartisans/util/workgroup/Group.java:94-113 | a thrown quota error names this group and is thrown only if no earlier group had set the static flag; a task id is never missing; the call is rejected exactly when the completion pool is already shut down and the group has tasks, and then nothing changes |
| GroupSpec.CollectFatalNamesGroup | org/softwareartisans/util/workgroup/Group.java:197-204 | every error the collector stores names the group being processed |
| GroupSpec.LaterGroupThrowsNull | org/softwareartisans/util/workgroup/Group.java:94-101 | once another group has set the static flag (lines 178-183), this group can never throw its own quota error, and it throws null exactly when its collector was interrupted |
| GroupSpec.TwoFailuresThenSuccess | org/softwareartisans/util/workgroup/Group.java:115-140 | a one-task group whose task fails twice and then succeeds returns that value |
| GroupSpec.ThreeFailuresAbort | org/softwareartisans/util/workgroup/Group.java:94-106 | a third failure of the same task trips the task quota, and the group throws the task-check error for task 0 of this group |
| GroupExecutor.RetryExceptionFlag.constructor | org/softwareartisans/util/workgroup/Group.java:68 | the static flag starts unset |
| GroupExecutor.GroupIndexCounter.constructor | org/softwareartisans/util/workgroup/Group.java:216 | the builder counter starts at 0 |
| GroupExecutor.Group.constructor | org/softwareartisans/util/workgroup/Group.java:70-81 | the callables become tasks numbered 0..n-1 in list order, as distinct fresh objects; the abstract state is `Initial`; a fixed pool of the builder's size and a cached retry pool are created |
| GroupExecutor.Group.ProcessGroup | org/softwareartisans/util/workgroup/Group.java:94-106 | the new state and the outcome are those of `ProcessGroupSpec`, given whether the completion pool was already shut down; both pools are shut down on every path by which the call returns, and stay as they were while the collector still waits |
| GroupExecutor.Group.ReturnOrThrow | org/softwareartisans/util/workgroup/Group.java:97-101 | the collector's exit decides the outcome as `Outcome` does: the results in task order on `true`, the stored error or null on `false`, the collector's own exception otherwise |
| GroupExecutor.Group.SubmitTasksForProcessing | org/softwareartisans/util/workgroup/Group.java:108-113 | on an open pool the new state is `Submitted` of the old: one fresh future per task, in task order; a shut-down pool rejects a group with tasks and nothing changes |
| GroupExecutor.Group.ProcessAsyncTaskResults | org/softwareartisans/util/workgroup/Group.java:115-140 | the new state and the exit are those of `Collect` on the old state and the events; neither pool is shut down |
| GroupExecutor.Group.TakeCompleted | org/softwareartisans/util/workgroup/Group.java:120-132 | for a known task the state becomes `Consume` of the old one; for an unknown id only the future leaves the map; the call reports whether the id was known |
| GroupExecutor.Group.CompleteTask | org/softwareartisans/util/workgroup/Group.java:124-127 | exactly the task with that id becomes complete with the value; every other task is unchanged |
| GroupExecutor.Group.HandleRetries | org/softwareartisans/util/workgroup/Group.java:143-149 | for a known task the state becomes that of running the retry worker; an unknown id changes nothing and is reported |
| GroupExecutor.Group.RunRetryWorker | org/softwareartisans/util/workgroup/Group.java:197-208 | a passing retry maps one new future to the same task; a failing one stores the first error and interrupts the collector |
| GroupExecutor.Group.SetRetryException | org/softwareartisans/util/workgroup/Group.java:178-183 | the flag ends set; the error is stored only if the flag was unset, so the first stored error is never replaced |
| GroupExecutor.Group.GetIncompleteTasks | org/softwareartisans/util/workgroup/Group.java:151-159 | lists exactly the incomplete tasks, in task-id order; the list is empty iff every task is complete |
| GroupExecutor.Group.GetTask | org/softwareartisans/util/workgroup/Group.java:161-168 | finds the task with that id iff 0 <= id < n; otherwise it is absent where the source throws |
| GroupExecutor.Group.GetResults | org/softwareartisans/util/workgroup/Group.java:170-176 | one entry per task, in task-id order, each the task's result |
| GroupExecutor.GroupBuilder.constructor | org/softwareartisans/util/workgroup/Group.java:221-223 | the builder takes the counter's current value as its group index and advances the counter by one; it starts with no callables and a pool size of 5 |
| GroupExecutor.GroupBuilder.AddCallable | org/softwareartisans/util/workgroup/Group.java:225-228 | appends the callable, keeps the pool size, and returns the same builder |
| GroupExecutor.GroupBuilder.ThreadPoolSize | org/softwareartisans/util/workgroup/Group.java:230-233 | sets the size, keeps the callables, and returns the same builder |
| GroupExecutor.GroupBuilder.Build | org/softwareartisans/util/workgroup/Group.java:235-237 | builds a group iff the pool size is positive; the group has the builder's index and one task per callable, in order, starts in `Initial`, and has both pools open |
| Pools.ExecutorPool.constructor | org/softwareartisans/util/workgroup/Group.java:78-79 | a new pool of the given kind is open and has handed out nothing |
| Pools.ExecutorPool.Submit | org/softwareartisans/util/workgroup/Group.java:110 | an open pool accepts the work and gives it a handle no earlier submission got; a shut-down pool rejects it and hands out nothing |
| Pools.ExecutorPool.InvokeAll | org/softwareartisans/exemplars/WorkGroup.java:93-94 | a batch is accepted iff the pool is open or the batch is empty |
| Pools.ExecutorPool.Shutdown | org/softwareartisans/util/workgroup/Distributor.java:64 | the pool is shut down and nothing else changes |
| WorkGroups.IncompletePositions | org/softwareartisans/exemplars/WorkGroup.java:101-109 | every listed position is an incomplete task |
| WorkGroups.IncompletePositionsComplete | org/softwareartisans/exemplars/WorkGroup.java:101-109 | every incomplete task is listed, in strictly increasing order; the list is empty iff all tasks are complete |
| WorkGroups.Futures | org/softwareartisans/exemplars/WorkGroup.java:93-94 | `invokeAll` returns one future per callable |
| WorkGroups.ApplyFuturesAt | org/softwareartisans/exemplars/WorkGroup.java:130-146 | the k-th future decides the task at the k-th incomplete position: that task is completed with the value on success and unchanged on failure |
| WorkGroups.ApplyFuturesOutside | org/softwareartisans/exemplars/WorkGroup.java:130-146 | a task no future is matched to keeps its state |
| WorkGroups.RunRoundEffect | org/softwareartisans/exemplars/WorkGroup.java:130-146 | a round leaves complete tasks alone and gives the k-th incomplete task the round's k-th future; every changed task is complete with a result |
| WorkGroups.RoundsOutcome | org/softwareartisans/exemplars/WorkGroup.java:88-99 | `Done` iff every task is complete, with the results in task order; giving up names the group after the retry count reached 3; a rejection happens only on a shut-down pool with work left; at most three rounds run |
| WorkGroups.RoundsKeepComplete | org/softwareartisans/exemplars/WorkGroup.java:111-120 | a task that was complete keeps its state, so it is never resubmitted |
| WorkGroups.DoneResultsPresent | org/softwareartisans/exemplars/WorkGroup.java:130-146 | a `Done` outcome has one set result per task |
| WorkGroups.AlwaysFailingGivesUp | org/softwareartisans/exemplars/WorkGroup.java:148-153 | if every future fails, the group gives up after exactly three rounds, with its tasks unchanged |
| WorkGroups.FailTwiceThenSucceed | org/softwareartisans/exemplars/WorkGroup.java:88-99 | a task that fails in rounds 0 and 1 and succeeds in round 2 gives `Done` with its value and a retry count of 2 |
| WorkGroups.WorkGroup.constructor | org/softwareartisans/exemplars/WorkGroup.java:57-63 | the callables become fresh, incomplete tasks numbered 0..n-1 in list order |
| WorkGroups.WorkGroup.GetInstance | org/softwareartisans/exemplars/WorkGroup.java:70-72 | a fresh work group with one fresh task per callable, in order, each incomplete with no result |
| WorkGroups.WorkGroup.ProcessGroup | org/softwareartisans/exemplars/WorkGroup.java:88-99 | the new task states, the retry count and the outcome are those of `ProcessWorkGroup` from the old task states, restarting at round 0 |
| WorkGroups.WorkGroup.InvokeRound | org/softwareartisans/exemplars/WorkGroup.java:93-94 | the round is rejected iff the pool is shut down and some task is incomplete; otherwise the tasks become `RunRound` of the old ones, and the round reports completion iff no task is left |
| WorkGroups.WorkGroup.GetIncompleteTasks | org/softwareartisans/exemplars/WorkGroup.java:101-109 | the tasks at the incomplete positions, in order |
| WorkGroups.WorkGroup.GetIncompleteCallables | org/softwareartisans/exemplars/WorkGroup.java:111-120 | the callables of the incomplete tasks, in task order |
| WorkGroups.WorkGroup.AreResultsComplete | org/softwareartisans/exemplars/WorkGroup.java:130-146 | the tasks become `ApplyFutures` of the old ones; the result is true iff no task is left incomplete |
| WorkGroups.WorkGroup.RecordResult | org/softwareartisans/exemplars/WorkGroup.java:137-139 | exactly the task at that position becomes complete with the result |
| WorkGroups.WorkGroup.CheckRetryPolicy | org/softwareartisans/exemplars/WorkGroup.java:148-153 | post-increment: the count goes up by one, and the call throws iff the old count equals the limit |
| WorkGroups.WorkGroup.GetResults | org/softwareartisans/exemplars/WorkGroup.java:122-128 | one entry per task, in original task order |
| Sequencing.InOrderCompleted | org/softwareartisans/util/workgroup/Distributor.java:54-60 | `doWork` completes iff every group returns; then there is one result per group, in input order, the k-th from the run with index first + k; a completed run never looks like a pool-size rejection |
| Sequencing.InOrderFirstFault | org/softwareartisans/util/workgroup/Distributor.java:54-62 | if the k-th group is the first to throw, `doWork` ends with its exception (an interrupt is wrapped), no later group runs, and the earlier results are dropped |
| Sequencing.RunInOrder | org/softwareartisans/util/workgroup/Distributor.java:54-62 | the loop and its `catch` clause give exactly `InOrder` |
| Distribution.DistributedOutcome | org/softwareartisans/util/workgroup/Distributor.java:50-68 | `doWork` fails on the pool size iff the size is not positive; when it completes, the k-th result is that of group k run with index k on the new open pool |
| Distribution.Distributor.constructor | org/softwareartisans/util/workgroup/Distributor.java:46-48 | keeps the pool size |
| Distribution.Distributor.DoWork | org/softwareartisans/util/workgroup/Distributor.java:50-68 | the outcome is `Distributed`; a pool exists iff the size is positive, and it is fresh, of that size, and shut down at the end |
| Distribution.Space.constructor | org/softwareartisans/util/workgroup/Space.java:37-40 | keeps the thread count and starts with no groups |
| Distribution.Space.AddWorkGroup | org/softwareartisans/util/workgroup/Space.java:42-44 | the group goes at the end of the list |
| Distribution.Space.Solve | org/softwareartisans/util/workgroup/Space.java:46-49 | the outcome is that of a new `Distributor` of `threads` threads over all groups, in the order they were added |
| Exemplars.Distributor.constructor | org/softwareartisans/exemplars/Distributor.java:45-48 | one fresh, open, fixed pool of the given size, and the timeout |
| Exemplars.Distributor.DoWork | org/softwareartisans/exemplars/Distributor.java:50-65 | the groups run in order from index 0 with the pool as it stood and the timeout; the pool is shut down afterwards |
| Exemplars.WorkGroupDistributor.constructor | org/softwareartisans/exemplars/WorkGroupDistributor.java:38-41 | one fresh, open, fixed pool of the given size, and the timeout |
| Exemplars.WorkGroupDistributor.DoWork | org/softwareartisans/exemplars/WorkGroupDistributor.java:43-60 | the work lists run in order from index 1, the iterator's `nextIndex()` after `next()`; the pool is shut down afterwards |
| Exemplars.ShutDownServiceRejects | org/softwareartisans/exemplars/WorkGroupDistributor.java:55-57 | once the pool is shut down, a later `doWork` on a non-empty first group ends with `invokeAll`'s rejection |
| StringFun.RemoveFirst | org/softwareartisans/util/exemplars/stringfun/Permuter.java:78 | `remove(c)` takes out one occurrence of c if there is one, and otherwise leaves the list unchanged |
| StringFun.PermutationsSound | org/softwareartisans/util/exemplars/stringfun/Permuter.java:65-85 | every produced string has the input's characters, each as often, and the input's length |
| StringFun.PermutationsFromSound | org/softwareartisans/util/exemplars/stringfun/Permuter.java:74-82 | every string produced by the loop is an arrangement of the input |
| StringFun.PermutationsComplete | org/softwareartisans/util/exemplars/stringfun/Permuter.java:65-85 | for a non-empty input, a string is produced iff it has the input's characters, each as often |
| StringFun.PermutationsFromComplete | org/softwareartisans/util/exemplars/stringfun/Permuter.java:74-82 | every arrangement that starts with a character the loop has still to visit is produced by the rest of the loop |
| StringFun.PermutationsCount | org/softwareartisans/util/exemplars/stringfun/Permuter.java:65-85 | n characters give n! builders, repeated characters included; the empty list gives none |
| StringFun.PermutationsFromCount | org/softwareartisans/util/exemplars/stringfun/Permuter.java:74-82 | iterations i..n-1 of the loop contribute (n - i) * (n - 1)! builders |
| StringFun.PermutationsFromStep | org/softwareartisans/util/exemplars/stringfun/Permuter.java:77-81 | one iteration: c is in the working list; removing it leaves n - 1 characters, and adding it back restores the multiset |
| StringFun.GetPermutations | org/softwareartisans/util/exemplars/stringfun/Permuter.java:56-63 | the target's characters, in order, are permuted: the result is `Permutations(target)` |
| StringFun.Permute | org/softwareartisans/util/exemplars/stringfun/Permuter.java:65-85 | the result is `Permutations(characters)` |
| StringFun.PrependEach | org/softwareartisans/util/exemplars/stringfun/Permuter.java:74-82 | the recursive-case loop, with its reused and reordered `newCharacters`, gives exactly `PermutationsFrom(characters, characters, 0)` |
| StringFun.FormStrings | org/softwareartisans/util/exemplars/stringfun/Permuter.java:87-95 | every builder gets the prefix in front, and the order is kept |
| StringFun.BelowIrreflexive | org/softwareartisans/util/exemplars/stringfun/Permuter.java:42-45 | the `TreeSet` order never puts a string before itself |
| StringFun.BelowTransitive | org/softwareartisans/util/exemplars/stringfun/Permuter.java:42-45 | the `TreeSet` order is transitive |
| StringFun.BelowTotal | org/softwareartisans/util/exemplars/stringfun/Permuter.java:42-45 | of two different strings, one comes before the other |
| StringFun.Insert | org/softwareartisans/util/exemplars/stringfun/Permuter.java:42-45 | `TreeSet.add` gives the old members plus x, and adds at most one element |
| StringFun.InsertAscending | org/softwareartisans/util/exemplars/stringfun/Permuter.java:42-45 | adding to an ascending set keeps it ascending |
| StringFun.SortedDistinct | org/softwareartisans/util/exemplars/stringfun/Permuter.java:42-53 | the listed strings are ascending and are exactly the produced ones; the count equals their number and is at most the number produced |
| StringFun.Report | org/softwareartisans/util/exemplars/stringfun/Permuter.java:38-54 | `main` lists each distinct arrangement of a non-empty target exactly once, in ascending order, with its count; it lists nothing for the empty string |

## Left out

- Threads, blocking and timing are not modelled.
  - The completion order of a `Group`'s futures is an input event sequence.
  - A retry worker runs at once, inside the step that dispatches it.
  - The futures of a `WorkGroup` round are an input function.
  - The race between a late retry worker and the collector is not modelled: the worker's resubmission, or its `interrupt()`, always lands before the next `take()`.
- Every pool is an abstract counter of handed-out futures plus a shut-down flag.
  - `shutdown` and `shutdownNow` are the same operation; the cancellation of running work is not modelled.
  - Submissions a group makes to a shared pool are not counted in the sequencers' pool view.
  - A `Group`'s two pools are shut down together or not at all (`PoolsInStep`). The constructor and `Build` establish this, and `ProcessGroup` requires and keeps it, because no other code shuts either pool down.
  - GroupExecutor.Group.TakeCompleted, GroupExecutor.Group.HandleRetries, GroupExecutor.Group.RunRetryWorker: require open pools. The collector only runs them while a task is incomplete, and a group with tasks only gets past submission on an open pool, so the rejection of `retryExecutor.submit` and of the worker's `ecs.submit` cannot arise.
- Time is not modelled.
  - `Thread.sleep` in `TimedRetrierDecorator` becomes a ghost counter of milliseconds waited.
  - `invokeAll`'s timeout is a parameter without effect, so `CancellationException` from a future that timed out is not modelled.
- The interrupt status of the collector thread is a field. Whether `take()` clears it is not modelled, because no later `take()` runs after it.
- Spring's `@Value` injection is not modelled: the limits are the initialisers in the source (2, 10, 20, and a wait of 1).
- Java's 32-bit `int` wrap-around of the retry counters and group indexes is not modelled. Integers are unbounded; a counter wraps only after 2^31 retries.
- `processGroup` of the `Processor` classes is not part of this model: the `util/workgroup` and `exemplars` distributors take a group's processing as a function parameter.
- The `exemplars` `Task` class is not part of this model. The model uses the `util/workgroup` `Task` for `WorkGroup` as well, which has the same fields and accessors.
- `WorkGroupDistributor` calls a three-argument `WorkGroup` constructor and a one-argument `processGroup`, which the `WorkGroup` in this repository does not declare. The model uses `WorkGroup.processGroup(groupIndex, service, timeout)` with the index the distributor reads from its iterator.
- Exemplars.Distributor.constructor: requires a positive pool size, where the source lets `newFixedThreadPool` throw `IllegalArgumentException`.
- Exemplars.WorkGroupDistributor.constructor: requires a positive pool size, for the same reason.
- GroupExecutor.Group.constructor: requires a positive pool size. `GroupBuilder.Build` models the `IllegalArgumentException` for the other sizes as `None`.
- Results, `Result<T>`, `WorkGroupResult<T>` and the result lists are sequences of `Option` values, with `None` for Java's null.
- `HashSet<StringBuilder>` is a sequence with one string per builder.
  - The iteration order of the set is not modelled. The order of the model's sequence carries no meaning, and every property about permutations is stated on membership, multisets and counts.
  - The identity of each `StringBuilder`, and `formStrings` updating the builders in place through `insert(0, prefix)`, are modelled on values.
- StringFun.GetPermutations: covers only strings whose characters lie in the Basic Multilingual Plane. Java splits a string into UTF-16 code units with `charAt`, which breaks a supplementary character into two surrogates. A Dafny `char` is a whole Unicode scalar value, so the model never splits one.
- StringFun.Report: covers only strings whose characters lie in the Basic Multilingual Plane. There the `TreeSet` order, `String.compareTo` over UTF-16 code units, is the order on `char` values the model uses. Above U+FFFF the two orders differ.
- Printing in `main`, and the `ArrayIndexOutOfBoundsException` when `args` is empty, are not modelled. `Report` returns the listed strings and the count.
