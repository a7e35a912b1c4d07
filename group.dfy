/**
 * The `Group` executor as the source builds it: a class whose fields the
 * collector loop updates in place. Each method is proved against the
 * functions of `GroupSpec` through `Abs()`, the abstract view of the fields,
 * the tasks, the policy's counters and the shared static flag.
 *
 * Java statics become shared objects passed in by the caller:
 * `RetryExceptionFlag` for `Group.isRetryExceptionSet`, `RetryCounts` for the
 * policy's two maps and `GroupIndexCounter` for the builder's counter.
 */
module GroupExecutor {
  import opened Wrappers
  import opened RetryPolicy
  import opened RetrierDecorators
  import opened Tasks
  import opened Pools
  import opened GroupSpec

  /** The static `isRetryExceptionSet`, shared by every `Group` in the process and never reset. */
  class RetryExceptionFlag {
    var isRetryExceptionSet: bool

    constructor ()
      ensures !isRetryExceptionSet
    {
      isRetryExceptionSet := false;
    }
  }

  /** `GroupBuilder`'s static `AtomicInteger`. */
  class GroupIndexCounter {
    var next: int

    constructor ()
      ensures next == 0
    {
      next := 0;
    }
  }

  class Group<W, T> {
    const groupIndex: int
    const tasks: seq<Task<W, T>>
    /** The `ImmediateCounting` instance inside the decorator (not a field of its own in the source). */
    const counting: ImmediateCounting
    const retryCheckStrategy: TimedRetrierDecorator
    var futureMap: map<nat, int>
    const retryExecutor: ExecutorPool
    const ecsExecutorService: ExecutorPool
    var retryException: Option<RetryError>
    const exceptionFlag: RetryExceptionFlag
    /** The interrupt status of the collector thread. */
    var interrupted: bool

    /** Task ids are positions, the task objects are distinct, and the decorator wraps `counting`. */
    ghost predicate Valid()
    {
      && (forall i :: 0 <= i < |tasks| ==> tasks[i].taskId == i)
      && (forall i, j :: 0 <= i < j < |tasks| ==> tasks[i] != tasks[j])
      && retryCheckStrategy.base.decoratedRetrier == counting
      && retryExecutor != ecsExecutorService
    }

    /** The two pools are only ever shut down together, by `processGroup`'s `finally`. */
    predicate PoolsInStep()
      reads retryExecutor, ecsExecutorService
    {
      retryExecutor.isShutdown == ecsExecutorService.isShutdown
    }

    ghost function TaskStates(): seq<TaskState<T>>
      reads tasks
    {
      seq(|tasks|, i requires 0 <= i < |tasks| reads tasks => TaskState(tasks[i].isComplete, tasks[i].result))
    }

    ghost function Abs(): Collector<T>
      reads this, tasks, counting, counting.counts, retryCheckStrategy, exceptionFlag, ecsExecutorService
    {
      Collector(TaskStates(), futureMap, ecsExecutorService.submissions, counting.State(),
                retryCheckStrategy.waited, exceptionFlag.isRetryExceptionSet, retryException, interrupted)
    }

    /** The private constructor: numbers the callables 0..n-1 in order and creates both pools. */
    constructor (callables: seq<W>, groupIndex: int, threadPoolSize: int,
                 flag: RetryExceptionFlag, counts: RetryCounts)
      requires threadPoolSize > 0
      ensures Valid()
      ensures this.groupIndex == groupIndex && exceptionFlag == flag && counting.counts == counts
      ensures |tasks| == |callables| && forall i :: 0 <= i < |tasks| ==> tasks[i].callable == callables[i]
      ensures Abs() == Initial(|callables|, Counters(counts.taskRetryCounts, counts.groupRetryCounts, 0),
                               flag.isRetryExceptionSet)
      ensures ecsExecutorService.kind == Fixed(threadPoolSize) && !ecsExecutorService.isShutdown
      ensures retryExecutor.kind == Cached && !retryExecutor.isShutdown
      ensures fresh(counting) && fresh(retryCheckStrategy) && fresh(retryCheckStrategy.base)
      ensures fresh(retryExecutor) && fresh(ecsExecutorService)
      ensures forall i :: 0 <= i < |tasks| ==> fresh(tasks[i])
    {
      var ts: seq<Task<W, T>> := [];
      var count := 0;
      while count < |callables|
        invariant 0 <= count <= |callables| && |ts| == count
        invariant forall i :: 0 <= i < count ==>
                    && fresh(ts[i]) && ts[i].taskId == i && ts[i].callable == callables[i]
                    && !ts[i].isComplete && ts[i].result == None
        invariant forall i, j :: 0 <= i < j < count ==> ts[i] != ts[j]
      {
        var t := new Task(count, callables[count]);
        ts := ts + [t];
        count := count + 1;
      }
      tasks := ts;
      this.groupIndex := groupIndex;
      var immediate := new ImmediateCounting(counts);
      counting := immediate;
      retryCheckStrategy := new TimedRetrierDecorator(immediate);
      futureMap := map[];
      retryExecutor := new ExecutorPool(Cached);
      ecsExecutorService := new ExecutorPool(Fixed(threadPoolSize));
      retryException := None;
      exceptionFlag := flag;
      interrupted := false;
    }

    /**
     * `processGroup`: submits every task, runs the collector, and returns the
     * results or throws. Every call that returns, normally or by an
     * exception, shuts both pools down, so a second call on a group with
     * tasks is rejected at its first submission.
     */
    method ProcessGroup(events: seq<Completion<T>>) returns (outcome: GroupOutcome<T>)
      requires Valid() && PoolsInStep()
      modifies this, tasks, counting, counting.counts, retryCheckStrategy, exceptionFlag
      modifies retryExecutor, ecsExecutorService
      ensures (Abs(), outcome) == ProcessGroupSpec(old(Abs()), groupIndex, old(ecsExecutorService.isShutdown), events)
      ensures !outcome.StillWaiting? ==> retryExecutor.isShutdown && ecsExecutorService.isShutdown
      ensures outcome.StillWaiting? ==> ecsExecutorService.isShutdown == old(ecsExecutorService.isShutdown)
      ensures PoolsInStep()
    {
      var accepted := SubmitTasksForProcessing();
      if !accepted {
        outcome := SubmitRejected;
      } else {
        var exit := ProcessAsyncTaskResults(events);
        outcome := ReturnOrThrow(exit);
      }
      if !outcome.StillWaiting? {
        retryExecutor.Shutdown();
        ecsExecutorService.Shutdown();
      }
    }

    /**
     * The body of `processGroup`'s `try` after the collector: the results on
     * `true`, `throw retryException` on `false`, or the collector's exception.
     */
    method ReturnOrThrow(exit: LoopExit) returns (outcome: GroupOutcome<T>)
      ensures outcome == Outcome(Abs(), exit)
    {
      match exit {
        case AllComplete =>
          var values := GetResults();
          outcome := Results(values);
        case Interrupted =>
          outcome := if retryException.Some? then Thrown(retryException.value) else NullThrown;
        case UnknownHandle(h) =>
          outcome := HandleNotMapped(h);
        case UnknownTask(id) =>
          outcome := TaskNotFound(id);
        case Waiting =>
          outcome := StillWaiting;
      }
    }

    /**
     * `submitTasksForProcessing`: one future per task, in task order, mapped
     * to the task's id; a shut-down pool rejects the first submission.
     */
    method SubmitTasksForProcessing() returns (accepted: bool)
      requires Valid()
      modifies this, ecsExecutorService
      ensures accepted <==> !ecsExecutorService.isShutdown || |tasks| == 0
      ensures accepted ==> Abs() == Submitted(old(Abs()))
      ensures !accepted ==> Abs() == old(Abs())
      ensures ecsExecutorService.isShutdown == old(ecsExecutorService.isShutdown)
    {
      ghost var start := ecsExecutorService.submissions;
      var i := 0;
      while i < |tasks|
        invariant 0 <= i <= |tasks|
        invariant ecsExecutorService.submissions == start + i
        invariant futureMap == old(futureMap) + FutureEntries(start, i)
        invariant retryException == old(retryException) && interrupted == old(interrupted)
        invariant ecsExecutorService.isShutdown == old(ecsExecutorService.isShutdown)
        invariant i > 0 ==> !ecsExecutorService.isShutdown
      {
        var submitted, future := ecsExecutorService.Submit();
        if !submitted {
          return false;
        }
        futureMap := futureMap[future := tasks[i].taskId];
        i := i + 1;
      }
      accepted := true;
    }

    /**
     * `processAsyncTaskResults`: while some task is incomplete, take the next
     * completed future; a success completes its task, a failure dispatches a
     * retry; either way the future leaves `futureMap`. An interrupt makes the
     * next `take()` throw, and the loop returns false.
     */
    method ProcessAsyncTaskResults(events: seq<Completion<T>>) returns (exit: LoopExit)
      requires Valid() && PoolsInStep() && (ecsExecutorService.isShutdown ==> |tasks| == 0)
      modifies this, tasks, counting, counting.counts, retryCheckStrategy, exceptionFlag
      modifies retryExecutor, ecsExecutorService
      ensures (Abs(), exit) == Collect(old(Abs()), groupIndex, events)
      ensures retryExecutor.isShutdown == old(retryExecutor.isShutdown)
      ensures ecsExecutorService.isShutdown == old(ecsExecutorService.isShutdown)
    {
      var i := 0;
      var incomplete := GetIncompleteTasks();
      while |incomplete| > 0
        invariant 0 <= i <= |events|
        invariant (|incomplete| == 0) == NoneIncomplete(TaskStates())
        invariant Collect(Abs(), groupIndex, events[i..]) == Collect(old(Abs()), groupIndex, events)
        invariant retryExecutor.isShutdown == old(retryExecutor.isShutdown)
        invariant ecsExecutorService.isShutdown == old(ecsExecutorService.isShutdown)
        decreases |events| - i
      {
        if interrupted {
          return Interrupted;
        }
        if i == |events| {
          return Waiting;
        }
        var future := events[i];
        if future.handle !in futureMap {
          return UnknownHandle(future.handle);
        }
        var taskId := futureMap[future.handle];
        assert TaskStates() != [];
        ghost var before := Abs();
        var known := TakeCompleted(future.handle, taskId, future.attempt);
        if !known {
          return UnknownTask(taskId);
        }
        CollectTakes(before, groupIndex, events[i..]);
        assert events[i..][1..] == events[i + 1..];
        i := i + 1;
        incomplete := GetIncompleteTasks();
      }
      exit := AllComplete;
    }

    /**
     * One iteration of the collector after `take()` returned the future
     * `handle`, which `futureMap` maps to `taskId`: a success completes the
     * task, a failure goes to `handleRetries`, and the future leaves the map.
     */
    method TakeCompleted(handle: nat, taskId: int, attempt: Attempt<T>) returns (known: bool)
      requires Valid() && handle in futureMap && futureMap[handle] == taskId
      requires !retryExecutor.isShutdown && !ecsExecutorService.isShutdown
      modifies this, tasks, counting, counting.counts, retryCheckStrategy, exceptionFlag
      modifies retryExecutor, ecsExecutorService
      ensures known <==> 0 <= taskId < |tasks|
      ensures known ==> Abs() == Consume(old(Abs()), groupIndex, handle, taskId, attempt)
      ensures !known ==> Abs() == old(Abs()).(futureMap := old(futureMap) - {handle})
      ensures retryExecutor.isShutdown == old(retryExecutor.isShutdown)
      ensures ecsExecutorService.isShutdown == old(ecsExecutorService.isShutdown)
    {
      match attempt {
        case Succeeded(value) =>
          var task := GetTask(taskId);
          known := task.Some?;
          if known {
            CompleteTask(taskId, value);
          }
        case Failed =>
          known := HandleRetries(taskId);
      }
      futureMap := futureMap - {handle};
    }

    /** `task.setComplete(true); task.setResult(result)` for the task with id `taskId`. */
    method CompleteTask(taskId: int, value: T)
      requires Valid() && 0 <= taskId < |tasks|
      modifies tasks[taskId]
      ensures TaskStates() == old(TaskStates())[taskId := TaskState(true, Some(value))]
    {
      var task := tasks[taskId];
      task.SetComplete(true);
      task.SetResult(value);
      forall j | 0 <= j < |tasks|
        ensures TaskStates()[j] == old(TaskStates())[taskId := TaskState(true, Some(value))][j]
      {
        if j != taskId {
          assert tasks[j] != task;
        }
      }
    }

    /**
     * `handleRetries`: builds a `RetryWorker` for the task (its constructor
     * looks the task up, and throws for an unknown id), hands it to the retry
     * executor, and — in this model — runs it at once.
     */
    method HandleRetries(taskId: int) returns (found: bool)
      requires Valid() && !retryExecutor.isShutdown && !ecsExecutorService.isShutdown
      modifies this, counting, counting.counts, retryCheckStrategy, exceptionFlag
      modifies retryExecutor, ecsExecutorService
      ensures found <==> 0 <= taskId < |tasks|
      ensures found ==> Abs() == GroupSpec.RunRetryWorker(old(Abs()), groupIndex, taskId)
      ensures !found ==> Abs() == old(Abs())
      ensures retryExecutor.isShutdown == old(retryExecutor.isShutdown)
      ensures ecsExecutorService.isShutdown == old(ecsExecutorService.isShutdown)
    {
      var task := GetTask(taskId);
      if task.None? {
        return false;
      }
      var _, _ := retryExecutor.Submit();
      RunRetryWorker(taskId);
      found := true;
    }

    /**
     * `RetryWorker.run`: asks the policy; if it passes, resubmits the task and
     * maps the new future to the same task id; if it throws, records the
     * exception and interrupts the collector.
     */
    method RunRetryWorker(taskId: int)
      requires Valid() && 0 <= taskId < |tasks| && !ecsExecutorService.isShutdown
      modifies this, counting, counting.counts, retryCheckStrategy, exceptionFlag, ecsExecutorService
      ensures Abs() == GroupSpec.RunRetryWorker(old(Abs()), groupIndex, taskId)
      ensures ecsExecutorService.isShutdown == old(ecsExecutorService.isShutdown)
    {
      var outcome := retryCheckStrategy.Retry(groupIndex, taskId);
      if outcome.Pass? {
        var _, future := ecsExecutorService.Submit();
        futureMap := futureMap[future := taskId];
      } else {
        SetRetryException(outcome.error);
        interrupted := true;
      }
    }

    /** `setRetryException`: only the first call in the whole process stores its exception. */
    method SetRetryException(e: RetryError)
      modifies this, exceptionFlag
      ensures exceptionFlag.isRetryExceptionSet
      ensures retryException == if old(exceptionFlag.isRetryExceptionSet) then old(retryException) else Some(e)
      ensures futureMap == old(futureMap) && interrupted == old(interrupted)
    {
      if !exceptionFlag.isRetryExceptionSet {
        retryException := Some(e);
        exceptionFlag.isRetryExceptionSet := true;
      }
    }

    /** `getIncompleteTasks`: the incomplete tasks, in task order. */
    method GetIncompleteTasks() returns (incomplete: seq<Task<W, T>>)
      requires Valid()
      ensures forall t :: t in incomplete <==> t in tasks && !t.isComplete
      ensures forall i, j :: 0 <= i < j < |incomplete| ==> incomplete[i].taskId < incomplete[j].taskId
      ensures (|incomplete| == 0) == NoneIncomplete(TaskStates())
    {
      incomplete := [];
      var k := 0;
      while k < |tasks|
        invariant 0 <= k <= |tasks|
        invariant forall t :: t in incomplete <==> t in tasks[..k] && !t.isComplete
        invariant forall i :: 0 <= i < |incomplete| ==> 0 <= incomplete[i].taskId < k
        invariant forall i, j :: 0 <= i < j < |incomplete| ==> incomplete[i].taskId < incomplete[j].taskId
      {
        var t := tasks[k];
        if !t.isComplete {
          incomplete := incomplete + [t];
        }
        k := k + 1;
      }
      assert tasks[..k] == tasks;
      if |incomplete| == 0 {
        forall i | 0 <= i < |tasks| ensures TaskStates()[i].complete {
          assert tasks[i] in tasks;
        }
      } else {
        assert incomplete[0] in tasks;
        var j :| 0 <= j < |tasks| && tasks[j] == incomplete[0];
        assert !TaskStates()[j].complete;
      }
    }

    /** `getTask`: the task with the given id, or `None` where the source throws `IllegalStateException`. */
    method GetTask(taskId: int) returns (task: Option<Task<W, T>>)
      requires Valid()
      ensures task.Some? <==> 0 <= taskId < |tasks|
      ensures task.Some? ==> task.value == tasks[taskId]
    {
      var k := 0;
      while k < |tasks|
        invariant 0 <= k <= |tasks|
        invariant !(0 <= taskId < k)
      {
        if tasks[k].taskId == taskId {
          return Some(tasks[k]);
        }
        k := k + 1;
      }
      task := None;
    }

    /** `getResults`: one entry per task, in task-id order, whatever order the tasks completed in. */
    method GetResults() returns (values: seq<Option<T>>)
      ensures |values| == |tasks|
      ensures forall i :: 0 <= i < |tasks| ==> values[i] == tasks[i].result
      ensures values == ResultsOf(TaskStates())
    {
      values := [];
      var k := 0;
      while k < |tasks|
        invariant 0 <= k <= |tasks| && |values| == k
        invariant forall i :: 0 <= i < k ==> values[i] == tasks[i].result
      {
        values := values + [tasks[k].result];
        k := k + 1;
      }
    }
  }

  /** `GroupBuilder`: collects callables and a pool size; each builder takes the next group index. */
  class GroupBuilder<W> {
    const groupIndex: int
    var callables: seq<W>
    var threadPoolSize: int

    constructor (counter: GroupIndexCounter)
      modifies counter
      ensures groupIndex == old(counter.next) && counter.next == old(counter.next) + 1
      ensures callables == [] && threadPoolSize == 5
    {
      groupIndex := counter.next;
      counter.next := counter.next + 1;
      callables := [];
      threadPoolSize := 5;
    }

    method AddCallable(callable: W) returns (self: GroupBuilder<W>)
      modifies this
      ensures self == this && callables == old(callables) + [callable] && threadPoolSize == old(threadPoolSize)
    {
      callables := callables + [callable];
      self := this;
    }

    method ThreadPoolSize(size: int) returns (self: GroupBuilder<W>)
      modifies this
      ensures self == this && threadPoolSize == size && callables == old(callables)
    {
      threadPoolSize := size;
      self := this;
    }

    /**
     * `build`: every group built by one builder gets that builder's index, so
     * two builds share a group counter. A non-positive pool size makes
     * `newFixedThreadPool` throw `IllegalArgumentException`, here `None`.
     */
    method Build<T>(flag: RetryExceptionFlag, counts: RetryCounts) returns (g: Option<Group<W, T>>)
      ensures g.Some? <==> threadPoolSize > 0
      ensures g.Some? ==> fresh(g.value) && g.value.Valid() && g.value.groupIndex == groupIndex
      ensures g.Some? ==> g.value.PoolsInStep() && !g.value.ecsExecutorService.isShutdown
      ensures g.Some? ==> |g.value.tasks| == |callables|
      ensures g.Some? ==> forall i :: 0 <= i < |callables| ==> g.value.tasks[i].callable == callables[i]
      ensures g.Some? ==> g.value.Abs() == Initial(|callables|, Counters(counts.taskRetryCounts, counts.groupRetryCounts, 0),
                                                   flag.isRetryExceptionSet)
      ensures g.Some? ==> g.value.ecsExecutorService.kind == Fixed(threadPoolSize)
    {
      if threadPoolSize <= 0 {
        return None;
      }
      var group := new Group(callables, groupIndex, threadPoolSize, flag, counts);
      g := Some(group);
    }
  }
}
