/**
 * The older round-based `WorkGroup` executor. Each round hands every
 * incomplete task's callable to `invokeAll`, in task order, and matches the
 * k-th returned future back to the k-th incomplete task. A round counter
 * bounded by `retryLimit` (2) ends the group with an exception, so at most
 * three rounds run. What each future yields is chosen by the environment:
 * `outcome(round, k)` is the k-th future of the round numbered `round`
 * (rounds count from 0, the value of `retryCount` when the round runs).
 */
module WorkGroups {
  import opened Wrappers
  import opened Tasks
  import opened Pools
  import opened GroupSpec

  const RetryLimit: int := 2

  /** How `processGroup` ends: the results, the retry-limit `IllegalStateException`, or a rejected `invokeAll`. */
  datatype WorkGroupOutcome<T> = Done(results: seq<Option<T>>) | RetryLimitExceeded(groupIndex: int) | Rejected

  /** Positions of the incomplete tasks, in task order: what `getIncompleteTasks` lists. */
  function IncompletePositions<T>(states: seq<TaskState<T>>): (r: seq<int>)
    ensures forall k :: 0 <= k < |r| ==> 0 <= r[k] < |states| && !states[r[k]].complete
  {
    if states == [] then []
    else
      var rest := IncompletePositions(states[..|states| - 1]);
      if states[|states| - 1].complete then rest else rest + [|states| - 1]
  }

  /**
   * Every incomplete task is listed, once and in task order, so the list is
   * empty exactly when every task is complete.
   */
  lemma {:induction false} IncompletePositionsComplete<T>(states: seq<TaskState<T>>)
    ensures forall i :: 0 <= i < |states| && !states[i].complete ==> i in IncompletePositions(states)
    ensures forall j, k :: 0 <= j < k < |IncompletePositions(states)| ==> IncompletePositions(states)[j] < IncompletePositions(states)[k]
    ensures |IncompletePositions(states)| == 0 <==> NoneIncomplete(states)
  {
    if states != [] {
      var n := |states| - 1;
      IncompletePositionsComplete(states[..n]);
      forall i | 0 <= i < |states| && !states[i].complete
        ensures i in IncompletePositions(states)
      {
        if i < n {
          assert states[..n][i] == states[i];
        }
      }
      if |IncompletePositions(states)| != 0 {
        var p := IncompletePositions(states)[0];
        assert !states[p].complete;
      }
    }
  }

  /** The futures `invokeAll` returns in round `round`: one per callable, in submission order. */
  function Futures<T>(round: int, count: nat, outcome: (int, int) -> Attempt<T>): (r: seq<Attempt<T>>)
    ensures |r| == count
  {
    seq(count, k => outcome(round, k))
  }

  function Matched<T>(state: TaskState<T>, future: Attempt<T>): TaskState<T>
  {
    match future
    case Succeeded(v) => TaskState(true, Some(v))
    case Failed => state
  }

  /** `areResultsComplete`'s loop: the k-th future goes to `positions[k]`; a failure just advances the position. */
  function ApplyFutures<T>(states: seq<TaskState<T>>, positions: seq<int>, futures: seq<Attempt<T>>): (r: seq<TaskState<T>>)
    requires |positions| == |futures|
    requires forall k :: 0 <= k < |positions| ==> 0 <= positions[k] < |states|
    ensures |r| == |states|
    decreases |futures|
  {
    if futures == [] then states
    else
      var p := positions[0];
      ApplyFutures(states[p := Matched(states[p], futures[0])], positions[1..], futures[1..])
  }

  /** A task that no future is matched to keeps its state. */
  lemma {:induction false} ApplyFuturesOutside<T>(states: seq<TaskState<T>>, positions: seq<int>, futures: seq<Attempt<T>>)
    requires |positions| == |futures|
    requires forall k :: 0 <= k < |positions| ==> 0 <= positions[k] < |states|
    ensures forall i :: 0 <= i < |states| && i !in positions ==> ApplyFutures(states, positions, futures)[i] == states[i]
    decreases |futures|
  {
    if futures != [] {
      var p := positions[0];
      ApplyFuturesOutside(states[p := Matched(states[p], futures[0])], positions[1..], futures[1..]);
      forall i | 0 <= i < |states| && i !in positions
        ensures ApplyFutures(states, positions, futures)[i] == states[i]
      {
        assert i !in positions[1..];
      }
    }
  }

  lemma ApplyFuturesStep<T>(states: seq<TaskState<T>>, positions: seq<int>, futures: seq<Attempt<T>>, k: int)
    requires |positions| == |futures| && 0 <= k < |futures|
    requires forall j :: 0 <= j < |positions| ==> 0 <= positions[j] < |states|
    ensures ApplyFutures(states, positions[k..], futures[k..])
         == ApplyFutures(states[positions[k] := Matched(states[positions[k]], futures[k])], positions[k + 1..], futures[k + 1..])
  {
    assert positions[k..][1..] == positions[k + 1..];
    assert futures[k..][1..] == futures[k + 1..];
  }

  /** One round: submit the incomplete tasks, then match the futures back to them. */
  function RunRound<T>(states: seq<TaskState<T>>, round: int, outcome: (int, int) -> Attempt<T>): seq<TaskState<T>>
  {
    var positions := IncompletePositions(states);
    ApplyFutures(states, positions, Futures(round, |positions|, outcome))
  }

  /**
   * Rounds from `retryCount` on: `invokeAll` is rejected, or one round runs
   * and the loop test follows: all complete, or `checkRetryPolicy`, which
   * throws once `retryCount` has reached the limit and otherwise increments it.
   */
  function Rounds<T>(states: seq<TaskState<T>>, retryCount: int, groupIndex: int, isShutdown: bool,
                     outcome: (int, int) -> Attempt<T>): (r: (seq<TaskState<T>>, int, WorkGroupOutcome<T>))
    requires 0 <= retryCount <= RetryLimit
    ensures |r.0| == |states|
    decreases RetryLimit - retryCount
  {
    if isShutdown && !NoneIncomplete(states) then (states, retryCount, Rejected)
    else
      var next := RunRound(states, retryCount, outcome);
      if NoneIncomplete(next) then (next, retryCount, Done(ResultsOf(next)))
      else if retryCount == RetryLimit then (next, retryCount + 1, RetryLimitExceeded(groupIndex))
      else Rounds(next, retryCount + 1, groupIndex, isShutdown, outcome)
  }

  /**
   * How the rounds end: `Done` exactly when every task is complete, with the
   * results in task order; giving up names the group after `retryCount`
   * reached 3; a rejection only from a shut-down pool; never more than three
   * rounds (`retryCount` ends at most at `RetryLimit + 1`).
   */
  lemma {:induction false} RoundsOutcome<T>(states: seq<TaskState<T>>, retryCount: int, groupIndex: int, isShutdown: bool,
                                            outcome: (int, int) -> Attempt<T>)
    requires 0 <= retryCount <= RetryLimit
    ensures var r := Rounds(states, retryCount, groupIndex, isShutdown, outcome);
            && (r.2.Done? <==> NoneIncomplete(r.0))
            && (r.2.Done? ==> r.2.results == ResultsOf(r.0))
            && (r.2.RetryLimitExceeded? ==> r.2.groupIndex == groupIndex && r.1 == RetryLimit + 1)
            && (r.2.Rejected? ==> isShutdown && r.0 == states)
            && retryCount <= r.1 <= RetryLimit + 1
            && |r.0| == |states|
    decreases RetryLimit - retryCount
  {
    if !(isShutdown && !NoneIncomplete(states)) {
      var next := RunRound(states, retryCount, outcome);
      if !NoneIncomplete(next) && retryCount != RetryLimit {
        RoundsOutcome(next, retryCount + 1, groupIndex, isShutdown, outcome);
      }
    }
  }

  /** With nothing incomplete, a round submits nothing and changes nothing. */
  lemma RunRoundIdle<T>(states: seq<TaskState<T>>, round: int, outcome: (int, int) -> Attempt<T>)
    ensures NoneIncomplete(states) ==> RunRound(states, round, outcome) == states
  {
    IncompletePositionsComplete(states);
  }

  lemma RoundsContinue<T>(states: seq<TaskState<T>>, retryCount: int, groupIndex: int, isShutdown: bool,
                         outcome: (int, int) -> Attempt<T>)
    requires 0 <= retryCount < RetryLimit
    requires !(isShutdown && !NoneIncomplete(states)) && !NoneIncomplete(RunRound(states, retryCount, outcome))
    ensures Rounds(states, retryCount, groupIndex, isShutdown, outcome)
         == Rounds(RunRound(states, retryCount, outcome), retryCount + 1, groupIndex, isShutdown, outcome)
  {
  }

  /** `processGroup`: `retryCount` starts again at 0 on every call. */
  function ProcessWorkGroup<T>(states: seq<TaskState<T>>, groupIndex: int, isShutdown: bool,
                               outcome: (int, int) -> Attempt<T>): (seq<TaskState<T>>, int, WorkGroupOutcome<T>)
  {
    Rounds(states, 0, groupIndex, isShutdown, outcome)
  }

  /** The k-th future decides the fate of the task at `positions[k]`, and of no other. */
  lemma {:induction false} ApplyFuturesAt<T>(states: seq<TaskState<T>>, positions: seq<int>, futures: seq<Attempt<T>>)
    requires |positions| == |futures|
    requires forall k :: 0 <= k < |positions| ==> 0 <= positions[k] < |states|
    requires forall j, k :: 0 <= j < k < |positions| ==> positions[j] < positions[k]
    ensures forall k :: 0 <= k < |positions| ==>
              ApplyFutures(states, positions, futures)[positions[k]] == Matched(states[positions[k]], futures[k])
    decreases |futures|
  {
    if futures != [] {
      var p := positions[0];
      var next := states[p := Matched(states[p], futures[0])];
      ApplyFuturesAt(next, positions[1..], futures[1..]);
      ApplyFuturesOutside(next, positions[1..], futures[1..]);
      forall k | 0 <= k < |positions|
        ensures ApplyFutures(states, positions, futures)[positions[k]] == Matched(states[positions[k]], futures[k])
      {
        if k == 0 {
          assert p !in positions[1..];
        } else {
          assert positions[k] == positions[1..][k - 1];
        }
      }
    }
  }

  /**
   * A round leaves complete tasks alone; the k-th incomplete task gets the
   * round's k-th future: completed with its value on success, unchanged on
   * failure.
   */
  lemma RunRoundEffect<T>(states: seq<TaskState<T>>, round: int, outcome: (int, int) -> Attempt<T>)
    ensures var next := RunRound(states, round, outcome);
            var positions := IncompletePositions(states);
            && |next| == |states|
            && (forall i :: 0 <= i < |states| && states[i].complete ==> next[i] == states[i])
            && (forall k :: 0 <= k < |positions| ==> next[positions[k]] == Matched(states[positions[k]], outcome(round, k)))
            && (forall i :: 0 <= i < |states| ==> next[i] == states[i] || (next[i].complete && next[i].result.Some?))
  {
    var next := RunRound(states, round, outcome);
    var positions := IncompletePositions(states);
    var futures := Futures(round, |positions|, outcome);
    IncompletePositionsComplete(states);
    ApplyFuturesAt(states, positions, futures);
    ApplyFuturesOutside(states, positions, futures);
    forall i | 0 <= i < |states| && states[i].complete
      ensures i !in positions
    {
      assert forall k :: 0 <= k < |positions| ==> positions[k] != i;
    }
    forall i | 0 <= i < |states|
      ensures next[i] == states[i] || (next[i].complete && next[i].result.Some?)
    {
      if !states[i].complete {
        var k :| 0 <= k < |positions| && positions[k] == i;
        assert next[i] == Matched(states[i], futures[k]);
      }
    }
  }

  /** Completion is final: a task complete before `processGroup` keeps its state, so it is never resubmitted. */
  lemma {:induction false} RoundsKeepComplete<T>(states: seq<TaskState<T>>, retryCount: int, groupIndex: int,
                                                 isShutdown: bool, outcome: (int, int) -> Attempt<T>)
    requires 0 <= retryCount <= RetryLimit
    ensures var r := Rounds(states, retryCount, groupIndex, isShutdown, outcome);
            forall i :: 0 <= i < |states| && states[i].complete ==> r.0[i] == states[i]
    decreases RetryLimit - retryCount
  {
    if !(isShutdown && !NoneIncomplete(states)) {
      var next := RunRound(states, retryCount, outcome);
      RunRoundEffect(states, retryCount, outcome);
      if !NoneIncomplete(next) && retryCount != RetryLimit {
        RoundsKeepComplete(next, retryCount + 1, groupIndex, isShutdown, outcome);
      }
    }
  }

  /** Every complete task carries a result; rounds keep it so, so a `Done` list has no null entry. */
  ghost predicate CompleteHaveResults<T>(states: seq<TaskState<T>>)
  {
    forall i :: 0 <= i < |states| && states[i].complete ==> states[i].result.Some?
  }

  lemma {:induction false} DoneResultsPresent<T>(states: seq<TaskState<T>>, retryCount: int, groupIndex: int,
                                                 isShutdown: bool, outcome: (int, int) -> Attempt<T>)
    requires 0 <= retryCount <= RetryLimit && CompleteHaveResults(states)
    ensures var r := Rounds(states, retryCount, groupIndex, isShutdown, outcome);
            r.2.Done? ==> |r.2.results| == |states| && forall i :: 0 <= i < |states| ==> r.2.results[i].Some?
    decreases RetryLimit - retryCount
  {
    if !(isShutdown && !NoneIncomplete(states)) {
      var next := RunRound(states, retryCount, outcome);
      RunRoundEffect(states, retryCount, outcome);
      if !NoneIncomplete(next) && retryCount != RetryLimit {
        DoneResultsPresent(next, retryCount + 1, groupIndex, isShutdown, outcome);
      }
    }
  }

  /** A task whose callable fails in every round makes the group give up after exactly three rounds. */
  lemma AlwaysFailingGivesUp<T>(states: seq<TaskState<T>>, groupIndex: int, outcome: (int, int) -> Attempt<T>)
    requires !NoneIncomplete(states)
    requires forall round, k :: outcome(round, k) == Failed
    ensures ProcessWorkGroup(states, groupIndex, false, outcome) == (states, RetryLimit + 1, RetryLimitExceeded(groupIndex))
  {
    forall round: int ensures RunRound(states, round, outcome) == states {
      RunRoundEffect(states, round, outcome);
      IncompletePositionsComplete(states);
      var positions := IncompletePositions(states);
      forall i | 0 <= i < |states| ensures RunRound(states, round, outcome)[i] == states[i] {
        if !states[i].complete {
          var k :| 0 <= k < |positions| && positions[k] == i;
        }
      }
    }
    assert Rounds(states, 2, groupIndex, false, outcome) == (states, 3, RetryLimitExceeded(groupIndex));
    assert Rounds(states, 1, groupIndex, false, outcome) == (states, 3, RetryLimitExceeded(groupIndex));
  }

  /** One task that fails in the first two rounds and succeeds in the third: the group completes with its value. */
  lemma FailTwiceThenSucceed<T>(v: T, groupIndex: int, outcome: (int, int) -> Attempt<T>)
    requires forall round, k :: outcome(round, k) == if round < 2 then Failed else Succeeded(v)
    ensures ProcessWorkGroup([TaskState(false, None)], groupIndex, false, outcome)
              == ([TaskState(true, Some(v))], 2, Done([Some(v)]))
  {
    var s: seq<TaskState<T>> := [TaskState(false, None)];
    var done: seq<TaskState<T>> := [TaskState(true, Some(v))];
    assert s[..0] == [] && IncompletePositions(s) == [0];
    assert Futures(0, 1, outcome) == [Failed] && Futures(1, 1, outcome) == [Failed];
    assert Futures(2, 1, outcome) == [Succeeded(v)];
    assert RunRound(s, 0, outcome) == ApplyFutures(s, [0], [Failed]) == s;
    assert RunRound(s, 1, outcome) == s;
    assert RunRound(s, 2, outcome) == ApplyFutures(s, [0], [Succeeded(v)]) == done;
    assert ResultsOf(done) == [Some(v)];
    assert Rounds(s, 2, groupIndex, false, outcome) == (done, 2, Done([Some(v)]));
    assert Rounds(s, 1, groupIndex, false, outcome) == (done, 2, Done([Some(v)]));
  }

  class WorkGroup<W, T> {
    const tasks: seq<Task<W, T>>
    const retryLimit: int
    var retryCount: int

    ghost predicate Valid()
    {
      && (forall i :: 0 <= i < |tasks| ==> tasks[i].taskId == i)
      && (forall i, j :: 0 <= i < j < |tasks| ==> tasks[i] != tasks[j])
      && retryLimit == RetryLimit
    }

    ghost function TaskStates(): seq<TaskState<T>>
      reads tasks
    {
      seq(|tasks|, i requires 0 <= i < |tasks| reads tasks => TaskState(tasks[i].isComplete, tasks[i].result))
    }

    /** The private constructor: numbers the callables 0..n-1 in list order. */
    constructor (group: seq<W>)
      ensures Valid() && retryCount == 0
      ensures |tasks| == |group| && forall i :: 0 <= i < |tasks| ==> tasks[i].callable == group[i]
      ensures forall i :: 0 <= i < |tasks| ==> fresh(tasks[i]) && TaskStates()[i] == TaskState(false, None)
    {
      var ts: seq<Task<W, T>> := [];
      var count := 0;
      while count < |group|
        invariant 0 <= count <= |group| && |ts| == count
        invariant forall i :: 0 <= i < count ==>
                    && fresh(ts[i]) && ts[i].taskId == i && ts[i].callable == group[i]
                    && !ts[i].isComplete && ts[i].result == None
        invariant forall i, j :: 0 <= i < j < count ==> ts[i] != ts[j]
      {
        var t := new Task(count, group[count]);
        ts := ts + [t];
        count := count + 1;
      }
      tasks := ts;
      retryLimit := RetryLimit;
      retryCount := 0;
    }

    /** `getInstance`, the public factory. */
    static method GetInstance(group: seq<W>) returns (wg: WorkGroup<W, T>)
      ensures fresh(wg) && wg.Valid() && wg.retryCount == 0
      ensures |wg.tasks| == |group| && forall i :: 0 <= i < |group| ==> wg.tasks[i].callable == group[i]
      ensures forall i :: 0 <= i < |wg.tasks| ==> fresh(wg.tasks[i]) && wg.TaskStates()[i] == TaskState(false, None)
      ensures NoneIncomplete(wg.TaskStates()) <==> group == []
    {
      wg := new WorkGroup(group);
      assert group != [] ==> !wg.TaskStates()[0].complete;
    }

    /**
     * `processGroup`: rounds of `invokeAll` on the incomplete callables until
     * every task is complete or `checkRetryPolicy` throws. The `timeout` of
     * `invokeAll` is not modelled.
     */
    method ProcessGroup(groupIndex: int, service: ExecutorPool, timeout: int, outcome: (int, int) -> Attempt<T>)
      returns (r: WorkGroupOutcome<T>)
      requires Valid()
      modifies this, tasks, service
      ensures var expected := ProcessWorkGroup(old(TaskStates()), groupIndex, old(service.isShutdown), outcome);
              TaskStates() == expected.0 && retryCount == expected.1 && r == expected.2
      ensures service.isShutdown == old(service.isShutdown)
    {
      ghost var expected := ProcessWorkGroup(TaskStates(), groupIndex, service.isShutdown, outcome);
      retryCount := 0;
      ghost var before := TaskStates();
      var accepted, complete := InvokeRound(service, outcome);
      if !accepted {
        assert expected == (before, 0, Rejected);
        return Rejected;
      }
      RunRoundIdle(before, 0, outcome);
      while !complete
        invariant 0 <= retryCount <= RetryLimit
        invariant service.isShutdown == old(service.isShutdown)
        invariant complete == NoneIncomplete(TaskStates())
        invariant !complete ==> !service.isShutdown
        invariant TaskStates() == RunRound(before, retryCount, outcome)
        invariant Rounds(before, retryCount, groupIndex, service.isShutdown, outcome) == expected
        decreases RetryLimit - retryCount
      {
        var withinLimit := CheckRetryPolicy(groupIndex);
        if !withinLimit {
          assert expected == (TaskStates(), RetryLimit + 1, RetryLimitExceeded(groupIndex));
          return RetryLimitExceeded(groupIndex);
        }
        RoundsContinue(before, retryCount - 1, groupIndex, service.isShutdown, outcome);
        before := TaskStates();
        accepted, complete := InvokeRound(service, outcome);
        assert accepted;  // a pool that accepted the first round is still open
      }
      var results := GetResults();
      assert expected == (TaskStates(), retryCount, Done(results));
      r := Done(results);
    }

    /**
     * The loop test of `processGroup`, `areResultsComplete(service.invokeAll(getIncompleteCallables(), ...))`:
     * one round numbered `retryCount`, or a rejection when the pool is shut down and there is work to hand it.
     */
    method InvokeRound(service: ExecutorPool, outcome: (int, int) -> Attempt<T>) returns (accepted: bool, complete: bool)
      requires Valid()
      modifies tasks, service
      ensures accepted <==> !(service.isShutdown && !NoneIncomplete(old(TaskStates())))
      ensures accepted ==> TaskStates() == RunRound(old(TaskStates()), retryCount, outcome)
      ensures accepted ==> (complete <==> NoneIncomplete(TaskStates()))
      ensures !accepted ==> TaskStates() == old(TaskStates())
      ensures service.isShutdown == old(service.isShutdown)
    {
      IncompletePositionsComplete(TaskStates());
      var callables := GetIncompleteCallables();
      accepted := service.InvokeAll(|callables|);
      if !accepted {
        return accepted, false;
      }
      complete := AreResultsComplete(Futures(retryCount, |callables|, outcome));
    }

    /** `getIncompleteTasks`: the incomplete tasks, in task order. */
    method GetIncompleteTasks() returns (incomplete: seq<Task<W, T>>)
      ensures var positions := IncompletePositions(TaskStates());
              |incomplete| == |positions| && forall k :: 0 <= k < |positions| ==> incomplete[k] == tasks[positions[k]]
    {
      incomplete := [];
      var i := 0;
      while i < |tasks|
        invariant 0 <= i <= |tasks|
        invariant var positions := IncompletePositions(TaskStates()[..i]);
                  |incomplete| == |positions| && forall k :: 0 <= k < |positions| ==> incomplete[k] == tasks[positions[k]]
      {
        if !tasks[i].isComplete {
          incomplete := incomplete + [tasks[i]];
        }
        assert TaskStates()[..i + 1][..i] == TaskStates()[..i];
        i := i + 1;
      }
      assert TaskStates()[..i] == TaskStates();
    }

    /** `getIncompleteCallables`: the incomplete tasks' callables, in task order; its second `isComplete` test always passes. */
    method GetIncompleteCallables() returns (callables: seq<W>)
      ensures var positions := IncompletePositions(TaskStates());
              |callables| == |positions| && forall k :: 0 <= k < |positions| ==> callables[k] == tasks[positions[k]].callable
    {
      var incomplete := GetIncompleteTasks();
      callables := [];
      var k := 0;
      while k < |incomplete|
        invariant 0 <= k <= |incomplete| && |callables| == k
        invariant forall j :: 0 <= j < k ==> callables[j] == incomplete[j].callable
      {
        var t := incomplete[k];
        if !t.isComplete {
          callables := callables + [t.callable];
        } else {
          assert false;
        }
        k := k + 1;
      }
    }

    /**
     * `areResultsComplete`: the incomplete list is captured before the loop;
     * the k-th future's value goes to its k-th task, and a failed future
     * still advances the position. True iff no task remains incomplete.
     */
    method AreResultsComplete(futures: seq<Attempt<T>>) returns (complete: bool)
      requires Valid() && |futures| == |IncompletePositions(TaskStates())|
      modifies tasks
      ensures TaskStates() == ApplyFutures(old(TaskStates()), IncompletePositions(old(TaskStates())), futures)
      ensures complete <==> NoneIncomplete(TaskStates())
    {
      var count := 0;
      var incompleteTasks := GetIncompleteTasks();
      ghost var initial := TaskStates();
      ghost var positions := IncompletePositions(initial);
      var k := 0;
      while k < |futures|
        invariant 0 <= k <= |futures| && count == k
        invariant |incompleteTasks| == |futures|
        invariant forall j :: 0 <= j < |futures| ==> incompleteTasks[j] == tasks[positions[j]]
        invariant ApplyFutures(TaskStates(), positions[k..], futures[k..]) == ApplyFutures(initial, positions, futures)
      {
        ghost var current := TaskStates();
        ghost var p := positions[k];
        ApplyFuturesStep(current, positions, futures, k);
        match futures[k] {
          case Succeeded(result) =>
            var task := incompleteTasks[count];
            count := count + 1;
            RecordResult(task, p, result);
            assert TaskStates() == current[p := Matched(current[p], futures[k])];
          case Failed =>
            count := count + 1;
            assert current[p := Matched(current[p], futures[k])] == current;
        }
        k := k + 1;
      }
      assert futures[k..] == [];
      var remaining := GetIncompleteTasks();
      IncompletePositionsComplete(TaskStates());
      complete := |remaining| == 0;
    }

    /** `task.setResult(result); task.setComplete(true)` on the task at position `p`. */
    method RecordResult(task: Task<W, T>, ghost p: int, result: T)
      requires Valid() && 0 <= p < |tasks| && task == tasks[p]
      modifies task
      ensures TaskStates() == old(TaskStates())[p := TaskState(true, Some(result))]
    {
      task.SetResult(result);
      task.SetComplete(true);
      forall i | 0 <= i < |tasks|
        ensures TaskStates()[i] == old(TaskStates())[p := TaskState(true, Some(result))][i]
      {
        if i != p {
          assert tasks[i] != task;
        }
      }
    }

    /** `checkRetryPolicy`: compares, then increments; throws when the old count equals the limit. */
    method CheckRetryPolicy(groupIndex: int) returns (withinLimit: bool)
      modifies this
      ensures retryCount == old(retryCount) + 1
      ensures withinLimit <==> old(retryCount) != retryLimit
    {
      withinLimit := retryCount != retryLimit;
      retryCount := retryCount + 1;
    }

    /** `getResults`: one entry per task, in original task order. */
    method GetResults() returns (results: seq<Option<T>>)
      ensures |results| == |tasks|
      ensures forall i :: 0 <= i < |tasks| ==> results[i] == tasks[i].result
      ensures results == ResultsOf(TaskStates())
    {
      results := [];
      var k := 0;
      while k < |tasks|
        invariant 0 <= k <= |tasks| && |results| == k
        invariant forall i :: 0 <= i < k ==> results[i] == tasks[i].result
      {
        results := results + [tasks[k].result];
        k := k + 1;
      }
    }
  }
}
