/**
 * The sequential behaviour of the completion-driven `Group` executor, as
 * functions on an abstract state. Thread scheduling becomes a sequence of
 * completion events chosen by the environment: each event names the pending
 * future that `take()` returns and whether its callable produced a value or
 * threw. A retry worker runs synchronously inside the step that dispatches
 * it: the policy either lets the retry through (one new pending future for the
 * same task) or throws (the exception is recorded and the collector thread is
 * interrupted, which its next `take()` observes).
 */
module GroupSpec {
  import opened Wrappers
  import opened RetryPolicy
  import RetrierDecorators

  /** What `future.get()` yields: a value, or an `ExecutionException`. */
  datatype Attempt<T> = Succeeded(value: T) | Failed

  /** One future handed out by `ecs.take()`, with its outcome. */
  datatype Completion<T> = Completion(handle: nat, attempt: Attempt<T>)

  datatype TaskState<T> = TaskState(complete: bool, result: Option<T>)

  /** Everything the collector loop reads or writes. */
  datatype Collector<T> = Collector(
    tasks: seq<TaskState<T>>,           // indexed by task id
    futureMap: map<nat, int>,           // pending future handle -> task id
    submitted: nat,                     // futures handed out so far by the execution pool
    counters: Counters,                 // the retry policy's counters
    waited: nat,                        // milliseconds spent in backoff waits
    flagSet: bool,                      // the static isRetryExceptionSet
    retryException: Option<RetryError>, // this group's retryException field
    interrupted: bool)                  // an interrupt was delivered to the collector thread

  /** How `processAsyncTaskResults` ends: true, false, or an exception. */
  datatype LoopExit = AllComplete | Interrupted | UnknownHandle(handle: nat) | UnknownTask(taskId: int) | Waiting

  /**
   * How `processGroup` ends. `NullThrown` is `throw retryException` with the
   * field still null, which throws a NullPointerException; `HandleNotMapped`
   * is the NullPointerException of unboxing `futureMap.get` for a future not in
   * the map; `TaskNotFound` is `getTask`'s IllegalStateException; `SubmitRejected`
   * is the RejectedExecutionException of `ecs.submit` on a completion pool an
   * earlier `processGroup` shut down. `StillWaiting` means the events ran out
   * while the collector was blocked in `take()`: the call has not returned,
   * so its `finally` has not shut the pools down.
   */
  datatype GroupOutcome<T> =
    | Results(values: seq<Option<T>>)
    | SubmitRejected
    | Thrown(error: RetryError)
    | NullThrown
    | HandleNotMapped(handle: nat)
    | TaskNotFound(taskId: int)
    | StillWaiting

  predicate NoneIncomplete<T>(tasks: seq<TaskState<T>>)
  {
    forall i :: 0 <= i < |tasks| ==> tasks[i].complete
  }

  /** A group as the constructor leaves it: n incomplete tasks, nothing pending, the given policy state. */
  function Initial<T>(n: nat, counters: Counters, flagSet: bool): (s: Collector<T>)
    ensures |s.tasks| == n && forall i :: 0 <= i < n ==> s.tasks[i] == TaskState(false, None)
  {
    Collector(seq(n, _ => TaskState(false, None)), map[], 0, counters, 0, flagSet, None, false)
  }

  /**
   * The entries `submitTasksForProcessing` puts in `futureMap` when the pool
   * has already handed out `start` futures: the futures of tasks 0 to n - 1,
   * submitted in that order, each mapped to its task's id.
   */
  function FutureEntries(start: nat, n: nat): (m: map<nat, int>)
    ensures forall h :: h in m <==> start <= h < start + n
    ensures forall h :: h in m ==> m[h] == h - start
    decreases n
  {
    if n == 0 then map[] else FutureEntries(start, n - 1)[start + n - 1 := n - 1]
  }

  /** `submitTasksForProcessing`: one new future per task, in task order. */
  function Submitted<T>(s: Collector<T>): Collector<T>
  {
    s.(futureMap := s.futureMap + FutureEntries(s.submitted, |s.tasks|), submitted := s.submitted + |s.tasks|)
  }

  /** `setRetryException`: only the first call in the process stores its exception. */
  function SetRetryException<T>(s: Collector<T>, e: RetryError): (r: Collector<T>)
    ensures r.flagSet
    ensures s.flagSet ==> r == s
    ensures !s.flagSet ==> r.retryException == Some(e) && r == s.(retryException := Some(e), flagSet := true)
  {
    if s.flagSet then s else s.(retryException := Some(e), flagSet := true)
  }

  /** `RetryWorker.run` for a failed attempt of task `taskId`. */
  function RunRetryWorker<T>(s: Collector<T>, groupIndex: int, taskId: int): Collector<T>
  {
    var (c, o) := RetryStep(s.counters, groupIndex, taskId);
    if o.Pass? then
      s.(counters := c, waited := s.waited + RetrierDecorators.RetryWait,
         futureMap := s.futureMap[s.submitted := taskId], submitted := s.submitted + 1)
    else
      SetRetryException(s.(counters := c), o.error).(interrupted := true)
  }

  /** The body of the collector loop for one taken future `h` known to belong to task `id`. */
  function Consume<T>(s: Collector<T>, groupIndex: int, h: nat, id: int, attempt: Attempt<T>): Collector<T>
    requires 0 <= id < |s.tasks|
  {
    var s1 := match attempt
      case Succeeded(v) => s.(tasks := s.tasks[id := TaskState(true, Some(v))])
      case Failed => RunRetryWorker(s, groupIndex, id);
    s1.(futureMap := s1.futureMap - {h})
  }

  /** `processAsyncTaskResults` run against the given completions. */
  function Collect<T>(s: Collector<T>, groupIndex: int, events: seq<Completion<T>>): (r: (Collector<T>, LoopExit))
    ensures r.1.AllComplete? <==> NoneIncomplete(r.0.tasks)
    ensures r.1.Interrupted? ==> r.0.interrupted
    // the first stored exception is never replaced, and the static flag is never reset
    ensures s.flagSet ==> r.0.flagSet && r.0.retryException == s.retryException
    ensures Grown(s.counters, r.0.counters)
    ensures |r.0.tasks| == |s.tasks|
    decreases |events|
  {
    if NoneIncomplete(s.tasks) then (s, AllComplete)
    else if s.interrupted then (s, Interrupted)
    else if events == [] then (s, Waiting)
    else
      var h := events[0].handle;
      if h !in s.futureMap then (s, UnknownHandle(h))
      else
        var id := s.futureMap[h];
        if !(0 <= id < |s.tasks|) then (s.(futureMap := s.futureMap - {h}), UnknownTask(id))
        else Collect(Consume(s, groupIndex, h, id, events[0].attempt), groupIndex, events[1..])
  }

  function ResultsOf<T>(tasks: seq<TaskState<T>>): seq<Option<T>>
  {
    seq(|tasks|, i requires 0 <= i < |tasks| => tasks[i].result)
  }

  /**
   * `processGroup`: submit every task, run the collector, then return the
   * results or throw. `poolShutdown` is the state of the completion pool on
   * entry: a shut-down pool rejects the first submission, before any future
   * is recorded, so a group with tasks changes nothing and ends in `SubmitRejected`.
   */
  function ProcessGroupSpec<T>(s: Collector<T>, groupIndex: int, poolShutdown: bool, events: seq<Completion<T>>)
    : (r: (Collector<T>, GroupOutcome<T>))
  {
    if poolShutdown && |s.tasks| > 0 then (s, SubmitRejected)
    else
      var (s2, exit) := Collect(Submitted(s), groupIndex, events);
      (s2, Outcome(s2, exit))
  }

  /** What `processGroup` returns or throws once the collector has ended with `exit` in state `s`. */
  function Outcome<T>(s: Collector<T>, exit: LoopExit): GroupOutcome<T>
  {
    match exit
    case AllComplete => Results(ResultsOf(s.tasks))
    case Interrupted => if s.retryException.Some? then Thrown(s.retryException.value) else NullThrown
    case UnknownHandle(h) => HandleNotMapped(h)
    case UnknownTask(id) => TaskNotFound(id)
    case Waiting => StillWaiting
  }

  /** Every pending future was handed out by the pool and belongs to a valid, incomplete task. */
  ghost predicate PendingValid<T>(s: Collector<T>)
  {
    forall h :: h in s.futureMap ==>
      h < s.submitted && 0 <= s.futureMap[h] < |s.tasks| && !s.tasks[s.futureMap[h]].complete
  }

  /** No task has two attempts in flight. */
  ghost predicate OnePendingPerTask<T>(s: Collector<T>)
  {
    forall h1, h2 :: h1 in s.futureMap && h2 in s.futureMap && s.futureMap[h1] == s.futureMap[h2] ==> h1 == h2
  }

  /** Unless a fatal retry interrupted the collector, every incomplete task has an attempt in flight. */
  ghost predicate IncompleteArePending<T>(s: Collector<T>)
  {
    !s.interrupted ==>
      forall i :: 0 <= i < |s.tasks| && !s.tasks[i].complete ==> exists h :: h in s.futureMap && s.futureMap[h] == i
  }

  ghost predicate CompleteHaveResults<T>(tasks: seq<TaskState<T>>)
  {
    forall i :: 0 <= i < |tasks| && tasks[i].complete ==> tasks[i].result.Some?
  }

  /** The bookkeeping invariant of the collector. */
  ghost predicate Inv<T>(s: Collector<T>)
  {
    && PendingValid(s)
    && OnePendingPerTask(s)
    && IncompleteArePending(s)
    && CompleteHaveResults(s.tasks)
    && (s.retryException.Some? ==> s.flagSet)
  }

  /** Submission maps exactly one fresh future to each task, so a new group satisfies the invariant. */
  lemma SubmittedInv<T>(s: Collector<T>)
    requires s.futureMap == map[] && !s.interrupted && (s.retryException.Some? ==> s.flagSet)
    requires forall i :: 0 <= i < |s.tasks| ==> !s.tasks[i].complete
    ensures Inv(Submitted(s))
  {
    var s1 := Submitted(s);
    var entries := FutureEntries(s.submitted, |s.tasks|);
    assert s1.futureMap == entries;
    forall i | 0 <= i < |s.tasks| && !s1.tasks[i].complete
      ensures exists h :: h in s1.futureMap && s1.futureMap[h] == i
    {
      assert s.submitted + i in entries;
    }
  }

  /** One loop iteration keeps the invariant. */
  lemma ConsumeInv<T>(s: Collector<T>, groupIndex: int, h: nat, attempt: Attempt<T>)
    requires Inv(s) && !s.interrupted && h in s.futureMap
    ensures 0 <= s.futureMap[h] < |s.tasks|
    ensures Inv(Consume(s, groupIndex, h, s.futureMap[h], attempt))
  {
    match attempt
    case Succeeded(v) => ConsumeSuccessInv(s, groupIndex, h, v);
    case Failed => ConsumeFailureInv(s, groupIndex, h);
  }

  lemma ConsumeSuccessInv<T>(s: Collector<T>, groupIndex: int, h: nat, v: T)
    requires Inv(s) && !s.interrupted && h in s.futureMap
    ensures 0 <= s.futureMap[h] < |s.tasks|
    ensures Inv(Consume(s, groupIndex, h, s.futureMap[h], Succeeded(v)))
  {
    var id := s.futureMap[h];
    var r := Consume(s, groupIndex, h, id, Succeeded(v));
    assert r.futureMap == s.futureMap - {h} && r.tasks == s.tasks[id := TaskState(true, Some(v))];
    assert r.submitted == s.submitted && r.interrupted == s.interrupted;
    forall i | 0 <= i < |r.tasks| && !r.tasks[i].complete
      ensures exists h' :: h' in r.futureMap && r.futureMap[h'] == i
    {
      assert i != id && !s.tasks[i].complete;
      var h' :| h' in s.futureMap && s.futureMap[h'] == i;
      assert h' != h && h' in r.futureMap;
    }
    assert IncompleteArePending(r);
    forall h' | h' in r.futureMap
      ensures h' < r.submitted && 0 <= r.futureMap[h'] < |r.tasks| && !r.tasks[r.futureMap[h']].complete
    {
      assert s.futureMap[h'] != id;
    }
    assert PendingValid(r);
  }

  lemma ConsumeFailureInv<T>(s: Collector<T>, groupIndex: int, h: nat)
    requires Inv(s) && !s.interrupted && h in s.futureMap
    ensures 0 <= s.futureMap[h] < |s.tasks|
    ensures Inv(Consume(s, groupIndex, h, s.futureMap[h], Failed))
  {
    var id := s.futureMap[h];
    var r := Consume(s, groupIndex, h, id, Failed);
    var (c, o) := RetryStep(s.counters, groupIndex, id);
    assert r.tasks == s.tasks;
    if o.Pass? {
      assert r.futureMap == s.futureMap[s.submitted := id] - {h};
      assert r.submitted == s.submitted + 1 && !r.interrupted;
      assert s.submitted !in s.futureMap;
      forall i | 0 <= i < |r.tasks| && !r.tasks[i].complete
        ensures exists h' :: h' in r.futureMap && r.futureMap[h'] == i
      {
        if i == id {
          assert r.futureMap[s.submitted] == id;
        } else {
          var h' :| h' in s.futureMap && s.futureMap[h'] == i;
          assert h' != h && h' != s.submitted;
          assert r.futureMap[h'] == i;
        }
      }
      assert IncompleteArePending(r);
      assert OnePendingPerTask(r);
    } else {
      assert r.futureMap == s.futureMap - {h};
      assert r.interrupted;
    }
  }

  /**
   * From a state that satisfies the invariant the collector keeps it, never
   * hits `getTask`'s unknown-id exception, and never changes a task that was
   * already complete.
   */
  lemma {:induction false} CollectInv<T>(s: Collector<T>, groupIndex: int, events: seq<Completion<T>>)
    requires Inv(s)
    ensures var r := Collect(s, groupIndex, events);
            && Inv(r.0)
            && !r.1.UnknownTask?
            && (forall i :: 0 <= i < |s.tasks| && s.tasks[i].complete ==> r.0.tasks[i] == s.tasks[i])
    decreases |events|
  {
    if !NoneIncomplete(s.tasks) && !s.interrupted && events != [] && events[0].handle in s.futureMap {
      var h := events[0].handle;
      var id := s.futureMap[h];
      var s1 := Consume(s, groupIndex, h, id, events[0].attempt);
      ConsumeInv(s, groupIndex, h, events[0].attempt);
      assert forall i :: 0 <= i < |s.tasks| && s.tasks[i].complete ==> s1.tasks[i] == s.tasks[i];
      CollectInv(s1, groupIndex, events[1..]);
    }
  }

  /**
   * The loop returns normally only when every task is complete, leaving no
   * future pending; it exits through the interrupt only after a fatal retry,
   * with the flag set; and when the events run out first, some attempt is still
   * in flight for the collector to wait on.
   */
  lemma CollectExits<T>(s: Collector<T>, groupIndex: int, events: seq<Completion<T>>)
    requires Inv(s) && !s.interrupted
    ensures var r := Collect(s, groupIndex, events);
            && (r.1.Interrupted? ==> r.0.flagSet && r.0.interrupted)
            && (r.1.Waiting? ==> r.0.futureMap != map[])
            && (r.1.AllComplete? ==> r.0.futureMap == map[])
  {
    CollectInvFlag(s, groupIndex, events);
    var r := Collect(s, groupIndex, events);
    CollectInv(s, groupIndex, events);
    if r.1.Waiting? {
      var i :| 0 <= i < |r.0.tasks| && !r.0.tasks[i].complete;
      var h :| h in r.0.futureMap && r.0.futureMap[h] == i;
    }
  }

  /** An interrupt comes only from a fatal retry, which sets the static flag first; `Waiting` means no interrupt. */
  lemma {:induction false} CollectInvFlag<T>(s: Collector<T>, groupIndex: int, events: seq<Completion<T>>)
    requires !s.interrupted
    ensures var r := Collect(s, groupIndex, events);
            (r.0.interrupted ==> r.0.flagSet) && (r.1.Waiting? ==> !r.0.interrupted)
    decreases |events|
  {
    if !NoneIncomplete(s.tasks) && events != [] && events[0].handle in s.futureMap {
      var h := events[0].handle;
      var id := s.futureMap[h];
      if 0 <= id < |s.tasks| {
        var s1 := Consume(s, groupIndex, h, id, events[0].attempt);
        if !s1.interrupted {
          CollectInvFlag(s1, groupIndex, events[1..]);
        }
      }
    }
  }

  /** Two successful completions of different tasks commute. */
  lemma ConsumeCommutes<T>(s: Collector<T>, groupIndex: int, h1: nat, id1: int, v1: T, h2: nat, id2: int, v2: T)
    requires h1 != h2 && id1 != id2 && 0 <= id1 < |s.tasks| && 0 <= id2 < |s.tasks|
    ensures Consume(Consume(s, groupIndex, h1, id1, Succeeded(v1)), groupIndex, h2, id2, Succeeded(v2))
         == Consume(Consume(s, groupIndex, h2, id2, Succeeded(v2)), groupIndex, h1, id1, Succeeded(v1))
  {
    var t1, t2 := TaskState(true, Some(v1)), TaskState(true, Some(v2));
    assert s.tasks[id1 := t1][id2 := t2] == s.tasks[id2 := t2][id1 := t1];
    assert s.futureMap - {h1} - {h2} == s.futureMap - {h2} - {h1};
  }

  /**
   * Completion order does not matter: two successful completions of
   * different pending futures lead to the same state and exit whichever the
   * pool finishes first.
   */
  lemma CompletionOrderIrrelevant<T>(s: Collector<T>, groupIndex: int, h1: nat, v1: T, h2: nat, v2: T,
                                     rest: seq<Completion<T>>)
    requires Inv(s) && !s.interrupted
    requires h1 in s.futureMap && h2 in s.futureMap && h1 != h2
    ensures Collect(s, groupIndex, [Completion(h1, Succeeded(v1)), Completion(h2, Succeeded(v2))] + rest)
         == Collect(s, groupIndex, [Completion(h2, Succeeded(v2)), Completion(h1, Succeeded(v1))] + rest)
  {
    var id1, id2 := s.futureMap[h1], s.futureMap[h2];
    assert id1 != id2;
    var e1, e2 := Completion(h1, Succeeded(v1)), Completion(h2, Succeeded(v2));
    var a := Consume(s, groupIndex, h1, id1, e1.attempt);
    var b := Consume(s, groupIndex, h2, id2, e2.attempt);
    assert !NoneIncomplete(s.tasks) by { assert !s.tasks[id1].complete; }
    assert !NoneIncomplete(a.tasks) by { assert !a.tasks[id2].complete; }
    assert !NoneIncomplete(b.tasks) by { assert !b.tasks[id1].complete; }
    assert h2 in a.futureMap && a.futureMap[h2] == id2 && !a.interrupted;
    assert h1 in b.futureMap && b.futureMap[h1] == id1 && !b.interrupted;
    ConsumeCommutes(s, groupIndex, h1, id1, v1, h2, id2, v2);
    var xs, ys := [e1, e2] + rest, [e2, e1] + rest;
    assert xs[0] == e1 && xs[1..][0] == e2 && xs[1..][1..] == rest;
    assert ys[0] == e2 && ys[1..][0] == e1 && ys[1..][1..] == rest;
    assert Collect(s, groupIndex, xs) == Collect(a, groupIndex, xs[1..]);
    assert Collect(a, groupIndex, xs[1..]) == Collect(Consume(a, groupIndex, h2, id2, e2.attempt), groupIndex, rest);
    assert Collect(s, groupIndex, ys) == Collect(b, groupIndex, ys[1..]);
    assert Collect(b, groupIndex, ys[1..]) == Collect(Consume(b, groupIndex, h1, id1, e1.attempt), groupIndex, rest);
  }

  /**
   * `processGroup` returns one result per task, in task-id order, each one
   * set, exactly when the collector ended normally; a thrown exception is the
   * first fatal retry's and names this group.
   */
  lemma ProcessGroupOutcome<T>(s: Collector<T>, groupIndex: int, poolShutdown: bool, events: seq<Completion<T>>)
    requires s.futureMap == map[] && !s.interrupted && s.retryException == None
    requires forall i :: 0 <= i < |s.tasks| ==> !s.tasks[i].complete
    ensures var (s2, out) := ProcessGroupSpec(s, groupIndex, poolShutdown, events);
            && (out.Results? <==> NoneIncomplete(s2.tasks))
            && (out.Results? ==>
                  && |out.values| == |s.tasks|
                  && forall i :: 0 <= i < |s.tasks| ==> out.values[i] == s2.tasks[i].result && out.values[i].Some?)
  {
    if poolShutdown && |s.tasks| > 0 {
      assert !s.tasks[0].complete;
    } else {
      assert ProcessGroupSpec(s, groupIndex, poolShutdown, events) == ProcessGroupSpec(s, groupIndex, false, events);
      OpenPoolOutcome(s, groupIndex, events);
    }
  }

  /** `ProcessGroupOutcome` for a completion pool that accepts the submissions. */
  lemma OpenPoolOutcome<T>(s: Collector<T>, groupIndex: int, events: seq<Completion<T>>)
    requires s.futureMap == map[] && !s.interrupted && s.retryException == None
    requires forall i :: 0 <= i < |s.tasks| ==> !s.tasks[i].complete
    ensures var (s2, out) := ProcessGroupSpec(s, groupIndex, false, events);
            && (out.Results? <==> NoneIncomplete(s2.tasks))
            && (out.Results? ==>
                  && |out.values| == |s.tasks|
                  && forall i :: 0 <= i < |s.tasks| ==> out.values[i] == s2.tasks[i].result && out.values[i].Some?)
  {
    SubmittedInv(s);
    var s1 := Submitted(s);
    CollectInv(s1, groupIndex, events);
    CollectExits(s1, groupIndex, events);
    var (s2, exit) := Collect(s1, groupIndex, events);
    assert ProcessGroupSpec(s, groupIndex, false, events).0 == s2;
    assert ProcessGroupSpec(s, groupIndex, false, events).1.Results? <==> exit.AllComplete?;
  }

  /**
   * A thrown exception is the first fatal retry's and names this group; no
   * task id is ever missing; and a shut-down completion pool rejects a group
   * with tasks, leaving its state as it was.
   */
  lemma ProcessGroupErrors<T>(s: Collector<T>, groupIndex: int, poolShutdown: bool, events: seq<Completion<T>>)
    requires s.futureMap == map[] && !s.interrupted && s.retryException == None
    requires forall i :: 0 <= i < |s.tasks| ==> !s.tasks[i].complete
    ensures var (s2, out) := ProcessGroupSpec(s, groupIndex, poolShutdown, events);
            && (out.Thrown? ==> !s.flagSet && out.error.groupId == groupIndex)
            && !out.TaskNotFound?
            && (out.SubmitRejected? <==> poolShutdown && |s.tasks| > 0)
            && (out.SubmitRejected? ==> s2 == s)
  {
    if !(poolShutdown && |s.tasks| > 0) {
      assert ProcessGroupSpec(s, groupIndex, poolShutdown, events) == ProcessGroupSpec(s, groupIndex, false, events);
      OpenPoolErrors(s, groupIndex, events);
    }
  }

  /** `ProcessGroupErrors` for a completion pool that accepts the submissions. */
  lemma OpenPoolErrors<T>(s: Collector<T>, groupIndex: int, events: seq<Completion<T>>)
    requires s.futureMap == map[] && !s.interrupted && s.retryException == None
    requires forall i :: 0 <= i < |s.tasks| ==> !s.tasks[i].complete
    ensures var out := ProcessGroupSpec(s, groupIndex, false, events).1;
            && (out.Thrown? ==> !s.flagSet && out.error.groupId == groupIndex)
            && !out.TaskNotFound? && !out.SubmitRejected?
  {
    SubmittedInv(s);
    var s1 := Submitted(s);
    CollectInv(s1, groupIndex, events);
    CollectExits(s1, groupIndex, events);
    CollectFatalNamesGroup(s1, groupIndex, events);
    var (s2, exit) := Collect(s1, groupIndex, events);
    assert ProcessGroupSpec(s, groupIndex, false, events).1.Thrown? ==> exit.Interrupted? && s2.retryException.Some?;
  }

  /** Whatever the collector stores in `retryException` names this group. */
  lemma {:induction false} CollectFatalNamesGroup<T>(s: Collector<T>, groupIndex: int, events: seq<Completion<T>>)
    requires s.retryException.Some? ==> s.retryException.value.groupId == groupIndex
    ensures var r := Collect(s, groupIndex, events).0;
            r.retryException.Some? ==> r.retryException.value.groupId == groupIndex
    decreases |events|
  {
    if !NoneIncomplete(s.tasks) && !s.interrupted && events != [] && events[0].handle in s.futureMap {
      var h := events[0].handle;
      var id := s.futureMap[h];
      if 0 <= id < |s.tasks| {
        CollectFatalNamesGroup(Consume(s, groupIndex, h, id, events[0].attempt), groupIndex, events[1..]);
      }
    }
  }

  /**
   * The guarding flag is static: once an earlier group in the process has set
   * it, a later group's fatal retry cannot store its exception, and that
   * group's `processGroup` ends in `throw null` rather than in the quota error,
   * and it does so exactly when its collector was interrupted.
   */
  lemma LaterGroupThrowsNull<T>(s: Collector<T>, groupIndex: int, events: seq<Completion<T>>)
    requires s.flagSet && s.retryException == None
    ensures var out := ProcessGroupSpec(s, groupIndex, false, events).1;
            && !out.Thrown?
            && (out.NullThrown? <==> Collect(Submitted(s), groupIndex, events).1.Interrupted?)
  {
    var (s2, exit) := Collect(Submitted(s), groupIndex, events);
    assert s2.retryException == None;
  }

  /** The k-th failed attempt of the only pending task of a group whose policy has seen only that task. */
  lemma RepeatedFailureStep<T>(s: Collector<T>, groupIndex: int, h: nat, id: int, k: nat)
    requires k >= 1 && 0 <= id < |s.tasks| && !s.tasks[id].complete
    requires s.counters == RepeatedState(groupIndex, id, k - 1)
    requires s.futureMap == map[h := id] && s.submitted == h + 1 && !s.interrupted && !s.flagSet
    ensures var r := Consume(s, groupIndex, h, id, Failed);
            && r.counters == RepeatedState(groupIndex, id, k) && r.tasks == s.tasks
            && (RepeatedOutcome(groupIndex, id, k).Pass? ==>
                  r.futureMap == map[h + 1 := id] && r.submitted == h + 2 && !r.interrupted && !r.flagSet)
            && (RepeatedOutcome(groupIndex, id, k).Fail? ==>
                  r.interrupted && r.retryException == Some(RepeatedOutcome(groupIndex, id, k).error))
  {
    RepeatedStep(groupIndex, id, k);
    var r := Consume(s, groupIndex, h, id, Failed);
    if RepeatedOutcome(groupIndex, id, k).Pass? {
      assert r.futureMap == map[h := id][h + 1 := id] - {h};
      assert map[h := id][h + 1 := id] - {h} == map[h + 1 := id];
    }
  }

  /** One loop iteration of the collector when a pending future is taken. */
  lemma CollectTakes<T>(s: Collector<T>, groupIndex: int, events: seq<Completion<T>>)
    requires !NoneIncomplete(s.tasks) && !s.interrupted && events != []
    requires events[0].handle in s.futureMap && 0 <= s.futureMap[events[0].handle] < |s.tasks|
    ensures Collect(s, groupIndex, events)
         == Collect(Consume(s, groupIndex, events[0].handle, s.futureMap[events[0].handle], events[0].attempt),
                    groupIndex, events[1..])
  {
  }

  /**
   * A one-task group whose task has failed `h` times and been resubmitted
   * each time: its only pending future is the h-th, and the policy has seen
   * `h` retries of task 0.
   */
  function OnePending<T>(groupIndex: int, h: nat, waited: nat): Collector<T>
  {
    Collector([TaskState(false, None)], map[h := 0], h + 1, RepeatedState(groupIndex, 0, h), waited, false, None, false)
  }

  /** A fresh one-task group after submission. */
  lemma SubmittedOne<T>(s: Collector<T>, groupIndex: int)
    requires s == Initial<T>(1, NoRetries, false)
    ensures Submitted(s) == OnePending<T>(groupIndex, s.submitted, s.waited)
  {
    assert s.tasks == [TaskState(false, None)];
    assert FutureEntries(0, 1) == map[0 := 0];
  }

  /** A failure the policy lets through: one more retry is counted and the task is pending again. */
  lemma RetriedFailure<T>(groupIndex: int, h: nat, waited: nat, rest: seq<Completion<T>>)
    requires RepeatedOutcome(groupIndex, 0, h + 1).Pass?
    ensures Collect(OnePending<T>(groupIndex, h, waited), groupIndex, [Completion(h, Failed)] + rest)
         == Collect(OnePending<T>(groupIndex, h + 1, waited + RetrierDecorators.RetryWait), groupIndex, rest)
  {
    var s := OnePending<T>(groupIndex, h, waited);
    var events := [Completion(h, Failed)] + rest;
    RepeatedFailureStep(s, groupIndex, h, 0, h + 1);
    CollectTakes(s, groupIndex, events);
    assert events[1..] == rest;
  }

  /** A failure the policy refuses: the collector is interrupted and the error is stored. */
  lemma FatalFailure<T>(groupIndex: int, h: nat, waited: nat, rest: seq<Completion<T>>)
    requires RepeatedOutcome(groupIndex, 0, h + 1).Fail?
    ensures var (r, exit) := Collect(OnePending<T>(groupIndex, h, waited), groupIndex, [Completion(h, Failed)] + rest);
            exit == Interrupted && r.retryException == Some(RepeatedOutcome(groupIndex, 0, h + 1).error)
  {
    var s := OnePending<T>(groupIndex, h, waited);
    var events := [Completion(h, Failed)] + rest;
    RepeatedFailureStep(s, groupIndex, h, 0, h + 1);
    CollectTakes(s, groupIndex, events);
  }

  /** A success completes the only task, and the collector ends normally with its value. */
  lemma PendingSucceeds<T>(groupIndex: int, h: nat, waited: nat, v: T, rest: seq<Completion<T>>)
    ensures var (r, exit) := Collect(OnePending<T>(groupIndex, h, waited), groupIndex, [Completion(h, Succeeded(v))] + rest);
            exit == AllComplete && r.tasks == [TaskState(true, Some(v))]
  {
    var s := OnePending<T>(groupIndex, h, waited);
    var events := [Completion(h, Succeeded(v))] + rest;
    assert !s.tasks[0].complete;
    CollectTakes(s, groupIndex, events);
    var s1 := Consume(s, groupIndex, h, 0, Succeeded(v));
    assert s1.tasks == [TaskState(true, Some(v))] && NoneIncomplete(s1.tasks);
  }

  /** A task that fails twice and then succeeds gets its value; the retries pass every quota. */
  lemma TwoFailuresThenSuccess<T>(s: Collector<T>, groupIndex: int, v: T, events: seq<Completion<T>>)
    requires s == Initial<T>(1, NoRetries, false)
    requires events == [Completion(0, Failed), Completion(1, Failed), Completion(2, Succeeded(v))]
    ensures ProcessGroupSpec(s, groupIndex, false, events).1 == Results([Some(v)])
  {
    var w := RetrierDecorators.RetryWait;
    var h := s.submitted;
    var w0 := s.waited;
    assert events == [Completion(h, Failed)] + events[1..];
    assert events[1..] == [Completion(h + 1, Failed)] + events[2..];
    assert events[2..] == [Completion(h + 2, Succeeded(v))] + [];
    SubmittedOne(s, groupIndex);
    RetriedFailure(groupIndex, h, w0, events[1..]);
    RetriedFailure(groupIndex, h + 1, w0 + w, events[2..]);
    PendingSucceeds(groupIndex, h + 2, w0 + w + w, v, []);
    var c := Collect(OnePending<T>(groupIndex, h + 2, w0 + w + w), groupIndex, events[2..]);
    assert ResultsOf(c.0.tasks) == [Some(v)];
  }

  /** A third failure of the same task trips the task quota and aborts the group with that error. */
  lemma ThreeFailuresAbort<T>(s: Collector<T>, groupIndex: int, events: seq<Completion<T>>)
    requires s == Initial<T>(1, NoRetries, false)
    requires events == [Completion(0, Failed), Completion(1, Failed), Completion(2, Failed)]
    ensures ProcessGroupSpec(s, groupIndex, false, events).1 == Thrown(RetryError(TaskCheck, groupIndex, 0))
  {
    var w := RetrierDecorators.RetryWait;
    var h := s.submitted;
    var w0 := s.waited;
    assert events == [Completion(h, Failed)] + events[1..];
    assert events[1..] == [Completion(h + 1, Failed)] + events[2..];
    assert events[2..] == [Completion(h + 2, Failed)] + [];
    SubmittedOne(s, groupIndex);
    RetriedFailure(groupIndex, h, w0, events[1..]);
    RetriedFailure(groupIndex, h + 1, w0 + w, events[2..]);
    FatalFailure<T>(groupIndex, h + 2, w0 + w + w, []);
  }
}
