/**
 * The `ImmediateCounting` retry quota policy. Each call to `retry(groupId,
 * taskId)` runs three checks in a fixed order — global, group, task — and the
 * first one that trips throws an `IllegalStateException` naming both ids; a
 * check that throws stops the call, so the later counters are not touched.
 *
 * The two maps are `static` in the source, shared by every instance in the
 * process; they live here in a `RetryCounts` object that instances share by
 * reference. The global count is a plain instance field.
 */
module RetryPolicy {

  const TaskRetryLimit: int := 2
  const GroupRetryLimit: int := 10
  const GlobalRetryLimit: int := 20

  /** Which check threw. */
  datatype Check = GlobalCheck | GroupCheck | TaskCheck

  /** The thrown `IllegalStateException`; its message carries both ids. */
  datatype RetryError = RetryError(check: Check, groupId: int, taskId: int)

  /** `retry` either returns normally or throws. */
  datatype RetryOutcome = Pass | Fail(error: RetryError)

  /** The stored count of an id; an id never seen counts as 0. */
  function CountOf(m: map<int, int>, id: int): int
  {
    if id in m then m[id] else 0
  }

  /** `m` after one more retry of `id`. */
  function Bumped(m: map<int, int>, id: int): (r: map<int, int>)
    ensures r.Keys == m.Keys + {id}
    ensures CountOf(r, id) == CountOf(m, id) + 1
    ensures forall other :: other != id ==> CountOf(r, other) == CountOf(m, other)
  {
    m[id := CountOf(m, id) + 1]
  }

  /** All three counters: the task and group maps and the global count. */
  datatype Counters = Counters(taskCounts: map<int, int>, groupCounts: map<int, int>, global: int)

  const NoRetries: Counters := Counters(map[], map[], 0)

  /** Every count in `b` is at least the one in `a`, and no key was dropped. */
  ghost predicate Grown(a: Counters, b: Counters)
  {
    && a.global <= b.global
    && a.taskCounts.Keys <= b.taskCounts.Keys
    && a.groupCounts.Keys <= b.groupCounts.Keys
    && (forall id :: CountOf(a.taskCounts, id) <= CountOf(b.taskCounts, id))
    && (forall id :: CountOf(a.groupCounts, id) <= CountOf(b.groupCounts, id))
  }

  /** One call of `retry(groupId, taskId)`: the new counters and whether it threw. */
  function RetryStep(c: Counters, groupId: int, taskId: int): (r: (Counters, RetryOutcome))
    // every call raises the global count, and the global check fires only when the old count equals the limit
    ensures r.0.global == c.global + 1
    ensures (r.1.Fail? && r.1.error.check == GlobalCheck) <==> c.global == GlobalRetryLimit
    // a global failure leaves both maps alone; a group failure leaves the task map alone
    ensures r.1.Fail? && r.1.error.check == GlobalCheck ==>
              r.0.groupCounts == c.groupCounts && r.0.taskCounts == c.taskCounts
    ensures r.1.Fail? && r.1.error.check == GroupCheck ==> r.0.taskCounts == c.taskCounts
    // once the global check passes, the group count of groupId goes up by one and trips above the limit
    ensures c.global != GlobalRetryLimit ==>
              && r.0.groupCounts == Bumped(c.groupCounts, groupId)
              && ((r.1.Fail? && r.1.error.check == GroupCheck) <==> CountOf(c.groupCounts, groupId) >= GroupRetryLimit)
    // once the group check passes too, the task count of taskId goes up by one and trips above the limit
    ensures c.global != GlobalRetryLimit && CountOf(c.groupCounts, groupId) < GroupRetryLimit ==>
              && r.0.taskCounts == Bumped(c.taskCounts, taskId)
              && (r.1.Fail? <==> CountOf(c.taskCounts, taskId) >= TaskRetryLimit)
    // the exception names the group and the task of the call
    ensures r.1.Fail? ==> r.1.error.groupId == groupId && r.1.error.taskId == taskId
    ensures Grown(c, r.0)
  {
    var afterGlobal := c.(global := c.global + 1);
    if c.global == GlobalRetryLimit then
      (afterGlobal, Fail(RetryError(GlobalCheck, groupId, taskId)))
    else
      var groups := Bumped(c.groupCounts, groupId);
      var afterGroup := afterGlobal.(groupCounts := groups);
      if CountOf(groups, groupId) > GroupRetryLimit then
        (afterGroup, Fail(RetryError(GroupCheck, groupId, taskId)))
      else
        var tasks := Bumped(c.taskCounts, taskId);
        var afterTask := afterGroup.(taskCounts := tasks);
        if CountOf(tasks, taskId) > TaskRetryLimit then
          (afterTask, Fail(RetryError(TaskCheck, groupId, taskId)))
        else
          (afterTask, Pass)
  }

  /** A sequence of `retry` calls on one policy instance, in order. */
  function RunRetries(c: Counters, calls: seq<(int, int)>): (r: (Counters, seq<RetryOutcome>))
    ensures |r.1| == |calls|
    decreases |calls|
  {
    if calls == [] then (c, [])
    else
      var (c1, o) := RetryStep(c, calls[0].0, calls[0].1);
      var (cn, os) := RunRetries(c1, calls[1..]);
      (cn, [o] + os)
  }

  /** The global count goes up by exactly one per call, whatever the outcomes. */
  lemma {:induction false} RunRaisesGlobal(c: Counters, calls: seq<(int, int)>)
    ensures RunRetries(c, calls).0.global == c.global + |calls|
    decreases |calls|
  {
    if calls != [] {
      RunRaisesGlobal(RetryStep(c, calls[0].0, calls[0].1).0, calls[1..]);
    }
  }

  /**
   * Because the global check compares with `==`, the k-th call of a run trips
   * it exactly when the count before the run plus k equals the limit: on a
   * fresh instance, only the 21st call, and never again after it.
   */
  lemma {:induction false} GlobalFailsOnlyAtLimit(c: Counters, calls: seq<(int, int)>, k: nat)
    requires k < |calls|
    ensures var o := RunRetries(c, calls).1[k];
            (o.Fail? && o.error.check == GlobalCheck) <==> c.global + k == GlobalRetryLimit
    decreases k
  {
    if k > 0 {
      GlobalFailsOnlyAtLimit(RetryStep(c, calls[0].0, calls[0].1).0, calls[1..], k - 1);
    }
  }

  /** No sequence of calls lowers or removes any counter. */
  lemma {:induction false} RunOnlyGrows(c: Counters, calls: seq<(int, int)>)
    ensures Grown(c, RunRetries(c, calls).0)
    decreases |calls|
  {
    if calls != [] {
      var c1 := RetryStep(c, calls[0].0, calls[0].1).0;
      RunOnlyGrows(c1, calls[1..]);
    }
  }

  /**
   * Task counts are keyed by the task id alone: two retries of task `t` from
   * two different groups raise one and the same counter, so with a task limit
   * of 2 the task check of the second call trips if `t` had one earlier retry.
   */
  lemma TaskCounterSharedAcrossGroups(c: Counters, g1: int, g2: int, t: int)
    requires c.global + 1 < GlobalRetryLimit
    requires CountOf(c.groupCounts, g1) + 1 < GroupRetryLimit && CountOf(c.groupCounts, g2) + 1 < GroupRetryLimit
    ensures var c1 := RetryStep(c, g1, t).0;
            CountOf(RetryStep(c1, g2, t).0.taskCounts, t) == CountOf(c.taskCounts, t) + 2
    ensures CountOf(c.taskCounts, t) == 1 ==> RetryStep(RetryStep(c, g1, t).0, g2, t).1 == Fail(RetryError(TaskCheck, g2, t))
  {
    var c1 := RetryStep(c, g1, t).0;
    assert CountOf(c1.groupCounts, g2) <= CountOf(c.groupCounts, g2) + 1;
  }

  /** The counters after `k` calls of `retry(g, t)` on a fresh instance (and fresh maps). */
  function RepeatedState(g: int, t: int, k: nat): Counters
  {
    if k == 0 then NoRetries else
    Counters(map[t := if k <= GroupRetryLimit then k else GroupRetryLimit],
             map[g := if k <= GlobalRetryLimit then k else k - 1],
             k)
  }

  /** The outcome of the k-th call (counting from 1) of `retry(g, t)` on a fresh instance. */
  function RepeatedOutcome(g: int, t: int, k: nat): RetryOutcome
  {
    if k == GlobalRetryLimit + 1 then Fail(RetryError(GlobalCheck, g, t))
    else if k > GroupRetryLimit then Fail(RetryError(GroupCheck, g, t))
    else if k > TaskRetryLimit then Fail(RetryError(TaskCheck, g, t))
    else Pass
  }

  /** One more call of `retry(g, t)` after k - 1 of them moves to the state after k. */
  lemma RepeatedStep(g: int, t: int, k: nat)
    requires k > 0
    ensures RetryStep(RepeatedState(g, t, k - 1), g, t) == (RepeatedState(g, t, k), RepeatedOutcome(g, t, k))
  {
    var prev := RepeatedState(g, t, k - 1);
    var next := RetryStep(prev, g, t);
    assert CountOf(prev.groupCounts, g) == if k - 1 <= GlobalRetryLimit then k - 1 else k - 2;
    assert CountOf(prev.taskCounts, t) == if k - 1 <= GroupRetryLimit then k - 1 else GroupRetryLimit;
    assert next.0.taskCounts == RepeatedState(g, t, k).taskCounts;
    assert next.0.groupCounts == RepeatedState(g, t, k).groupCounts;
  }

  /**
   * Retrying one task over and over on a fresh instance: calls 1 and 2 pass,
   * calls 3 to 10 fail the task check, call 11 onwards fails the group check,
   * except call 21, which fails the global check (the only call that can).
   */
  lemma {:induction false} RepeatedRetries(g: int, t: int, k: nat)
    ensures RunRetries(NoRetries, SameCall(g, t, k)) == (RepeatedState(g, t, k), RepeatedOutcomes(g, t, k))
  {
    if k == 0 {
      assert SameCall(g, t, 0) == [];
    } else {
      RepeatedRetries(g, t, k - 1);
      RepeatedStep(g, t, k);
      RunSnoc(NoRetries, SameCall(g, t, k - 1), (g, t));
    }
  }

  /** `k` calls of `retry(g, t)`. */
  function SameCall(g: int, t: int, k: nat): (r: seq<(int, int)>)
    ensures |r| == k && forall i :: 0 <= i < k ==> r[i] == (g, t)
  {
    if k == 0 then [] else SameCall(g, t, k - 1) + [(g, t)]
  }

  /** The outcomes of calls 1 to `k` of `retry(g, t)` on a fresh instance, in order. */
  function RepeatedOutcomes(g: int, t: int, k: nat): (r: seq<RetryOutcome>)
    ensures |r| == k && forall i :: 0 <= i < k ==> r[i] == RepeatedOutcome(g, t, i + 1)
  {
    if k == 0 then [] else RepeatedOutcomes(g, t, k - 1) + [RepeatedOutcome(g, t, k)]
  }

  /** Running one more call at the end of a run. */
  lemma {:induction false} RunSnoc(c: Counters, calls: seq<(int, int)>, call: (int, int))
    ensures var (cn, os) := RunRetries(c, calls);
            var (c2, o) := RetryStep(cn, call.0, call.1);
            RunRetries(c, calls + [call]) == (c2, os + [o])
    decreases |calls|
  {
    if calls == [] {
      assert calls + [call] == [call];
      var (c2, o) := RetryStep(c, call.0, call.1);
      assert RunRetries(c, [call]) == (c2, [o] + []);
      assert [o] + [] == [] + [o];
    } else {
      var (c1, o1) := RetryStep(c, calls[0].0, calls[0].1);
      assert (calls + [call])[0] == calls[0];
      assert (calls + [call])[1..] == calls[1..] + [call];
      RunSnoc(c1, calls[1..], call);
      var (cn, os) := RunRetries(c1, calls[1..]);
      var (c2, o) := RetryStep(cn, call.0, call.1);
      assert RunRetries(c, calls) == (cn, [o1] + os);
      assert RunRetries(c, calls + [call]) == (c2, [o1] + (os + [o]));
      assert [o1] + (os + [o]) == ([o1] + os) + [o];
    }
  }

  /** The static maps shared by every `ImmediateCounting` instance. */
  class RetryCounts {
    var taskRetryCounts: map<int, int>
    var groupRetryCounts: map<int, int>

    constructor ()
      ensures taskRetryCounts == map[] && groupRetryCounts == map[]
    {
      taskRetryCounts := map[];
      groupRetryCounts := map[];
    }
  }

  class ImmediateCounting {
    const counts: RetryCounts
    var globalRetryCount: int
    const taskRetryLimit: int := TaskRetryLimit
    const groupRetryLimit: int := GroupRetryLimit
    const globalRetryLimit: int := GlobalRetryLimit

    constructor (counts: RetryCounts)
      ensures this.counts == counts && globalRetryCount == 0
    {
      this.counts := counts;
      globalRetryCount := 0;
    }

    /** The counters this instance consults. */
    ghost function State(): Counters
      reads this, counts
    {
      Counters(counts.taskRetryCounts, counts.groupRetryCounts, globalRetryCount)
    }

    /** `retry`: the global, then the group, then the task check; the first that throws ends the call. */
    method Retry(groupId: int, taskId: int) returns (outcome: RetryOutcome)
      modifies this, counts
      ensures (State(), outcome) == RetryStep(old(State()), groupId, taskId)
    {
      outcome := CheckGlobalRetries(groupId, taskId);
      if outcome.Fail? { return; }
      outcome := CheckGroupRetries(groupId, taskId);
      if outcome.Fail? { return; }
      outcome := CheckTaskRetries(groupId, taskId);
    }

    /** `globalRetryCount++ == globalRetryLimit`: post-increment, compared with `==`. */
    method CheckGlobalRetries(groupId: int, taskId: int) returns (outcome: RetryOutcome)
      modifies this
      ensures globalRetryCount == old(globalRetryCount) + 1
      ensures outcome == if old(globalRetryCount) == globalRetryLimit
                         then Fail(RetryError(GlobalCheck, groupId, taskId)) else Pass
    {
      var before := globalRetryCount;
      globalRetryCount := globalRetryCount + 1;
      if before == globalRetryLimit {
        outcome := Fail(RetryError(GlobalCheck, groupId, taskId));
      } else {
        outcome := Pass;
      }
    }

    method CheckGroupRetries(groupId: int, taskId: int) returns (outcome: RetryOutcome)
      modifies counts
      ensures counts.groupRetryCounts == Bumped(old(counts.groupRetryCounts), groupId)
      ensures counts.taskRetryCounts == old(counts.taskRetryCounts)
      ensures outcome == if CountOf(old(counts.groupRetryCounts), groupId) >= groupRetryLimit
                         then Fail(RetryError(GroupCheck, groupId, taskId)) else Pass
    {
      var reached, updated := IsRetryLimitReached(groupId, groupRetryLimit, counts.groupRetryCounts);
      forall k | k in updated ensures updated[k] == Bumped(counts.groupRetryCounts, groupId)[k] { }
      assert updated == Bumped(counts.groupRetryCounts, groupId);
      counts.groupRetryCounts := updated;
      outcome := if reached then Fail(RetryError(GroupCheck, groupId, taskId)) else Pass;
    }

    method CheckTaskRetries(groupId: int, taskId: int) returns (outcome: RetryOutcome)
      modifies counts
      ensures counts.taskRetryCounts == Bumped(old(counts.taskRetryCounts), taskId)
      ensures counts.groupRetryCounts == old(counts.groupRetryCounts)
      ensures outcome == if CountOf(old(counts.taskRetryCounts), taskId) >= taskRetryLimit
                         then Fail(RetryError(TaskCheck, groupId, taskId)) else Pass
    {
      var reached, updated := IsRetryLimitReached(taskId, taskRetryLimit, counts.taskRetryCounts);
      forall k | k in updated ensures updated[k] == Bumped(counts.taskRetryCounts, taskId)[k] { }
      assert updated == Bumped(counts.taskRetryCounts, taskId);
      counts.taskRetryCounts := updated;
      outcome := if reached then Fail(RetryError(TaskCheck, groupId, taskId)) else Pass;
    }

    /**
     * Reads the stored count of `id` (putting 0 for an unseen id), stores it
     * plus one, and reports whether the new count exceeds the limit. The map
     * the source updates in place is passed in and returned updated.
     */
    static method IsRetryLimitReached(id: int, retryLimit: int, retryCounts: map<int, int>)
      returns (reached: bool, updated: map<int, int>)
      ensures updated.Keys == retryCounts.Keys + {id}
      ensures id !in retryCounts ==> updated[id] == 1
      ensures id in retryCounts ==> updated[id] == retryCounts[id] + 1
      ensures forall other :: other in retryCounts && other != id ==> updated[other] == retryCounts[other]
      ensures reached <==> updated[id] > retryLimit
    {
      var retries := 0;
      updated := retryCounts;
      if id in updated {
        retries := updated[id];
      } else {
        updated := updated[id := retries];
      }
      retries := retries + 1;
      updated := updated[id := retries];
      reached := retries > retryLimit;
    }
  }
}
