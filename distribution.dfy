/**
 * The sequencers of the `workgroup` package: `Distributor`, which runs a list
 * of groups on a fixed pool it creates for each `doWork` call, and `Space`,
 * which collects groups and hands them all to a new `Distributor` when asked
 * to solve.
 */
module Distribution {
  import opened Pools
  import opened Sequencing

  /**
   * What `doWork` returns or throws for a pool size and a list of groups: the
   * pool is created before the `try`, so a non-positive size fails at once;
   * otherwise the groups run in order from index 0 on the new, open pool.
   */
  function Distributed<G, R, E>(threadPoolSize: int, groups: seq<G>, run: (G, int, PoolView) -> GroupRun<R, E>): WorkOutcome<R, E>
  {
    if threadPoolSize <= 0 then PoolSizeRejected
    else InOrder(groups, 0, PoolView(Fixed(threadPoolSize), false), run)
  }

  /**
   * A valid pool size is never what makes `doWork` fail, and an invalid one
   * fails before any group runs; with a valid size the k-th group sees index k.
   */
  lemma DistributedOutcome<G, R, E>(threadPoolSize: int, groups: seq<G>, run: (G, int, PoolView) -> GroupRun<R, E>)
    ensures Distributed(threadPoolSize, groups, run).PoolSizeRejected? <==> threadPoolSize <= 0
    ensures var o := Distributed(threadPoolSize, groups, run);
            o.Completed? ==>
              |o.results| == |groups| &&
              forall k :: 0 <= k < |groups| ==>
                var ran := run(groups[k], k, PoolView(Fixed(threadPoolSize), false));
                ran.Finished? && o.results[k] == ran.result
  {
    var view := PoolView(Fixed(threadPoolSize), false);
    InOrderCompleted(groups, 0, view, run);
    var o := Distributed(threadPoolSize, groups, run);
    if o.Completed? {
      forall k | 0 <= k < |groups|
        ensures run(groups[k], k, view).Finished? && o.results[k] == run(groups[k], k, view).result
      {
        assert run(groups[k], 0 + k, view).Finished? && o.results[k] == run(groups[k], 0 + k, view).result;
      }
    }
  }

  class Distributor {
    const threadPoolSize: int

    constructor (threadPoolSize: int)
      ensures this.threadPoolSize == threadPoolSize
    {
      this.threadPoolSize := threadPoolSize;
    }

    /**
     * `doWork`: a fresh fixed pool of `threadPoolSize` threads per call, the
     * groups in order from index 0, and the pool shut down in the `finally`
     * clause whichever way the loop ends. `pool` is that pool (null when the
     * size was refused and no pool was made).
     */
    method DoWork<G, R, E>(workGroups: seq<G>, run: (G, int, PoolView) -> GroupRun<R, E>)
      returns (outcome: WorkOutcome<R, E>, pool: ExecutorPool?)
      ensures outcome == Distributed(threadPoolSize, workGroups, run)
      ensures pool == null <==> threadPoolSize <= 0
      ensures pool != null ==> fresh(pool) && pool.kind == Fixed(threadPoolSize) && pool.isShutdown
    {
      if threadPoolSize <= 0 {
        return PoolSizeRejected, null;
      }
      pool := new ExecutorPool(Fixed(threadPoolSize));
      outcome := RunInOrder(workGroups, 0, pool.View(), run);
      pool.Shutdown();
    }
  }

  class Space<G> {
    var workGroups: seq<G>
    const threads: int

    constructor (threads: int)
      ensures this.threads == threads && workGroups == []
    {
      this.threads := threads;
      workGroups := [];
    }

    /** `addWorkGroup`: the group goes at the end of the list. */
    method AddWorkGroup(group: G)
      modifies this
      ensures workGroups == old(workGroups) + [group]
    {
      workGroups := workGroups + [group];
    }

    /**
     * `solve`: all groups, in the order they were added, go to a new
     * `Distributor` of `threads` threads, whose result is returned as is.
     * The list is left as it was, so a second call runs every group again.
     */
    method Solve<R, E>(run: (G, int, PoolView) -> GroupRun<R, E>) returns (outcome: WorkOutcome<R, E>)
      ensures outcome == Distributed(threads, workGroups, run)
    {
      var d := new Distributor(threads);
      var pool;
      outcome, pool := d.DoWork(workGroups, run);
    }
  }
}
