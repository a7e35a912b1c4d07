/**
 * The sequencers of the `exemplars` package. Both own a fixed pool created in
 * their constructor and hand it, with a timeout, to every group; both shut it
 * down when `doWork` ends, so the instance's pool is closed for any later
 * call. `Distributor` numbers its groups from 0; `WorkGroupDistributor` reads
 * the index from its list iterator after `next()`, so its groups are
 * numbered from 1.
 */
module Exemplars {
  import opened Wrappers
  import opened Pools
  import opened Sequencing
  import opened GroupSpec
  import opened WorkGroups

  /** What every group is handed besides its index: the shared pool, as it stands, and the timeout. */
  datatype Service = Service(pool: PoolView, timeout: int)

  class Distributor {
    const timeout: int
    const service: ExecutorPool

    /** The pool is made once, here; `newFixedThreadPool` refuses a non-positive size. */
    constructor (threadPoolSize: int, timeout: int)
      requires threadPoolSize > 0
      ensures fresh(service) && service.kind == Fixed(threadPoolSize) && !service.isShutdown
      ensures service.submissions == 0 && this.timeout == timeout
    {
      service := new ExecutorPool(Fixed(threadPoolSize));
      this.timeout := timeout;
    }

    /**
     * `doWork`: the k-th processor runs with index k, the shared service and
     * the timeout; the service is shut down in the `finally` clause.
     */
    method DoWork<P, R, E>(workGroups: seq<P>, run: (P, int, Service) -> GroupRun<R, E>) returns (outcome: WorkOutcome<R, E>)
      modifies service
      ensures outcome == InOrder(workGroups, 0, Service(old(service.View()), timeout), run)
      ensures service.isShutdown && service.submissions == old(service.submissions)
    {
      outcome := RunInOrder(workGroups, 0, Service(service.View(), timeout), run);
      service.Shutdown();
    }
  }

  class WorkGroupDistributor {
    const timeout: int
    const service: ExecutorPool

    constructor (threadPoolSize: int, timeout: int)
      requires threadPoolSize > 0
      ensures fresh(service) && service.kind == Fixed(threadPoolSize) && !service.isShutdown
      ensures service.submissions == 0 && this.timeout == timeout
    {
      service := new ExecutorPool(Fixed(threadPoolSize));
      this.timeout := timeout;
    }

    /**
     * `doWork`: each list of callables becomes a work group run on the shared
     * service, with the iterator's `nextIndex()` after `next()` as its index,
     * that is 1 for the first group; the service is shut down in `finally`.
     */
    method DoWork<W, R, E>(workLoad: seq<seq<W>>, run: (seq<W>, int, Service) -> GroupRun<R, E>) returns (outcome: WorkOutcome<R, E>)
      modifies service
      ensures outcome == InOrder(workLoad, 1, Service(old(service.View()), timeout), run)
      ensures service.isShutdown && service.submissions == old(service.submissions)
    {
      outcome := RunInOrder(workLoad, 1, Service(service.View(), timeout), run);
      service.Shutdown();
    }
  }

  /** What `invokeAll` and the retry limit throw out of a round-based work group. */
  datatype GroupError = RejectedExecution | RetryLimitError(groupIndex: int)

  /**
   * A list of callables processed as a round-based `WorkGroup` on the given
   * service; `outcome` says what each of its futures yields.
   */
  function WorkGroupRun<W, T>(callables: seq<W>, groupIndex: int, service: Service, outcome: (int, int) -> Attempt<T>)
    : GroupRun<seq<Option<T>>, GroupError>
  {
    var states := seq(|callables|, _ => TaskState(false, None));
    match ProcessWorkGroup(states, groupIndex, service.pool.isShutdown, outcome).2
    case Done(results) => Finished(results)
    case RetryLimitExceeded(g) => Raised(Unchecked(RetryLimitError(g)))
    case Rejected => Raised(Unchecked(RejectedExecution))
  }

  /**
   * Once a `doWork` call has shut the service down, a later call on the same
   * instance fails on its first non-empty group: `invokeAll` rejects the
   * work, and the exception leaves `doWork` uncaught.
   */
  lemma ShutDownServiceRejects<W, T>(workLoad: seq<seq<W>>, kind: PoolKind, timeout: int, env: int -> ((int, int) -> Attempt<T>))
    requires |workLoad| > 0 && |workLoad[0]| > 0
    ensures InOrder(workLoad, 1, Service(PoolView(kind, true), timeout),
                    (ws: seq<W>, i: int, svc: Service) => WorkGroupRun(ws, i, svc, env(i)))
            == Propagated(RejectedExecution)
  {
    var svc := Service(PoolView(kind, true), timeout);
    var run := (ws: seq<W>, i: int, svc: Service) => WorkGroupRun(ws, i, svc, env(i));
    var states: seq<TaskState<T>> := seq(|workLoad[0]|, _ => TaskState(false, None));
    assert !states[0].complete;
    RoundsOutcome(states, 0, 1, true, env(1));
    assert run(workLoad[0], 1 + 0, svc) == Raised(Unchecked(RejectedExecution));
    InOrderFirstFault(workLoad, 1, svc, run, 0);
  }
}
