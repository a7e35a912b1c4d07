/**
 * An abstract executor service: the threads themselves are not modelled,
 * only what the sequential bookkeeping observes of a pool — its kind and
 * size, how many futures it has handed out (so that every submission gets a
 * fresh handle) and whether it has been shut down.
 */
module Pools {

  /** `Executors.newFixedThreadPool(n)` or `Executors.newCachedThreadPool()`. */
  datatype PoolKind = Fixed(threads: int) | Cached

  /** What a caller that is handed a pool can observe of it. */
  datatype PoolView = PoolView(kind: PoolKind, isShutdown: bool)

  class ExecutorPool {
    const kind: PoolKind
    var submissions: nat
    var isShutdown: bool

    constructor (kind: PoolKind)
      ensures this.kind == kind && submissions == 0 && !isShutdown
    {
      this.kind := kind;
      submissions := 0;
      isShutdown := false;
    }

    function View(): PoolView
      reads this
    {
      PoolView(kind, isShutdown)
    }

    /**
     * Submits one piece of work: an open pool accepts it, and the handle of
     * its future is the number of earlier submissions; a shut-down pool
     * rejects it (`RejectedExecutionException`) and hands out nothing.
     */
    method Submit() returns (accepted: bool, handle: nat)
      modifies this
      ensures accepted <==> !isShutdown
      ensures accepted ==> handle == old(submissions) && submissions == old(submissions) + 1
      ensures !accepted ==> submissions == old(submissions)
      ensures isShutdown == old(isShutdown)
    {
      accepted := !isShutdown;
      handle := submissions;
      if accepted {
        submissions := submissions + 1;
      }
    }

    /**
     * `invokeAll` of `count` callables: a shut-down pool rejects the first
     * one it is handed (`RejectedExecutionException`), so only an empty batch
     * gets through it.
     */
    method InvokeAll(count: nat) returns (accepted: bool)
      modifies this
      ensures accepted <==> !isShutdown || count == 0
      ensures submissions == old(submissions) + (if accepted then count else 0)
      ensures isShutdown == old(isShutdown)
    {
      accepted := !isShutdown || count == 0;
      if accepted {
        submissions := submissions + count;
      }
    }

    /** `shutdown()` and `shutdownNow()` alike: the pool accepts no more work. */
    method Shutdown()
      modifies this
      ensures isShutdown && submissions == old(submissions)
    {
      isShutdown := true;
    }
  }
}
