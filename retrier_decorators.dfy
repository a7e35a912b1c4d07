/**
 * The decorator chain around the counting policy. `RetrierDecorator` only
 * forwards; `TimedRetrierDecorator` (a subclass in the source, a wrapper of a
 * `RetrierDecorator` here) forwards and, when the wrapped policy lets the
 * retry through, waits `retryWait` milliseconds. The wait itself is not
 * modelled: a ghost counter records how long the decorator has waited.
 */
module RetrierDecorators {
  import opened RetryPolicy

  const RetryWait: nat := 1

  class RetrierDecorator {
    const decoratedRetrier: ImmediateCounting

    constructor (decoratedRetrier: ImmediateCounting)
      ensures this.decoratedRetrier == decoratedRetrier
    {
      this.decoratedRetrier := decoratedRetrier;
    }

    /** Forwards both ids unchanged; returns or throws exactly as the wrapped retrier does. */
    method Retry(groupId: int, taskId: int) returns (outcome: RetryOutcome)
      modifies decoratedRetrier, decoratedRetrier.counts
      ensures (decoratedRetrier.State(), outcome) == RetryStep(old(decoratedRetrier.State()), groupId, taskId)
    {
      outcome := decoratedRetrier.Retry(groupId, taskId);
    }
  }

  class TimedRetrierDecorator {
    const retryWait: nat := RetryWait
    const base: RetrierDecorator
    /** Total milliseconds spent in the backoff wait so far. */
    ghost var waited: nat

    constructor (decoratedRetrier: ImmediateCounting)
      ensures base.decoratedRetrier == decoratedRetrier && waited == 0
    {
      base := new RetrierDecorator(decoratedRetrier);
      waited := 0;
    }

    /**
     * Calls the wrapped retrier first; if it throws, the exception propagates
     * and no wait happens; otherwise waits `retryWait` and returns normally,
     * even when the wait is interrupted (the interrupt is swallowed).
     */
    method Retry(groupId: int, taskId: int) returns (outcome: RetryOutcome)
      modifies this, base.decoratedRetrier, base.decoratedRetrier.counts
      ensures (base.decoratedRetrier.State(), outcome) == RetryStep(old(base.decoratedRetrier.State()), groupId, taskId)
      ensures waited == if outcome.Pass? then old(waited) + retryWait else old(waited)
    {
      outcome := base.Retry(groupId, taskId);
      if outcome.Fail? {
        return;
      }
      // Thread.sleep(retryWait): an InterruptedException is caught and ignored
      waited := waited + retryWait;
    }
  }
}
