/**
 * What the three `doWork` loops have in common: the work groups run one
 * after another, each with its group index and the shared context (the pool,
 * and a timeout where there is one), one result is appended per group, and
 * the first exception a group throws ends the loop. The `catch` clause turns
 * an `InterruptedException` into an `IllegalStateException`; anything else
 * passes through unchanged.
 *
 * How a group is processed (`Processor.processGroup`, `WorkGroup.processGroup`)
 * is a parameter of the model: a function from the group, its index and the
 * context to the value it returns or the exception it throws.
 */
module Sequencing {

  /** What `processGroup` can throw: the checked `InterruptedException`, or an unchecked exception `error`. */
  datatype Fault<E> = Interruption | Unchecked(error: E)

  /** One group's processing: the value `doWork` appends, or what was thrown. */
  datatype GroupRun<R, E> = Finished(result: R) | Raised(fault: Fault<E>)

  /** How `doWork` ends. */
  datatype WorkOutcome<R, E> =
    | Completed(results: seq<R>)  // the result list, one entry per group
    | Propagated(error: E)        // an unchecked exception of a group, not caught
    | InterruptWrapped            // the `IllegalStateException` wrapping an interrupt
    | PoolSizeRejected            // `newFixedThreadPool` refused a non-positive size

  /** The `catch (InterruptedException)` clause; other exceptions are not caught. */
  function Thrown<R, E>(f: Fault<E>): WorkOutcome<R, E>
  {
    match f
    case Interruption => InterruptWrapped
    case Unchecked(e) => Propagated(e)
  }

  /** Results gathered before the rest of the loop ran: kept when the rest completes, dropped when it throws. */
  function Prepend<R, E>(done: seq<R>, rest: WorkOutcome<R, E>): WorkOutcome<R, E>
  {
    if rest.Completed? then Completed(done + rest.results) else rest
  }

  /** The groups run in order, the k-th one with index `first + k`; the first throw ends the run. */
  function InOrder<G, C, R, E>(groups: seq<G>, first: int, ctx: C, run: (G, int, C) -> GroupRun<R, E>): WorkOutcome<R, E>
    decreases |groups|
  {
    if groups == [] then Completed([])
    else
      match run(groups[0], first, ctx)
      case Raised(f) => Thrown(f)
      case Finished(r) => Prepend([r], InOrder(groups[1..], first + 1, ctx, run))
  }

  /**
   * `doWork` ends normally exactly when every group returns, and then holds
   * one result per group, in input order, the k-th from the run with index
   * `first + k`.
   */
  lemma {:induction false} InOrderCompleted<G, C, R, E>(groups: seq<G>, first: int, ctx: C, run: (G, int, C) -> GroupRun<R, E>)
    ensures InOrder(groups, first, ctx, run).Completed? <==>
              forall k :: 0 <= k < |groups| ==> run(groups[k], first + k, ctx).Finished?
    ensures var o := InOrder(groups, first, ctx, run);
            o.Completed? ==>
              |o.results| == |groups| &&
              forall k :: 0 <= k < |groups| ==> o.results[k] == run(groups[k], first + k, ctx).result
    ensures !InOrder(groups, first, ctx, run).PoolSizeRejected?
    decreases |groups|
  {
    if groups != [] {
      InOrderCompleted(groups[1..], first + 1, ctx, run);
      var rest := InOrder(groups[1..], first + 1, ctx, run);
      forall k | 1 <= k < |groups|
        ensures run(groups[k], first + k, ctx) == run(groups[1..][k - 1], first + 1 + (k - 1), ctx)
      {
      }
      if run(groups[0], first, ctx).Finished? && rest.Completed? {
        var o := InOrder(groups, first, ctx, run);
        assert o.results == [run(groups[0], first, ctx).result] + rest.results;
      }
    }
  }

  /**
   * If the k-th group is the first to throw, `doWork` ends with that group's
   * exception (wrapped when it is an interrupt): no later group runs, and the
   * results gathered so far are not returned.
   */
  lemma {:induction false} InOrderFirstFault<G, C, R, E>(groups: seq<G>, first: int, ctx: C, run: (G, int, C) -> GroupRun<R, E>, k: nat)
    requires k < |groups|
    requires forall j :: 0 <= j < k ==> run(groups[j], first + j, ctx).Finished?
    requires run(groups[k], first + k, ctx).Raised?
    ensures InOrder(groups, first, ctx, run) == Thrown(run(groups[k], first + k, ctx).fault)
    ensures InOrder(groups, first, ctx, run) == InOrder(groups[..k + 1], first, ctx, run)
    decreases k
  {
    if k > 0 {
      assert run(groups[0], first, ctx).Finished?;
      forall j | 0 <= j < k - 1
        ensures run(groups[1..][j], first + 1 + j, ctx).Finished?
      {
        assert run(groups[j + 1], first + (j + 1), ctx).Finished?;
      }
      assert groups[1..][k - 1] == groups[k] && first + 1 + (k - 1) == first + k;
      InOrderFirstFault(groups[1..], first + 1, ctx, run, k - 1);
      assert groups[..k + 1][1..] == groups[1..][..k];
    }
  }

  /**
   * The `try` block shared by the `doWork` loops and its `catch` clause:
   * `workResults.add(processGroup(..., groupIndex++))` for each group in turn.
   */
  method RunInOrder<G, C, R, E>(groups: seq<G>, first: int, ctx: C, run: (G, int, C) -> GroupRun<R, E>)
    returns (outcome: WorkOutcome<R, E>)
    ensures outcome == InOrder(groups, first, ctx, run)
  {
    var workResults: seq<R> := [];
    var groupIndex := first;
    var i := 0;
    while i < |groups|
      invariant 0 <= i <= |groups| && groupIndex == first + i
      invariant InOrder(groups, first, ctx, run) == Prepend(workResults, InOrder(groups[i..], groupIndex, ctx, run))
    {
      assert groups[i..][0] == groups[i] && groups[i..][1..] == groups[i + 1..];
      var ran := run(groups[i], groupIndex, ctx);
      groupIndex := groupIndex + 1;
      match ran
      case Raised(f) =>
        return Thrown(f);
      case Finished(r) =>
        PrependTwice(workResults, r, InOrder(groups[i + 1..], groupIndex, ctx, run));
        workResults := workResults + [r];
      i := i + 1;
    }
    assert groups[i..] == [];
    outcome := Completed(workResults);
  }

  /** Appending one more result before the rest of the run. */
  lemma PrependTwice<R, E>(done: seq<R>, r: R, rest: WorkOutcome<R, E>)
    ensures Prepend(done, Prepend([r], rest)) == Prepend(done + [r], rest)
  {
    if rest.Completed? {
      assert done + ([r] + rest.results) == (done + [r]) + rest.results;
    }
  }
}
