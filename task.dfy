/** `Task`: a work item with a fixed id and callable, and a mutable completion flag and result slot. */
module Tasks {
  import opened Wrappers

  class Task<W, T> {
    const taskId: int
    const callable: W
    var isComplete: bool
    /** `None` is the source's null result. */
    var result: Option<T>

    constructor (taskId: int, callable: W)
      ensures this.taskId == taskId && this.callable == callable
      ensures !isComplete && result == None
    {
      this.taskId := taskId;
      this.callable := callable;
      isComplete := false;
      result := None;
    }

    /** Overwrites the result slot, whatever it held and whether or not the task is complete. */
    method SetResult(value: T)
      modifies this
      ensures result == Some(value) && isComplete == old(isComplete)
    {
      result := Some(value);
    }

    /** Sets the flag either way; nothing stops a complete task from becoming incomplete again. */
    method SetComplete(complete: bool)
      modifies this
      ensures isComplete == complete && result == old(result)
    {
      isComplete := complete;
    }
  }

  /** Setting a result twice keeps the last one, and a task can be marked incomplete after completion. */
  method NoGuardOnTask<W, T>(t: Task<W, T>, first: T, second: T)
    modifies t
    ensures t.result == Some(second) && !t.isComplete
  {
    t.SetComplete(true);
    t.SetResult(first);
    t.SetResult(second);
    t.SetComplete(false);
  }
}
