/** The two helpers behind every asynchronous SQLite function: AsyncInvoke, which blocks,
    and AsyncInvokeFuture, which returns at once. */
module AsyncSqlite {
  import opened Common
  import opened AsyncWaits

  const SQLITE_BUSY: int := 5

  /** AsyncInvoke: `schedule` is when the worker gets to a queued call, `direct` what the
      function does when the caller is the worker. A call that did not succeed is reported
      as SQLITE_BUSY if the function returns an int, and as the default otherwise. */
  method AsyncInvoke(onWorker: bool, returnsInt: bool, schedule: Schedule, direct: Outcome) returns (result: Outcome)
    ensures onWorker ==> result == direct
    ensures !onWorker && schedule.InTime? && schedule.outcome.Value? ==> result == schedule.outcome
    ensures !onWorker && !(schedule.InTime? && schedule.outcome.Value?) ==>
              result == Value(if returnsInt then SQLITE_BUSY else DEFAULT)
  {
    if onWorker {
      return direct;
    }
    var delegate := new DelegateAsyncWait(false);
    var value, _ := delegate.AsyncInvoke(schedule, direct);
    if value.Some? {
      return Value(value.value);
    }
    return Value(if returnsInt then SQLITE_BUSY else DEFAULT);
  }

  // A promise shared by the caller's future and the queued task.
  class FutureTask {
    // What has been stored in the promise, value or exception; storing twice would be an error.
    var stored: seq<Outcome>
    var queued: bool

    /** AsyncInvokeFuture: without a running worker the future holds an exception at once,
        and nothing is queued. */
    constructor AsyncInvokeFuture(running: bool)
      ensures queued == running && stored == if running then [] else [Threw]
    {
      stored := if running then [] else [Threw];
      queued := running;
    }

    /** The task, when the worker takes it from the queue: it stores what the function
        returns or throws. */
    method Run(outcome: Outcome)
      requires queued && stored == []
      modifies this
      ensures !queued && stored == [outcome]
    {
      queued := false;
      match outcome {
        case Value(v) => stored := stored + [Value(v)];
        case Threw => stored := stored + [Threw];
      }
    }
  }
}
