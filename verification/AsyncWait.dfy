/** The blocking cross-thread call: the message shared by caller and worker, the
    semaphore, and the two locked regions of `operator()` and `Invoke`. */
module AsyncWaits {
  import opened Common
  // How the target function ends.
  datatype Outcome = Value(v: int) | Threw

  // The fields that DelegateAsyncWaitMsg and the delegate's clone share under the lock,
  // and the semaphore's flag.
  datatype Shared = Shared(invokerWaiting: bool, invokeSucceeded: bool, signaled: bool, retVal: Option<int>)

  // What a call returns when it has no value to return.
  const DEFAULT: int := 0

  const FRESH := Shared(true, false, false, None)

  /** What Invoke records when the target ends. */
  function EndRegion(m: Shared, outcome: Outcome): Shared {
    match outcome
    case Value(v) => m.(retVal := Some(v), invokeSucceeded := true)
    case Threw => m
  }

  /** What the caller does once it holds the lock: its result, and the cleared flag. */
  function FinishRegion(m: Shared, waited: bool): (Shared, bool, Option<int>) {
    (m.(invokerWaiting := false), waited && m.invokeSucceeded, if waited then m.retVal else None)
  }

  class Semaphore {
    var signaled: bool

    constructor ()
      ensures !signaled
    {
      signaled := false;
    }

    /** Wait returns once the flag is set or, for a finite timeout, once time is up; it
        consumes the flag. */
    method Wait(timeUp: bool) returns (ok: bool)
      requires signaled || timeUp
      modifies this
      ensures ok == old(signaled) && !signaled
    {
      if signaled {
        signaled := false;
        return true;
      }
      return false;
    }

    method Signal()
      modifies this
      ensures signaled
    {
      signaled := true;
    }
  }

  class DelegateAsyncWaitMsg {
    const sema: Semaphore
    var invokerWaiting: bool
    var invokeSucceeded: bool

    constructor (sema: Semaphore)
      ensures this.sema == sema && !invokerWaiting && !invokeSucceeded
    {
      this.sema := sema;
      invokerWaiting, invokeSucceeded := false, false;
    }
  }

  // When the worker gets to the message, seen from one caller.
  datatype Schedule =
    | NotDispatched                      // the queue refused the message
    | InTime(outcome: Outcome)           // the target ended before the timeout
    | StillRunning(outcome: Outcome)     // the timeout struck while the target was running
    | TooLate(outcome: Outcome)          // the timeout struck before the worker got there

  class DelegateAsyncWait {
    var retVal: Option<int>
    var success: bool
    var sync: bool
    // How often the target function has run.
    var runs: nat
    // The delegate has no target.
    const empty: bool

    constructor (empty: bool)
      ensures retVal == None && !success && !sync && runs == 0 && this.empty == empty
    {
      this.empty := empty;
      retVal, success, sync, runs := None, false, false, 0;
    }

    ghost function View(msg: DelegateAsyncWaitMsg): Shared
      reads this, msg, msg.sema
    {
      Shared(msg.invokerWaiting, msg.invokeSucceeded, msg.sema.signaled, retVal)
    }

    /** Invoke, on the worker thread: `outcome` is what the target would do. The semaphore
        is signalled even when the target throws. */
    method Invoke(msg: DelegateAsyncWaitMsg, outcome: Outcome)
      modifies this, msg, msg.sema
      ensures View(msg) == if old(msg.invokerWaiting) then EndRegion(old(View(msg)), outcome).(signaled := true)
                           else old(View(msg))
      ensures runs == old(runs) + if old(msg.invokerWaiting) then 1 else 0
    {
      if msg.invokerWaiting {
        sync := true;
        runs := runs + 1;
        match outcome {
          case Value(v) =>
            retVal := Some(v);
            msg.invokeSucceeded := true;
          case Threw =>
        }
        msg.sema.Signal();
      }
    }

    // The caller's last locked region.
    method Finish(clone: DelegateAsyncWait, msg: DelegateAsyncWaitMsg, waited: bool)
      requires this != clone && !success && retVal == None
      modifies this`retVal, this`success, msg
      ensures (clone.View(msg), success, retVal) == FinishRegion(old(clone.View(msg)), waited)
    {
      if waited {
        success := msg.invokeSucceeded;
        retVal := clone.retVal;
      }
      msg.invokerWaiting := false;
    }

    /** operator(): the caller's view of one call, for each moment at which the worker may
        reach the message. A target that is still running when the timeout strikes is
        waited for, but its result is not reported. A delegate that has been the worker's
        runs its target at once, as `direct`, and reports no success. */
    method Call(schedule: Schedule, direct: Outcome) returns (result: Outcome, clone: DelegateAsyncWait?)
      modifies this
      ensures clone != null <==> !empty && !old(sync)
      ensures clone != null ==> fresh(clone) && clone.runs == if schedule.InTime? || schedule.StillRunning? then 1 else 0
      ensures success <==> clone != null && schedule.InTime? && schedule.outcome.Value?
      ensures retVal == if success then Some(schedule.outcome.v) else None
      ensures result == if success then schedule.outcome else if !empty && old(sync) then direct else Value(DEFAULT)
      ensures runs == old(runs) + if !empty && old(sync) then 1 else 0
      ensures sync == old(sync)
    {
      retVal, success := None, false;
      if empty {
        return Value(DEFAULT), null;
      }
      if sync {
        runs := runs + 1;
        return direct, null;
      }
      clone := new DelegateAsyncWait(false);
      var sema := new Semaphore();
      var msg := new DelegateAsyncWaitMsg(sema);
      msg.invokerWaiting := true;
      var waited := false;
      match schedule {
        case NotDispatched =>
        case InTime(outcome) =>
          clone.Invoke(msg, outcome);
          waited := sema.Wait(false);
        case StillRunning(outcome) =>
          waited := sema.Wait(true);
          clone.Invoke(msg, outcome);
        case TooLate(_) =>
          waited := sema.Wait(true);
      }
      Finish(clone, msg, waited);
      result := Value(if retVal.Some? then retVal.value else DEFAULT);
      if schedule.TooLate? {
        clone.Invoke(msg, schedule.outcome);
      }
    }

    /** AsyncInvoke: the call's success decides whether there is a value. Only what a
        target run at once throws reaches the caller. */
    method AsyncInvoke(schedule: Schedule, direct: Outcome) returns (value: Option<int>, threw: bool)
      modifies this
      ensures value == if !empty && !old(sync) && schedule.InTime? && schedule.outcome.Value?
                       then Some(schedule.outcome.v) else None
      ensures threw <==> !empty && old(sync) && direct.Threw?
    {
      var result, _ := Call(schedule, direct);
      if result.Threw? {
        return None, true;
      }
      return if success then Some(result.v) else None, false;
    }
  }
}
