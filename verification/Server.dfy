/** One server from start to finish. Several servers, stop commands and crashes
    between any two steps are the subject of `Lifecycle`. */
module Server {
  import opened Wrappers
  import opened Runtime

  datatype Failed = NotStarted(error: RuntimeError) | BindFailed | SignalFailed | TaskStopped | TaskFailed

  /** What ends the wait of a running server. A listener that stops by itself does
      so with or without an error. */
  datatype Cause = Signal | BadSignal | ShutdownRequested | IngressStopped | ControlStopped

  /** How a listener's task ends after cancellation: with an error or not, and
      before or after the server looks for it. The result of a task that has
      already ended is not looked at. */
  datatype Ending = Ending(early: bool, failed: bool)

  datatype Listener = Unborn | Running | Ended

  class Server {
    const directory: InstanceDirectory
    var ingress: Listener
    var control: Listener
    var cancelled: bool

    constructor (directory: InstanceDirectory)
      ensures this.directory == directory && ingress == Unborn && control == Unborn && !cancelled
    {
      this.directory := directory;
      ingress, control, cancelled := Unborn, Unborn, false;
    }

    /** Waits for a task unless it has ended. */
    method FinishTask(listener: Listener, e: Ending) returns (after: Listener, r: Result<(), Failed>)
      requires listener.Running? || listener.Ended?
      ensures after == Ended
      ensures r == if listener.Running? && e.failed && !e.early then Failure(TaskFailed) else Success(())
    {
      if listener.Ended? || e.early {
        return Ended, Success(());
      }
      return Ended, if e.failed then Failure(TaskFailed) else Success(());
    }

    /** `locking`, `publishing` and `removing` say what the file system does at the
        three points where the server uses it. However it ends, the lock is as it
        was, no listener runs, and its own descriptor is gone unless the file
        system refuses to remove it. It reports success exactly if it was stopped
        from outside and no listener that it had to wait for failed. */
    method Serve(
      p: nat, temporary: nat, locking: Platform, binds: bool, publishing: Platform, cause: Cause,
      ingressEnding: Ending, controlEnding: Ending, removing: Platform)
      returns (r: Result<(), Failed>)
      requires temporary !in directory.temporaries && directory.descriptor != Some(p)
      requires ingress == Unborn && control == Unborn && !cancelled
      modifies this, directory
      ensures directory.lockedBy == old(directory.lockedBy)
      ensures directory.temporaries == old(directory.temporaries)
              || (directory.temporaries == old(directory.temporaries) + {temporary}
                  && !publishing.cleans && r.Failure? && r.error.NotStarted?)
      ensures ingress == control && !ingress.Running? && cancelled == ingress.Ended?
      ensures ingress.Ended? <==>
                && old(directory.lockedBy).None? && locking.prepares && locking.opens && locking.locks && binds
                && publishing.prepares && publishing.opens && publishing.writes && publishing.moves
                && (publishing.renames || old(directory.descriptor).None? || publishing.removes)
      ensures ingress.Ended? ==> directory.descriptor == if removing.removes then None else Some(p)
      ensures ingress.Unborn? ==>
                directory.descriptor
                == if r == Failure(NotStarted(ReplaceFailed)) && !publishing.renames && publishing.removes then None
                   else old(directory.descriptor)
      ensures r == Failure(NotStarted(AlreadyRunning)) <==>
                locking.prepares && locking.opens && old(directory.lockedBy).Some?
      ensures r == Failure(BindFailed) <==>
                !binds && old(directory.lockedBy).None? && locking.prepares && locking.opens && locking.locks
      ensures r.Success? <==>
                && ingress.Ended? && (cause.Signal? || cause.ShutdownRequested?)
                && !(ingressEnding.failed && !ingressEnding.early) && !(controlEnding.failed && !controlEnding.early)
      ensures ingress.Ended? && r.Failure? ==>
                r.error == match cause
                           case BadSignal => SignalFailed
                           case IngressStopped => TaskStopped
                           case ControlStopped => TaskStopped
                           case _ => TaskFailed
      ensures ingress.Unborn? && r.Failure? ==> r.error.NotStarted? || r.error == BindFailed
    {
      var locked := directory.AcquireInstanceLock(p, locking);
      if locked.Failure? {
        return Failure(NotStarted(locked.error));
      }
      if !binds {
        directory.lockedBy := None;
        return Failure(BindFailed);
      }
      var published := directory.WriteDescriptor(p, temporary, publishing);
      if published.Failure? {
        directory.lockedBy := None;
        return Failure(NotStarted(published.error));
      }
      ingress, control := Running, Running;
      var primary: Result<(), Failed>;
      match cause {
        case Signal => primary := Success(());
        case BadSignal => primary := Failure(SignalFailed);
        case ShutdownRequested => primary := Success(());
        case IngressStopped =>
          ingress, primary := Ended, Failure(TaskStopped);
        case ControlStopped =>
          control, primary := Ended, Failure(TaskStopped);
      }
      cancelled := true;
      var ingressResult, controlResult;
      ingress, ingressResult := FinishTask(ingress, ingressEnding);
      control, controlResult := FinishTask(control, controlEnding);
      var removed := directory.RemoveDescriptor(removing);
      directory.lockedBy := None;
      if primary.Failure? {
        return primary;
      }
      if ingressResult.Failure? {
        return ingressResult;
      }
      return controlResult;
    }
  }
}
