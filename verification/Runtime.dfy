/** The instance directory: its lock, its descriptor and the way a descriptor is
    replaced. Other processes and crashes in between are the subject of
    `Lifecycle`. */
module Runtime {
  import opened Wrappers

  datatype RuntimeError =
    | PrepareFailed
    | OpenFailed
    | LockFailed
    | AlreadyRunning
    | WriteFailed
    | ReplaceFailed
    | RemoveFailed

  /** Which of the system calls of an operation succeed. `renames` tells whether a
      rename replaces an existing file; elsewhere the old file is removed first.
      `cleans` is about the removal of a temporary file that could not be used. */
  datatype Platform = Platform(
    prepares: bool,
    opens: bool,
    locks: bool,
    writes: bool,
    renames: bool,
    removes: bool,
    moves: bool,
    cleans: bool)

  /** The lock file's holder, the descriptor file's author, and the temporary
      files that lie around. */
  class InstanceDirectory {
    var lockedBy: Option<nat>
    var descriptor: Option<nat>
    var temporaries: set<nat>

    constructor ()
      ensures lockedBy == None && descriptor == None && temporaries == {}
    {
      lockedBy, descriptor, temporaries := None, None, {};
    }

    /** At most one holder: a second server changes nothing, and is told that the
        first is running if it gets as far as trying the lock. */
    method AcquireInstanceLock(p: nat, platform: Platform) returns (r: Result<(), RuntimeError>)
      modifies this`lockedBy
      ensures r.Success? <==> old(lockedBy).None? && platform.prepares && platform.opens && platform.locks
      ensures lockedBy == if r.Success? then Some(p) else old(lockedBy)
      ensures r.Failure? ==>
                r.error == if !platform.prepares then PrepareFailed
                           else if !platform.opens then OpenFailed
                           else if old(lockedBy).Some? then AlreadyRunning
                           else LockFailed
    {
      if !platform.prepares {
        return Failure(PrepareFailed);
      }
      if !platform.opens {
        return Failure(OpenFailed);
      }
      if lockedBy.Some? {
        return Failure(AlreadyRunning);
      }
      if !platform.locks {
        return Failure(LockFailed);
      }
      lockedBy := Some(p);
      return Success(());
    }

    /** Publishes the descriptor of `p` through a fresh temporary file. Readers see
        the old file, the new one or, on a platform that cannot replace, none. A
        temporary file stays behind exactly if it was created, could not be used
        and could not be removed. */
    method WriteDescriptor(p: nat, temporary: nat, platform: Platform) returns (r: Result<(), RuntimeError>)
      requires temporary !in temporaries
      modifies this`descriptor, this`temporaries
      ensures temporaries ==
                old(temporaries)
                + if r.Failure? && platform.prepares && platform.opens && !platform.cleans then {temporary} else {}
      ensures r.Success? <==>
                && platform.prepares && platform.opens && platform.writes && platform.moves
                && (platform.renames || old(descriptor).None? || platform.removes)
      ensures r.Success? ==> descriptor == Some(p)
      ensures r.Failure? ==>
                r.error == if !platform.prepares then PrepareFailed
                           else if !platform.opens || !platform.writes then WriteFailed
                           else ReplaceFailed
      ensures r.Failure? ==>
                descriptor == if r.error == ReplaceFailed && !platform.renames && platform.removes then None
                              else old(descriptor)
    {
      if !platform.prepares {
        return Failure(PrepareFailed);
      }
      if !platform.opens {
        return Failure(WriteFailed);
      }
      temporaries := temporaries + {temporary};
      if !platform.writes {
        CleanUp(temporary, platform);
        return Failure(WriteFailed);
      }
      if !platform.renames && descriptor.Some? {
        if !platform.removes {
          CleanUp(temporary, platform);
          return Failure(ReplaceFailed);
        }
        descriptor := None;
      }
      if !platform.moves {
        CleanUp(temporary, platform);
        return Failure(ReplaceFailed);
      }
      temporaries := temporaries - {temporary};
      descriptor := Some(p);
      return Success(());
    }

    /** Nobody looks at whether this succeeds. */
    method CleanUp(temporary: nat, platform: Platform)
      modifies this`temporaries
      ensures temporaries == old(temporaries) - if platform.cleans then {temporary} else {}
    {
      if platform.cleans {
        temporaries := temporaries - {temporary};
      }
    }

    /** Succeeds exactly if there is no descriptor afterwards, also when there was
        none before. */
    method RemoveDescriptor(platform: Platform) returns (r: Result<(), RuntimeError>)
      modifies this`descriptor
      ensures r.Success? <==> descriptor == None
      ensures r.Success? <==> old(descriptor).None? || platform.removes
      ensures r.Failure? ==> descriptor == old(descriptor)
    {
      if descriptor.None? {
        return Success(());
      }
      if !platform.removes {
        return Failure(RemoveFailed);
      }
      descriptor := None;
      return Success(());
    }
  }
}
