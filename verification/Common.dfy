/** Stock option type. */
module Options {
  datatype Option<+T> = None | Some(value: T)
}

module Sequences {
  ghost predicate NoRepeats<T>(s: seq<T>) {
    forall i, j :: 0 <= i < j < |s| ==> s[i] != s[j]
  }

  /** s without its element k. */
  function Cut<T>(s: seq<T>, k: nat): seq<T>
    requires k < |s|
  {
    s[..k] + s[k + 1..]
  }
}

/** What the machines take from the C library. */
module Posix {
  import opened Options

  datatype Errno = EINVAL | EBUSY | ENOSYS | ENOMEM | ENOENT | ENOSPC

  /** pthread_rwlock_t, with the threads that hold it. */
  datatype RWLock = RWLock(readers: set<nat>, writer: Option<nat>)
}
