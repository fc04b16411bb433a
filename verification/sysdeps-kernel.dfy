/** The part of the operating system that sd-locker relies on: advisory record
    locks in the sense of fcntl() in IEEE Std 1003.1-2008, and the descriptors
    open on the lock files.

    A lock belongs to one process.  fork() copies the descriptors and not the
    locks.  A process that closes any descriptor of a file gives up its own
    lock on that file, and nobody else's. */
module Kernel {

  /** `Locker(p)` is the sd-locker started by shell `p`, `Command(p)` the child it forks. */
  datatype OsProcess = Locker(shell: nat) | Command(shell: nat)

  datatype Kernel = Kernel(locks: map<string, OsProcess>, descriptors: set<(OsProcess, string)>)

  const EMPTY := Kernel(map[], {})

  function Open(k: Kernel, o: OsProcess, file: string): Kernel {
    k.(descriptors := k.descriptors + {(o, file)})
  }

  /** F_SETLKW with F_WRLCK sleeps until this holds. */
  predicate CanLock(k: Kernel, o: OsProcess, file: string) {
    file in k.locks ==> k.locks[file] == o
  }

  function Lock(k: Kernel, o: OsProcess, file: string): Kernel
    requires CanLock(k, o, file)
  {
    k.(locks := k.locks[file := o])
  }

  function Unlock(k: Kernel, o: OsProcess, file: string): Kernel {
    if file in k.locks && k.locks[file] == o then k.(locks := k.locks - {file}) else k
  }

  function Close(k: Kernel, o: OsProcess, file: string): Kernel {
    Unlock(k, o, file).(descriptors := k.descriptors - {(o, file)})
  }

  function Fork(k: Kernel, parent: OsProcess, child: OsProcess): Kernel {
    k.(descriptors := k.descriptors + set d | d in k.descriptors && d.0 == parent :: (child, d.1))
  }

  /** Process termination closes every descriptor. */
  function Exit(k: Kernel, o: OsProcess): Kernel {
    Kernel(map f | f in k.locks && k.locks[f] != o :: k.locks[f],
           set d | d in k.descriptors && d.0 != o)
  }
}
