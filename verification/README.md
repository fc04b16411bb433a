# Verification of SYSDEPS, Lua.Load and the installer

A Dafny model of the parts of this repository whose behaviour shows only over
whole runs, and proofs about it.  `dafny verify dfyconfig.toml` checks all of it.

## What is modelled

**The parallel-build protocol of SYSDEPS.**  Any number of shells source
`sysdep-system` at once.  Each compiles support programs under the lock
`X.o.lock` and executes them under other locks, always through an `sd-locker`
that it may have to build first.  `sysdeps-kernel.dfy` has the locks and
descriptors that `fcntl()` of IEEE Std 1003.1-2008 speaks of,
`sysdeps-protocol.dfy` the transition system, `sysdeps-safety.dfy` its inductive
invariant, `sysdeps-runs.dfy` the theorems about runs, `sysdeps-outcomes.dfy` what
becomes of failures, `sysdeps-order.dfy` the exact condition on a script for being
safe, and `sysdeps-programs.dfy` the
programs in the form of their sources, each proved to take only steps of the
transition system, in their order, and to end.

The protocol rests on these assumptions about its environment: no `sd-clean`
during a build; no process is killed; `fcntl()` and `waitpid()` fail for no other
reason than a signal; a failed link leaves no executable result.  Everything else
may fail at any time: `open`, `fork`, `close`, `exec`, compilers, linkers, `mv`
and the commands.  A file that is being written may or may not look executable.

**Lua.Load.**  `lua-load.adb` moves an abstract Lua stack and a dotted path.  Lua
values are trees whose tables are lists of entries with distinct keys; client
code is a tree of commands.  `lua-path.dfy` has the path, `lua-reading.dfy` a
recursive reading of the value that knows no stack and no string for the path.
`lua-walk.dfy` says what happens to the string, for keys and names of any text, and
that this is the reading where they are clean.  `lua-load.dfy` has the package as a
class whose `Exec` runs a command tree and is proved against that walk,
`lua-values.dfy` what readers deliver and errors say in terms of the table's entries,
`lua-unwinding.dfy` what follows about iterations and errors.

**The installer.**  `install-os.dfy` has the file system, a map from paths to
nodes, and the system calls, each of which may be refused.  `install-core.dfy`
has the two workers that take many steps, `install-ancestors.dfy` what the
attempts of `install_rmkdir` amount to, `install-items.dfy` the table, whose items
are rewritten in place through shared static buffers (real arrays here),
`install-ops.dfy` the operators, `install-drivers.dfy` the loops of `installer.c`
and `deinstaller.c`, `install-audit.dfy` that of `instchk.c`.  `install-plans.dfy`
says what an item asks for as a function of its original names, and
`install-names.dfy` which nodes these are;
`install-roundtrip.dfy`, `install-theorems.dfy` and `install-audited.dfy` have the
theorems about whole tables.

**Three text programs.**  The Win32 command flattener (`sysdeps-flatten.dfy`), the
C array printer inside `mk-mk-ctxt` (`mk-ctxt.dfy`) and the flag printer
`lua-ada-load-conf.c` (`load-conf.dfy`).

## What the proofs brought to light

- The comment at SYSDEPS/sysdep-system:179-182 says that the lock protects a
  support program in use from being replaced.  It does not, because compilation
  takes another lock file.  What protects it is that a shell executes a program
  only after its own compilation of it.  A script is safe together with any other
  shells if and only if it executes each program either so or under the very lock
  that compiles it (`Order.SafeIffGuarded`); for every script that does not there is
  a run in which a program is executed while it is written, with every lock
  respected (`Order.LocksAreNotEnough`).
- A failure in backquotes (SYSDEPS/sysdep-system:205-216) ends the subshell only,
  so the script goes on; elsewhere it ends the shell, which is past such an operation
  only if its command has succeeded (`Outcomes.PassedMeansSucceeded`,
  `Outcomes.FailedMeansStopped`).
- `Remove_Name_Component` undoes `Add_Name_Component` exactly for the names of
  `LuaPath.Removable`.  An iteration whose callback leaves the path alone returns with
  the path it started from exactly if all its keys are in range and are such names
  (`LuaLoad.IterationRestoresMachine`); with the key "a.b" below "config" it returns
  with "config.a" (`LuaWalk.DottedKeyStays`).  On an empty path the removal raises
  `Constraint_Error`, as the search starts at position 0 of a `Positive` range.
- An error inside an open `Table_Start` leaves its component on the path; the
  iterations around it take off one component each.  `LuaUnwinding.CheckAgrees` tells
  from the types alone whether that happens (`LuaUnwinding.PathUnwindsWithoutBrackets`),
  `LuaUnwinding.TrapLeavesOpen` gives a value for every program of a kind that can be
  told from its text, and `LuaUnwinding.BracketStaysBehind` is the smallest case.
- Installing and deinstalling do not always cancel out: with `a` and `a/b/c`
  listed but not `a/b`, the deinstaller cannot remove `a`
  (`RoundTrip.UnlistedDirectoryStays`).  `RoundTrip.UndoableIffNested` is the
  exact condition on the table.  A file that happens to have the name of a
  temporary file is lost (`RoundTrip.OldFileIsLost`, with the exact condition in
  `RoundTrip.InstallThenDeinstall`).
- A link whose name is absolute, or of whose joined name the buffer loses a component,
  is looked for elsewhere by the deinstaller (`InstallPlans.AbsoluteLinkStays` and
  `InstallPlans.LongLinkStays`, exact condition in `InstallPlans.LinkIsUndone`).
- A destination of 1023 bytes, or of 1022 with a trailing slash, is its own
  temporary file (`Paths.LongNameIsItsOwnTmp`, exact condition in
  `Paths.TmpIsAnother`).
- The mode is set before the owner (install-core.c:362-368), and `chown()` may take
  the set-id bits away, so a copy asked for with 04755 can end with 0755 and status
  OK (`InstallCore.SetIdsCanBeLost`); without set-id bits the mode is exactly the one
  asked for (`InstallCore.ModeIsAsked`).
- An audit right after an installation without errors need not be clean, even with a
  umask of zero and modes that the audit keeps: a directory that is listed after one
  below it has the mode of that one (`InstallAudited.LowerFirstFails`, exact condition
  in `InstallAudited.AuditAfterInstall`).  What a later audit sees of changes to the
  tree is in `InstallAudited.AuditAfterChange`.
- On POSIX `install_rmkdir` never notices that a directory could not be made
  (install-core.c:615 against install-posix.c:157-160); only the `chown()` that
  follows does.  It drops the last part of a name of 1023 bytes.
- The array printer looks one byte beyond the data of a short read.  If an earlier
  read has left a newline there, that one is zeroed and the last newline of the data
  is kept (`CtxtPrinter.OldNewlineStaysBehind`, exact condition in
  `CtxtPrinter.NewlineIsZeroedIff`).

## Model

| member | source | states |
|---|---|---|
| Safety.StepKeepsInv | SYSDEPS/sysdep-system:11-107 | every step of every process keeps the invariant: locks belong to lockers between acquire and release, a result is written only by the linker under its lock, a compiled result is complete, sd-locker is never half written |
| Safety.ForkAgrees | SYSDEPS/sd-locker_posix.c:132-136 | forking copies the descriptor to the child and leaves the lock with the parent |
| Safety.ChildCloseAgrees | SYSDEPS/sd-locker_posix.c:136-138 | the child's close of the inherited descriptor leaves its parent's lock in place |
| Safety.ExitAgrees | SYSDEPS/sd-locker.c:56-67 | a process that ends gives up its own locks and descriptors and nobody else's |
| Safety.CloseGivesUpLock | SYSDEPS/sd-locker_posix.c:105-117 | a close gives up the lock of the process that closes on that file, as `fcntl()` of IEEE Std 1003.1-2008 says, and nothing else of anybody |
| Safety.OneHolder | SYSDEPS/sd-locker.c:107-133 | at most one shell's locker is between acquire and release of a lock file |
| Safety.OneCompiler | SYSDEPS/sysdep-system:103-104 | at most one child of all lockers is at work on a given result |
| Safety.TestSeesWholeResult | SYSDEPS/sd-compile:42-45 | the test of sd-compile never meets a result that is being written |
| Safety.CompleteResultsStay | SYSDEPS/sd-compile:42-48 | no step of anybody changes a complete result |
| Runs.RunKeepsInv | SYSDEPS/sysdep-system:172-312 | the invariant holds in every state of every run of any number of shells |
| Runs.NoExecutionDuringWrite | SYSDEPS/sysdep-system:184-216 | while a shell whose script is in order executes a support program, it is complete and nobody is writing it, whatever the scripts of the others |
| Runs.NoWriteUnderItsLock | SYSDEPS/sysdep-system:36-107 | a program that is executed under the lock that compiles it is not written meanwhile, whatever the scripts |
| Runs.OneLiveCommandPerLock | SYSDEPS/sd-locker.c:211-215 | two commands that live between fork and wait at the same time are under different lock files |
| Runs.LiveCommandIsCovered | SYSDEPS/sd-locker_posix.c:119-146 | while a command lives its parent has the lock, and the command has no descriptor of a lock file |
| Runs.CompleteForGood | SYSDEPS/sd-compile:42-45 | a complete result is the same in all later states of a run |
| Runs.AtMostOneLink | SYSDEPS/sd-compile:47-48 | over a whole run at most one link of a result succeeds, and none if it was there before |
| Runs.OnlyLinksComplete | SYSDEPS/sd-compile:47-48 | a result becomes complete by the successful link of its own shell and by nothing else, so none by a failed link |
| Runs.CompiledResultIsSettled | SYSDEPS/sysdep-system:103-106 | each shell that has come past its compilation sees one and the same complete result from then on |
| Runs.LockerIsWhole | SYSDEPS/sysdep-system:11-30 | sd-locker is absent or complete in every state, complete for whoever executes it, and changed only by a rename; the file sd-locker-PID that a shell is about to rename is what it has built itself, whole, as process ids differ |
| Runs.StepDecreases | SYSDEPS/sysdep-system:36-107 | every step uses up some of the work that the scripts ask for |
| Runs.RunsAreBounded | SYSDEPS/sysdep-system:36-107 | the length of every run is bounded by that work |
| Runs.NoDeadlock | SYSDEPS/sd-locker.c:211-217 | while a shell is unfinished some step is enabled |
| Runs.StuckRunsAreDone | SYSDEPS/sd-locker.c:211-217 | a run that cannot go on has brought every shell to its end |
| Runs.SysdepScriptIsWellFormed | SYSDEPS/sysdep-system:184-312 | the script executes each support program only after its compilation |
| Runs.SysdepUsesOtherLocks | SYSDEPS/sysdep-system:184-312 | each support program X is executed under X.lock and compiled under X.o.lock |
| Outcomes.AnyCallMayFail | SYSDEPS/sd-locker_posix.c:87-146 | every call of the shell and of sd-locker but the waiting ones may fail, and so may every command |
| Outcomes.ExitCodeIsOutcome | SYSDEPS/sd-locker_posix.c:136-144 | the exit code that a child leaves is the outcome of the step that ends it |
| Outcomes.PassedMeansSucceeded | SYSDEPS/sysdep-system:103-104 | in every run a shell is past an operation whose failure is fatal only if its command has ended with success and its lock file was closed; a shell stops only at such operations, after a failed call or command |
| Outcomes.FailedMeansStopped | SYSDEPS/sysdep-system:205-221 | once any call or the command of an operation has failed, it starts no command any more, and its shell never gets past it unless only a subshell has ended |
| Order.LocksAreNotEnough | SYSDEPS/sysdep-system:179-209 | for every script that executes a program before it has compiled it, some run has it executing the program while another shell writes it, with all locks respected |
| Order.SafeIffGuarded | SYSDEPS/sysdep-system:184-209 | a script is safe in all runs with any other shells if and only if each use of a program follows its compilation or is under the lock that compiles it |
| Order.Finishes | SYSDEPS/sysdep-system:11-107 | a shell that is alone can get any operation done, building sd-locker first if there is none, and leaves its result, a complete sd-locker and no lock |
| Programs.SdCompile | SYSDEPS/sd-compile:42-48 | a test that succeeds has seen a complete result; success leaves a complete result |
| Programs.CompileAndLink | SYSDEPS/sd-compile:47-48 | success leaves a result that this process has linked, failure none |
| Programs.Run | SYSDEPS/sd-locker_posix.c:139-140 | a command that executes a support program finds it complete, and leaves its outcome as exit code |
| Programs.SdLocker.Fatal | SYSDEPS/sd-locker.c:56-67 | the process ends with failure, and no lock and no descriptor of it remains |
| Programs.SdLocker.LockFileOpen | SYSDEPS/sd-locker_posix.c:87-99 | has the lock file open, or has ended and holds nothing |
| Programs.SdLocker.LockAcquire | SYSDEPS/sd-locker_posix.c:33-54 | the wait ends, and the lock is its own then |
| Programs.SdLocker.Execute | SYSDEPS/sd-locker_posix.c:119-146 | the code it keeps is the outcome of the event of this run that has ended the child; if it does not come back, a call has failed |
| Programs.SdLocker.InChild | SYSDEPS/sd-locker_posix.c:136-140 | the child closes its copy, executes its command, or fails |
| Programs.SdLocker.LockRelease | SYSDEPS/sd-locker_posix.c:60-81 | the lock is not its own any more |
| Programs.SdLocker.LockFileClose | SYSDEPS/sd-locker_posix.c:105-117 | holds nothing; a failed close turns the exit code, and nothing else does |
| Programs.SdLocker.RunMain | SYSDEPS/sd-locker.c:194-218 | the five steps end, keep their assertions and hold nothing in the end; success if the event that ended the child and then the close were good, else a failed call or command is named; the result of a successful compilation is complete |
| Programs.PrepareLocker | SYSDEPS/sysdep-system:11-30 | gets to the test before use, or the operation has failed |
| Programs.LinkLocker | SYSDEPS/sysdep-system:22-23 | leaves a complete sd-locker-PID of its own, or none |
| Programs.MoveLocker | SYSDEPS/sysdep-system:25-28 | the rename puts the complete file of this shell in place and takes its temporary name away; a failed one changes nothing but the place of this shell, and is tolerated |
| Programs.StartLocker | SYSDEPS/sysdep-system:44-53 | the sd-locker that is started is complete |
| Programs.LockAndRun | SYSDEPS/sysdep-system:36-84 | an operation gets to the exit code of its sd-locker, or fails before; a compilation that succeeds leaves its result complete |
| Programs.StartedIsWhole | SYSDEPS/sysdep-system:44-53 | the sd-locker that is executed is complete, whatever happened to the rename |
| Programs.DoOp | SYSDEPS/sysdep-system:91-107 | one operation ends in the next one, or in the end of the shell if its failure is fatal |
| Programs.Source | SYSDEPS/sysdep-system:172-312 | a sourced script ends; at its end all that it compiles is complete and all operations whose failure is fatal have succeeded; before it, it stops at one that has failed |
| LuaPath.RemoveUndoesAdd | lua-load.adb:35-60 | removing undoes adding if and only if the name has no dot that the backward search would find, and is not empty at the start |
| LuaPath.DottedNameStays | lua-load.adb:35-60 | a dotted key inside a path is taken off only in part |
| LuaPath.AddJoins | lua-load.adb:35-44 | adding a name appends a component |
| LuaPath.RemoveJoins | lua-load.adb:50-60 | removing takes the last component off |
| LuaPath.SplitJoin | lua-load.adb:35-60 | splitting the path at its dots gives the components back |
| LuaPath.ReplayJoins | lua-load.adb:35-60 | after any history of adds and matched removes of clean names the path is the components joined and the depth their count |
| LuaPath.RoundsRestoreIff | lua-load.adb:577-609 | adding and removing a component for each of any names, dotted and empty ones included, gives the path back if and only if each can be taken off it again |
| LuaWalk.WalkIsRead | lua-load.adb:285-612 | with clean keys and names every program does to the string Name_Code what the recursive reading does to a list of components, in its reports, its error texts and in the end |
| LuaWalk.IterationRestoresIff | lua-load.adb:572-611 | an iteration over keys of any text, whose callback leaves the path alone: whether it comes back, the path it comes back with, and that this is the one it started from if and only if each key is in range and its name can be taken off that path |
| LuaWalk.DottedKeyStays | lua-load.adb:586-609 | iterating over a table with the key "a.b" below "config" comes back with "config.a" |
| LuaLoad.IterationRestoresMachine | lua-load.adb:572-611 | the same on the machine, whose stack and depth are restored whenever the iteration returns |
| LuaLoad.ExecReads | lua-load.adb:285-612 | with clean keys and names a command tree on the stack machine yields the values, defaults, error text and final stack and path of the recursive reading, and restores stack, path and depth on normal exit |
| LuaLoad.State.AddNameComponent | lua-load.adb:35-44 | path and depth after an add |
| LuaLoad.State.RemoveNameComponent | lua-load.adb:50-60 | path and depth after a remove, and its failure on an empty path |
| LuaLoad.State.TypeError | lua-load.adb:78-94 | the error text: path, name, target and expected type, in this order |
| LuaLoad.State.NamedLocal | lua-load.adb:285-401 | the field's value, default or error; the stack is as before in every case |
| LuaLoad.State.IndexedLocal | lua-load.adb:407-515 | the same for an index, with the index in the error text |
| LuaLoad.State.LocalValue | lua-load.adb:202-279 | the value on top, the default for nil, which is popped, or an error, which pops |
| LuaLoad.State.KeyValue | lua-load.adb:166-196 | the key below the top, or an error that changes no slot |
| LuaLoad.State.TableStart | lua-load.adb:521-534 | the table is pushed and its name added; another value stays pushed and the path as it was |
| LuaLoad.State.TableEnd | lua-load.adb:540-550 | the table is popped and its name removed |
| LuaLoad.State.Next | lua-load.adb:574-574 | lua_next() of section 3.7 of the Lua 5.1 Reference Manual, in the order of the entries |
| LuaLoad.State.Exec | lua-load.adb:285-612 | a command tree on the stack machine, for keys and names of any text: what it reports, how it ends, and the stack, path, depth and error text that it leaves |
| LuaLoad.State.ExecBracket | lua-load.adb:521-550 | Table_Start, a body and Table_End run the body in the sub-table, and take off what is at the end of the path |
| LuaLoad.State.TableIterate | lua-load.adb:556-612 | an iteration runs its body once in each entry, including bodies that iterate |
| LuaLoad.State.AddKey | lua-load.adb:577-594 | the component of a key on the path: bracketed number, string, or none |
| LuaLoad.State.ProcessEntry | lua-load.adb:596-609 | the callback runs with key and value on top and the path extended, and one component is taken off when it returns and when it raises |
| LuaLoad.State.IterateTable | lua-load.adb:572-611 | the loop ends and adds up to the rounds of all entries, each with the path that the one before has left |
| LuaValues.NamedDelivers | lua-load.adb:285-401 | the entry's value if it is of the kind, the default for a missing field, or an error with path, name and wanted type, in the words of the text |
| LuaValues.IndexedDelivers | lua-load.adb:407-515 | the same for an index, whose numeral the error carries |
| LuaValues.LocalDelivers | lua-load.adb:202-279 | the same for the value on top |
| LuaValues.KeyDelivers | lua-load.adb:166-196 | the key if it is of the kind, or an error that speaks of the key |
| LuaValues.CommandsRunInOrder | lua-load.adb:285-612 | commands report one after the other, up to the first that does not come back |
| LuaValues.BracketEnters | lua-load.adb:521-534 | the body of a bracket runs in the entry's table with the name on the path; any other value raises "not a table" |
| LuaValues.IterateWantsTable | lua-load.adb:563-571 | an iteration over anything else raises "not a table" |
| LuaValues.BranchIsTaken | lua-load.adb:146-160 | a test of the type holds for the values of that type alone |
| LuaValues.RoundIsNearest | lua-load.adb:580-581 | a numeric key becomes the nearest integer, away from zero when two are as near |
| LuaValues.RoundOfInteger | lua-load.adb:580-581 | and an integer stays what it is |
| LuaValues.IntegerKeyIsShown | lua-load.adb:580-588 | an integer key is shown in brackets as a numeral whose value is the key, if it fits the type Integer |
| LuaValues.OtherKeyIsShown | lua-load.adb:589-594 | a text key is shown as it is, another one not at all |
| LuaUnwinding.IterateVisitsEachEntryOnce | lua-load.adb:573-611 | an iteration that finishes has run its body exactly once per entry, in order |
| LuaUnwinding.NameCodesOfEntries | lua-load.adb:577-594 | in each round the path is the outer path with the key's component, if it has one |
| LuaUnwinding.ErrorsUnwind | lua-load.adb:597-605 | an error leaves the path with the components of the brackets that were open, and two slots more on the stack per iteration |
| LuaUnwinding.PathUnwindsWithoutBrackets | lua-load.adb:597-605 | in the reading the path is back where it was, unless the types of the values say that the error leaves a bracket open |
| LuaUnwinding.MachineUnwinds | lua-load.adb:597-605 | on the machine Name_Code is back if and only if no bracket was open, Name_Depth and the stack have grown by what was; the error text begins with the place of the error, which without an open bracket is the outer path and the keys left on the stack |
| LuaUnwinding.BracketFreeUnwinds | lua-load.adb:597-605 | a program without brackets leaves Name_Code and Name_Depth of the machine as they were, and two slots more per iteration, whose keys the error text names |
| LuaUnwinding.CheckAgrees | lua-load.adb:285-612 | whether a program finishes, raises or aborts, and whether its error leaves a bracket open, is decided by the types of the values alone |
| LuaUnwinding.LoadFinishesIff | lua-load.adb:285-612 | a load comes to its end if and only if every field, key, sub-table and iterated table that the program asks for has its type |
| LuaUnwinding.EmptyReading | lua-load.adb:285-612 | which programs raise on an empty table, told from their text |
| LuaUnwinding.TrapLeavesOpen | lua-load.adb:521-605 | every program that comes to a bracket around such a one ends on the machine, for a value given here and from any path, with an error and another, longer path |
| LuaUnwinding.BracketStaysBehind | lua-load.adb:521-534 | a missing number in an empty sub-table leaves the name of the sub-table on the path |
| LuaUnwinding.ErrorsAreLocated | lua-load.adb:78-94 | every error text carries the full path of the element; with no bracket open the keys on the stack name that path |
| Paths.TmpIsAnother | install-core.c:321-324 | the temporary name is another node than the destination, if and only if two bytes of its suffix fit, or one behind something other than a slash |
| Paths.LongNameIsItsOwnTmp | install-core.c:321-324 | a destination that is its own temporary file |
| Paths.BaseNameHasNoSlash | install-core.c:634-674 | a base name is "/" or a non-empty name without a slash |
| Paths.BaseNameOfJoin | install-core.c:634-674 | the base name of a name in a directory is that name |
| Paths.RetranslateCopy | install-core.c:914-924 | translating a translated copy item changes nothing, if and only if its base name is not "/", its directory is all slashes, or the directory alone fills the buffer |
| OsModel.Os.Mkdir | install-posix.c:157-160 | returns 1 for a new directory and 0 for a failure, never -1 |
| OsModel.Os.Chown | install-posix.c:58-63 | new owner; the mode may lose its set-id bits, and nothing else of it changes |
| OsModel.Os.Chmod | install-posix.c:77-81 | new mode of a file or directory |
| OsModel.Os.Symlink | install-posix.c:93-98 | a new link where nothing was |
| InstallCore.WriteAll | install-core.c:347-358 | short writes add up to the whole buffer, or fail |
| InstallCore.CopyData | install-core.c:337-359 | short reads and writes add up to a copy of the source, and only the temporary file changes |
| InstallCore.Publish | install-core.c:361-381 | mode (but for set-id bits that chown takes), owner and rename; until the rename nothing but the temporary file has changed |
| InstallCore.FileCopy | install-core.c:306-391 | OK: content and owner as asked, the mode as asked but for set-id bits that chown takes, nothing else changed, the temporary file gone; error: a call has failed, nothing but the temporary file differs, and it is gone unless another call has failed; and in all trees between |
| InstallCore.ModeIsAsked | install-core.c:362-368 | the mode is the one asked for on every system if and only if it has no set-id bits |
| InstallCore.ModeOfCopy | install-core.c:362-368 | a copy has all the permissions and the sticky bit asked for, and no other bit |
| InstallCore.SetIdsCanBeLost | install-core.c:362-378 | the trees of a copy asked for with 04755, after chmod, chown and rename, that ends with 0755 |
| InstallCore.DestinationStays | install-core.c:378-381 | the destination is as it was in every tree before the final rename, whenever the temporary file is another |
| InstallCore.AppendPart | install-core.c:607-614 | the next part of the name with a slash and a NUL, inside the buffer |
| InstallCore.Rmkdir | install-core.c:580-630 | attempts every prefix that ends at a slash, then the whole name, unless it has 1023 bytes and no trailing slash; longer names are refused; failures go unnoticed |
| Ancestors.AttemptsDeepen | install-core.c:600-627 | the attempts are prefixes of the name, the shallowest first and the whole name last |
| Ancestors.AttemptsAreAbove | install-core.c:600-627 | every attempt is for the directory or one above it |
| Ancestors.RunMakesAbove | install-core.c:615-619 | nothing is changed but directories made on the way |
| Ancestors.AllAncestorsExist | install-core.c:600-627 | if each attempt makes or finds its directory then the directory and all above it exist in the end |
| InstallItems.FindBaseName | install-core.c:634-674 | the two backward loops find the base name, inside the shared buffer |
| InstallItems.LibName | install-core.c:695-741 | a name that ends in ".vlb" stands for the first word of its file, up to a NUL |
| InstallItems.TranCopy | install-core.c:887-928 | the item's new names are a function of its old ones and of the ".vlb" files, whatever the shared buffers held; it fails for a missing name, an unreadable ".vlb" file or a name that is too long |
| InstallItems.TranCopyExec | install-core.c:930-956 | the same with the suffix of executables |
| InstallItems.TranLink | install-core.c:958-969 | succeeds if and only if all three names are there |
| InstallItems.TranLiblink | install-core.c:971-1011 | the link's name is the base name with the suffix of dynamic libraries, its target the base name in a ".vlb" file if it names one |
| InstallItems.TranMkdir | install-core.c:1013-1020 | always succeeds |
| InstallItems.TranChkLink | install-core.c:1022-1041 | the audit's name of a link is its whole path |
| InstallItems.TranChkLiblink | install-core.c:1043-1062 | the same for a library link |
| InstallItems.Translate | install-core.c:1233-1257 | every operator's translation gives the names of one pure function |
| InstallPlans.LinkIsUndone | install-core.c:1183-1188 | the deinstaller unlinks the node that the installer linked, if and only if the name is relative or the directory the root, and the buffer loses no component of the joined name |
| InstallPlans.AbsoluteLinkStays | install-core.c:1183-1188 | an absolute link that the deinstaller looks for elsewhere |
| InstallPlans.LongLinkStays | install-core.c:1183-1188 | a link of whose joined name the buffer keeps the directory only |
| InstallPlans.UndoIsPlanned | install-core.c:1145-1221 | for copies and directories the deinstaller acts on the node that the installer made |
| InstallPlans.ModeOfNewDir | install-core.c:833-875 | new directories have the permissions asked for without those of the umask |
| InstallNames.CopyIsNamed | install-core.c:887-928 | a file is copied to its directory under the last part of its destination's name, or of its source's if there is none, by way of that name with ".tmp", for the owner, group and mode of the line; ".vlb" files stand for their first word |
| InstallNames.ExecIsNamed | install-core.c:930-956 | the same with the suffix of executables on both names |
| InstallNames.DirIsNamed | install-core.c:1013-1020 | a directory is made under its name for the owner, group and mode of the line |
| InstallNames.LinkIsNamed | install-core.c:958-969 | a link is made below its directory and points to the source |
| InstallNames.LibLinkIsNamed | install-core.c:971-1011 | a library link is made below its directory with the suffix, and points to the source or to the last part of what a ".vlb" file names |
| InstallNames.NoPlanWithout | install-core.c:404-424 | nothing is done for a line with a missing name, an unknown owner or group, or an unreadable ".vlb" file |
| InstallNames.AuditedLinkIs | install-core.c:1022-1041 | the audit looks at a link below the name of its directory |
| InstallOps.UidGidLookup | install-core.c:404-424 | both ids, or an error if one is unknown |
| InstallOps.CopyItem | install-core.c:745-785 | installs the copy that the item plans, or a call has failed; nothing on a dry run |
| InstallOps.MkdirItem | install-core.c:833-875 | makes the directory and those above it and sets its owner |
| InstallOps.LinkItem | install-core.c:787-831 | makes the link in its directory and comes back, or is fatal |
| InstallOps.DeinstCopy | install-core.c:1144-1167 | removes the file and nothing else |
| InstallOps.DeinstLink | install-core.c:1169-1197 | removes the link and nothing else |
| InstallOps.DeinstMkdir | install-core.c:1199-1221 | removes the directory, if it is empty, and nothing else |
| InstallDrivers.Install | install-core.c:1336-1348 | the operator does what the item's original names ask for |
| InstallDrivers.Installer | installer.c:41-58 | each item in order does what its original names ask for, although all share the buffers; errors go on, a fatal status stops with code 112; if no call fails and every line can be asked for, all statuses are OK |
| InstallDrivers.Deinstall | install-core.c:1364-1376 | removes the node of the item's original names |
| InstallDrivers.Deinstaller | deinstaller.c:41-59 | each item from the last to the first, down to a fatal status; all OK if no call fails |
| RoundTrip.RunBuilds | installer.c:41-56 | after the first n items of an installation without errors the tree is valid, old nodes stay, listed nodes are there, and all else is a directory above a listed one |
| RoundTrip.InstallThenDeinstall | deinstaller.c:41-57 | install and reverse deinstall leave the old nodes and unlisted directories above listed ones; all old nodes are back if and only if none had a temporary name |
| RoundTrip.UndoableIffNested | deinstaller.c:41-57 | every removal can succeed if and only if what is listed below a listed directory comes later and is listed without gaps |
| RoundTrip.UnlistedDirectoryStays | install-core.c:1199-1221 | a table whose deinstallation cannot succeed |
| RoundTrip.OldFileIsLost | install-core.c:321-331 | a file with a temporary name that does not survive the round trip |
| InstallTheorems.InstallationIsRun | installer.c:41-56 | an installation whose statuses are all OK has done every planned item |
| InstallTheorems.DeinstallationIsReverse | deinstaller.c:41-57 | a deinstallation whose statuses are all OK has removed every planned node in reverse |
| InstallTheorems.TableRoundTrip | deinstaller.c:41-57 | the round trip for the two drivers on one table |
| InstallAudit.FileCheck | install-core.c:426-556 | passes if and only if the destination exists with the size, masked mode and owners wanted, and, where there are no symbolic links, the type; a directory counts with its own size |
| InstallAudit.PassesMeans | install-core.c:470-549 | what is accepted, in the words of the table: present, no link, owner, group, permissions masked with 0755, size of a file, and type |
| InstallAudit.CheckItem | install-core.c:1068-1132 | counts a failed check, but not a failed lookup of the owner |
| InstallAudit.InstallCheck | install-core.c:1350-1362 | the verdict on the item's original names |
| InstallAudit.Instchk | instchk.c:37-58 | the counter is the number of failed items, and the exit code tells whether it is zero |
| InstallAudited.ItemVerdict | install-posix.c:83-91 | after an installation without errors a copy passes if and only if its permissions survive the mask of the audit and its source has kept its size, a directory if and only if the masked permissions of the item that first made it are its own |
| InstallAudited.AuditAfterInstall | instchk.c:37-58 | the audit fails exactly the items that do not pass so, whatever the order of the table |
| InstallAudited.OwnPermissions | instchk.c:37-58 | in a table that lists upper directories first and keeps its sources, each item is judged by its own permissions |
| InstallAudited.AuditIsClean | instchk.c:37-58 | for such a table and a disjoint umask there is no failure if and only if all permissions are unchanged by masking with 0755 |
| InstallAudited.LowerFirstFails | instchk.c:37-58 | directories "a/b" with 0700 and then "a" with 0755, of which the audit rejects the second |
| InstallAudited.ChangedItem | instchk.c:37-58 | whatever happens to the tree after an installation, an accepted item passes if and only if its node is there with the owner, group, masked mode, size and type that it had |
| InstallAudited.AuditAfterChange | instchk.c:37-58 | the audit of a changed tree fails exactly the items whose nodes differ so, and is clean if and only if there are none |
| InstallAudited.WrongOwnerFails | install-core.c:536-549 | in any tree an item that is missing or has another owner or group than its line asks for fails |
| Flattener.FitsIff | SYSDEPS/sd-locker_win32.c:147-160 | the command fits its allocation if and only if there is an argument and an int has more than one byte |
| Flattener.ConvertCommand | SYSDEPS/sd-locker_win32.c:136-207 | unless the allocation is refused, every write is inside it, and it then holds the command and a NUL |
| Flattener.ShellReadsVector | SYSDEPS/sd-locker_win32.c:163-196 | without double quotes the shell of `sh -c "..."` reads the argument vector back, empty words included, if and only if it has no single quotes |
| CtxtPrinter.Printer.Trim | mk-mk-ctxt:63-70 | the last newline from index 1 to r is zeroed unless the buffer is full |
| CtxtPrinter.Printer.PrintBuffer | mk-mk-ctxt:71-79 | the bytes are printed as elements, twelve to a line across reads |
| CtxtPrinter.Printer.PrintArray | mk-mk-ctxt:58-85 | the whole text for any sequence of reads |
| CtxtPrinter.SourceIs | mk-mk-ctxt:58-82 | the declaration around the elements, and that of the length, whose numeral is the number of bytes modulo 2^32 |
| CtxtPrinter.ElementsAre | mk-mk-ctxt:75-75 | elements below 16, of 128 or more, and negative ones |
| CtxtPrinter.FullRead | mk-mk-ctxt:63-63 | a read of 1024 bytes is printed as it is |
| CtxtPrinter.ArrayHoldsData | mk-mk-ctxt:58-82 | parsing the text gives the data and one NUL, for every byte, every line wrapping, and signed or unsigned chars |
| CtxtPrinter.NewlineIsZeroedIff | mk-mk-ctxt:60-70 | in any sequence of reads the last newline of a short one is the one zeroed, if and only if the reads before have left no newline right behind its data |
| CtxtPrinter.OldNewlineStaysBehind | mk-mk-ctxt:60-70 | two reads of which the second keeps its newline |
| CtxtPrinter.OneRead | mk-mk-ctxt:63-70 | an input of one short read is its own data with the last newline from index 1 on zeroed |
| CtxtPrinter.InputIsRead | mk-mk-ctxt:58-82 | such an input comes back with its last newline zeroed and one NUL |
| LoadConf.StrDiff | lua-ada-load-conf.c:131-142 | zero if and only if the strings are equal, else the difference at the first place where they differ |
| LoadConf.Conf.ParseFlags | lua-ada-load-conf.c:99-107 | a bit is set if and only if its word is given |
| LoadConf.Conf.CallFlags | lua-ada-load-conf.c:109-117 | prints the text of each given word in the order of the table, or the help alone |
| LoadConf.Conf.Run | lua-ada-load-conf.c:121-128 | the output and the exit code for any arguments |
| LoadConf.SameWordsSameOutput | lua-ada-load-conf.c:89-117 | order, repetitions and unknown words do not change the output |
| LoadConf.OutputIs | lua-ada-load-conf.c:19-49 | the output without "help", text for text in the order of the table |
| LoadConf.HelpIs | lua-ada-load-conf.c:77-86 | the output with "help" is the usage and the lines of the help alone |
| LoadConf.FirstLines | lua-ada-load-conf.c:64-73 | the first five lines of the help |
| LoadConf.LastLines | lua-ada-load-conf.c:69-73 | the last four |

## Left out

- `sd-clean`, signals, killed processes, and failures of `fcntl()` and `waitpid()`: they break the protocol's assumptions.
- The Ada version cache (SYSDEPS/sysdep-system:320-343): its test and its final write are outside any lock.
- What the support programs compute, and the wrapper scripts for compilers, linkers and module search.
- InstallAudit.InstallCheck: the verdict on a symbolic link is open, as it depends on the link's target.
- InstallPlans.LinkIsUndone: absolute link names of whose joined name the buffer loses a component; the deinstaller may hit the right node there by chance.
- InstallAudit.FileCheck: a path that ends in a symbolic link counts as missing, as links are not followed; the text of a failure names only what differs.
- OsModel.Os.OpenRead: a directory is refused when it is opened, not when it is first read.
- InstallCore.CopyData: a read or write that transfers nothing without an end or error mark counts as an error, and data held back in stdio buffers counts as written.
- InstallCore.FileCopy: what `fclose()` does with a stream that was never opened (install-core.c:331-334, 387) is not modelled.
- Paths: ".." is a component like any other, and symbolic links in the middle of a path are not followed.
- OsModel: hard links, device nodes and the sticky and set-group bits that a system may give to new directories by itself.
- InstallItems.LibName: what `fread()` delivers of a ".vlb" file is a parameter, the same at every reading; a file whose first 1024 bytes have no blank is excluded, as the NUL behind them has no place in the buffer (install-core.c:736).
- install_init: reading the suffix file; the suffixes are parameters.  Message buffers, callbacks and dry-run texts.
- LuaLoad.State.Exec: excludes programs that read a nil they start from with a default, as `Local_Conditional` pops it (stated by LuaLoad.State.LocalValue) and the rest would read the slot below.
- Lua metatables, Lua runtime errors, the stack limit, garbage collection, shared and cyclic tables; a read of something that is not a table ends the model's run.
- Numbers of Lua are reals, and `Long_Integer` results are not converted; a key is rounded as Ada does, and one outside `Integer` raises `Constraint_Error`.
- Flattener.ShellReadsVector: arguments with double quotes, which the C library on Win32 would treat by rules of its own.
- The Win32 lock, process and ownership calls, `sd-cpuidx86.c`, `sd-ccversion.c` and the tables of `sd-arch.c`, `sd-os.c` and `sd-cctype.c`.
- Failures of `fflush()` at the end of the text programs.
