/** The parallel-build protocol of SYSDEPS as a transition system.

    Any number of shells source sysdep-system at the same time.  Each one works
    through the same kind of script: compile a support program under the lock
    file of its object, or run a command under another lock file.  Every lock is
    taken by an sd-locker process, which forks the command and waits for it.

    Environment: sd-clean does not run during a build, no process is killed,
    fcntl() and waitpid() fail for no reason but a signal, and a failed link
    leaves no executable result.  Every other failure (of open, fork, close,
    exec, the compiler, the linker, mv and the commands themselves) may happen
    at any time. */
module Protocol {
  import opened Wrappers
  import opened Kernel

  datatype Origin = Prebuilt | BuiltBy(shell: nat) | Linked(shell: nat)

  datatype File = Absent | Writing(writer: nat) | Complete(origin: Origin)

  /** One use of SDM_protected_C_compilation, or of SDM_lock_and_exec.  `uses` is
      the support program that the command executes, if any.  A command run
      outside backquotes is `fatal`: its failure ends the shell. */
  datatype Op = Compile(result: string) | Exec(lockFile: string, uses: Option<string>, fatal: bool)

  type Script = seq<Op>

  /** Control points of one shell and of the sd-locker it is waiting for. */
  datatype Pc =
    | Idle
    // SDM_prepare_locker
    | TestLocker | BuildObject | BuildLink | Publish
    // the test before use
    | CheckLocker | Start
    // sd-locker
    | OpenLock | Acquire | ForkChild | Wait | Release | CloseLock | Reap
    // the shell has ended
    | Finished | Halted

  /** Control points of the child of sd-locker, up to the exit code it leaves. */
  datatype Child =
    | NoChild
    | ChildClose | ChildExec
    // sd-compile
    | TestResult | CompileObject | Linking
    // any other command
    | Running
    | Exited(ok: bool)

  /** `pid` is what `$$` stands for in the shell. */
  datatype Proc = Proc(pid: nat, script: Script, ip: nat, pc: Pc, child: Child, code: bool)

  /** `temps` are the files sd-locker-PID, by process id. */
  datatype State = State(
    procs: seq<Proc>, results: map<string, File>, temps: map<nat, File>, locker: File, kernel: Kernel)

  /** A step of shell `p` or its locker, or of its child.  `good` is the outcome
      of the operation: success, or "the file is executable" for a test. */
  datatype Event = ShellStep(p: nat, good: bool) | ChildStep(p: nat, good: bool)

  function ResultOf(results: map<string, File>, r: string): File {
    if r in results then results[r] else Absent
  }

  function TempOf(temps: map<nat, File>, pid: nat): File {
    if pid in temps then temps[pid] else Absent
  }

  /** The outcomes that `[ -x file ]` may have: a file that is being written
      may or may not be executable yet. */
  predicate MaySee(f: File, executable: bool) {
    match f
    case Absent => !executable
    case Writing(_) => true
    case Complete(_) => executable
  }

  function LockOf(op: Op): string {
    match op
    case Compile(r) => r + ".o.lock"
    case Exec(lockFile, _, _) => lockFile
  }

  predicate Ended(pc: Pc) { pc == Finished || pc == Halted }

  predicate Active(pr: Proc) { pr.pc != Idle && !Ended(pr.pc) && pr.ip < |pr.script| }

  predicate At(pr: Proc, pc: Pc) { pr.pc == pc && Active(pr) && pr.child == NoChild }

  function OpOf(pr: Proc): Op
    requires Active(pr)
  {
    pr.script[pr.ip]
  }

  function Lk(pr: Proc): string
    requires Active(pr)
  {
    LockOf(OpOf(pr))
  }

  // ---------------------------------------------------------------- steps

  predicate Enabled(s: State, e: Event) {
    && e.p < |s.procs|
    && var pr := s.procs[e.p];
       match e
       case ShellStep(p, good) =>
         (match pr.pc
          case Idle => true
          case TestLocker => Active(pr) && MaySee(s.locker, good)
          case CheckLocker => Active(pr) && MaySee(s.locker, good)
          case Publish => Active(pr) && (good ==> pr.pid in s.temps)
          case Acquire => Active(pr) && good && CanLock(s.kernel, Locker(p), Lk(pr))
          case Wait => Active(pr) && pr.child.Exited? && good == pr.child.ok
          case Start => Active(pr) && good
          case Release => Active(pr) && good
          case Reap => Active(pr) && good == pr.code
          case Finished => false
          case Halted => false
          case _ => Active(pr))
       case ChildStep(p, good) =>
         Active(pr) && pr.pc == Wait &&
         match pr.child
         case NoChild => false
         case Exited(_) => false
         case ChildClose => true
         case ChildExec => true
         case Running => true
         case TestResult => OpOf(pr).Compile? && MaySee(ResultOf(s.results, OpOf(pr).result), good)
         case CompileObject => OpOf(pr).Compile?
         case Linking => OpOf(pr).Compile?
  }

  function Apply(s: State, e: Event): State
    requires Enabled(s, e)
  {
    match e
    case ShellStep(p, good) => ApplyShell(s, p, good)
    case ChildStep(p, good) => ApplyChild(s, p, good)
  }

  /** What a failed operation does to the shell: SYSDEP_FATAL ends it, but inside
      backquotes only the subshell ends and the script goes on. */
  function OpFailed(pr: Proc): Proc
    requires Active(pr)
  {
    if OpOf(pr).Compile? || OpOf(pr).fatal then pr.(pc := Halted, child := NoChild)
    else pr.(pc := Idle, ip := pr.ip + 1, child := NoChild)
  }

  /** The shell itself, up to the start of sd-locker. */
  predicate Preparing(pc: Pc) {
    pc.Idle? || pc.TestLocker? || pc.BuildObject? || pc.BuildLink? || pc.Publish? || pc.CheckLocker? || pc.Start?
  }

  function ApplyShell(s: State, p: nat, good: bool): State
    requires Enabled(s, ShellStep(p, good))
  {
    if Preparing(s.procs[p].pc) then ApplyPreparing(s, p, good) else ApplyLocking(s, p, good)
  }

  function ApplyPreparing(s: State, p: nat, good: bool): State
    requires Enabled(s, ShellStep(p, good)) && Preparing(s.procs[p].pc)
  {
    var pr := s.procs[p];
    match pr.pc
    case Idle =>
      s.(procs := s.procs[p := pr.(pc := if pr.ip < |pr.script| then TestLocker else Finished)])
    case TestLocker =>
      s.(procs := s.procs[p := pr.(pc := if good then CheckLocker else BuildObject)])
    case BuildObject =>
      if good then s.(procs := s.procs[p := pr.(pc := BuildLink)], temps := s.temps[pr.pid := Writing(p)])
      else s.(procs := s.procs[p := OpFailed(pr)])
    case BuildLink =>
      if good then s.(procs := s.procs[p := pr.(pc := Publish)], temps := s.temps[pr.pid := Complete(BuiltBy(p))])
      else s.(procs := s.procs[p := OpFailed(pr)], temps := s.temps - {pr.pid})
    case Publish =>
      if good then s.(procs := s.procs[p := pr.(pc := CheckLocker)], temps := s.temps - {pr.pid},
          locker := s.temps[pr.pid])
      else s.(procs := s.procs[p := pr.(pc := CheckLocker)])
    case CheckLocker =>
      s.(procs := s.procs[p := if good then pr.(pc := Start) else OpFailed(pr)])
    case Start =>
      s.(procs := s.procs[p := pr.(pc := OpenLock, code := true)])
  }

  /** sd-locker, and the shell that sees its exit code. */
  function ApplyLocking(s: State, p: nat, good: bool): State
    requires Enabled(s, ShellStep(p, good)) && !Preparing(s.procs[p].pc)
  {
    var pr := s.procs[p];
    match pr.pc
    case OpenLock =>
      if good then s.(procs := s.procs[p := pr.(pc := Acquire)], kernel := Open(s.kernel, Locker(p), Lk(pr)))
      else s.(procs := s.procs[p := pr.(pc := Reap, code := false)], kernel := Exit(s.kernel, Locker(p)))
    case Acquire =>
      s.(procs := s.procs[p := pr.(pc := ForkChild)], kernel := Lock(s.kernel, Locker(p), Lk(pr)))
    case ForkChild =>
      if good then s.(procs := s.procs[p := pr.(pc := Wait, child := ChildClose)],
                      kernel := Fork(s.kernel, Locker(p), Command(p)))
      else s.(procs := s.procs[p := pr.(pc := Reap, code := false)], kernel := Exit(s.kernel, Locker(p)))
    case Wait =>
      s.(procs := s.procs[p := pr.(pc := Release, child := NoChild, code := good)])
    case Release =>
      s.(procs := s.procs[p := pr.(pc := CloseLock)], kernel := Unlock(s.kernel, Locker(p), Lk(pr)))
    case CloseLock =>
      s.(procs := s.procs[p := pr.(pc := Reap, code := pr.code && good)],
         kernel := Exit(Close(s.kernel, Locker(p), Lk(pr)), Locker(p)))
    case Reap =>
      s.(procs := s.procs[p := if good then pr.(pc := Idle, ip := pr.ip + 1) else OpFailed(pr)])
  }

  /** The child leaves: its descriptors close and its exit code waits to be collected. */
  function ChildExits(s: State, p: nat, ok: bool): State
    requires p < |s.procs|
  {
    s.(procs := s.procs[p := s.procs[p].(child := Exited(ok))], kernel := Exit(s.kernel, Command(p)))
  }

  function ApplyChild(s: State, p: nat, good: bool): State
    requires Enabled(s, ChildStep(p, good))
  {
    var pr := s.procs[p];
    match pr.child
    case ChildClose =>
      if good then s.(procs := s.procs[p := pr.(child := ChildExec)],
                      kernel := Close(s.kernel, Command(p), Lk(pr)))
      else ChildExits(s, p, false)
    case ChildExec =>
      if good then s.(procs := s.procs[p := pr.(child := if OpOf(pr).Compile? then TestResult else Running)])
      else ChildExits(s, p, false)
    case TestResult =>
      if good then ChildExits(s, p, true)
      else s.(procs := s.procs[p := pr.(child := CompileObject)])
    case CompileObject =>
      if good then s.(procs := s.procs[p := pr.(child := Linking)],
                      results := s.results[OpOf(pr).result := Writing(p)])
      else ChildExits(s, p, false)
    case Linking =>
      var r := OpOf(pr).result;
      if good then ChildExits(s.(results := s.results[r := Complete(Linked(p))]), p, true)
      else ChildExits(s.(results := s.results[r := Absent]), p, false)
    case Running => ChildExits(s, p, good)
  }

  // ---------------------------------------------------------------- runs

  /** Every command that executes a support program comes after its compilation. */
  predicate WellFormed(script: Script) {
    forall i :: 0 <= i < |script| && script[i].Exec? && script[i].uses.Some? ==>
      Compile(script[i].uses.value) in script[..i]
  }

  /** Process ids are distinct, and files sd-locker-PID may have been left by anybody. */
  predicate Init(s: State) {
    && (forall p :: 0 <= p < |s.procs| ==>
         s.procs[p] == Proc(s.procs[p].pid, s.procs[p].script, 0, Idle, NoChild, true))
    && (forall p, q :: 0 <= p < q < |s.procs| ==> s.procs[p].pid != s.procs[q].pid)
    && (forall r :: r in s.results ==> s.results[r] == Absent || s.results[r] == Complete(Prebuilt))
    && (s.locker == Absent || s.locker == Complete(Prebuilt))
    && s.kernel == EMPTY
  }

  /** `run` is a sequence of states, each reached from the one before by an enabled event. */
  predicate IsRun(run: seq<State>, events: seq<Event>) {
    && |run| == |events| + 1
    && forall i :: 0 <= i < |events| ==> Enabled(run[i], events[i]) && run[i + 1] == Apply(run[i], events[i])
  }
}
