/** The inductive invariant of the protocol, and what follows from it in every
    state of every run. */
module Safety {
  import opened Kernel
  import opened Protocol

  // ---------------------------------------------------------------- the invariant

  /** sd-locker holds its lock at these points, and has the lock file open at those. */
  predicate Holding(pc: Pc) { pc == ForkChild || pc == Wait || pc == Release }
  predicate Opened(pc: Pc) { Holding(pc) || pc == Acquire || pc == CloseLock }
  predicate UsesLocker(pc: Pc) { Opened(pc) || pc == Start || pc == OpenLock || pc == Reap }

  /** The child of sd-locker is alive: it has been forked and has not been waited for. */
  predicate Live(pr: Proc) { pr.child != NoChild && !pr.child.Exited? }

  predicate Shape(pr: Proc) {
    && pr.ip <= |pr.script|
    && (pr.pc == Idle || Ended(pr.pc) || pr.ip < |pr.script|)
    && (pr.pc == Wait <==> pr.child != NoChild)
    && (pr.child == TestResult || pr.child == CompileObject || pr.child == Linking ==> OpOf(pr).Compile?)
    && (pr.child == Running ==> OpOf(pr).Exec?)
  }

  ghost predicate Shapes(s: State) {
    forall p :: 0 <= p < |s.procs| ==> Shape(s.procs[p])
  }

  /** How a shell, through its locker and the locker's child, uses the kernel:
      the lock is held, the locker has the file open, the child still has its copy open. */
  datatype Use = Use(holding: bool, isOpen: bool, copied: bool, file: string)

  function UseOf(pr: Proc): Use {
    Use(Holding(pr.pc), Opened(pr.pc), pr.child == ChildClose, if Active(pr) then Lk(pr) else "")
  }

  function Uses(s: State): seq<Use> {
    seq(|s.procs|, p requires 0 <= p < |s.procs| => UseOf(s.procs[p]))
  }

  /** Locks belong to lockers between acquisition and release, and descriptors of
      a lock file are open nowhere else than in the locker and in a child that
      has not closed its copy yet. */
  ghost predicate Agrees(k: Kernel, uses: seq<Use>) {
    && (forall p :: 0 <= p < |uses| && uses[p].holding ==>
         uses[p].file in k.locks && k.locks[uses[p].file] == Locker(p))
    && (forall f :: f in k.locks ==>
         var o := k.locks[f];
         o.Locker? && o.shell < |uses| && uses[o.shell].holding && uses[o.shell].file == f)
    && (forall p :: 0 <= p < |uses| && uses[p].isOpen ==> (Locker(p), uses[p].file) in k.descriptors)
    && (forall p :: 0 <= p < |uses| && uses[p].copied ==> (Command(p), uses[p].file) in k.descriptors)
    && (forall d :: d in k.descriptors ==>
         d.0.shell < |uses| &&
         var u := uses[d.0.shell];
         u.isOpen && d.1 == u.file && (d.0.Command? ==> u.copied))
  }

  ghost predicate KernelInv(s: State) {
    Agrees(s.kernel, Uses(s))
  }

  /** Only the child that links a result is writing it; a child that found no
      executable result still sees none. */
  ghost predicate ResultInv(s: State)
    requires Shapes(s)
  {
    && (forall r :: r in s.results && s.results[r].Writing? ==>
         s.results[r].writer < |s.procs| &&
         var pr := s.procs[s.results[r].writer];
         pr.child == Linking && OpOf(pr) == Compile(r))
    && (forall p :: 0 <= p < |s.procs| && s.procs[p].child == Linking ==>
         ResultOf(s.results, OpOf(s.procs[p]).result) == Writing(p))
    && (forall p :: 0 <= p < |s.procs| && s.procs[p].child == CompileObject ==>
         ResultOf(s.results, OpOf(s.procs[p]).result) == Absent)
  }

  /** A successful compilation leaves a complete result. */
  predicate Succeeding(pr: Proc) {
    || pr.child == Exited(true)
    || ((pr.pc == Release || pr.pc == CloseLock || pr.pc == Reap) && pr.code)
  }

  ghost predicate Compiled(s: State, p: nat)
    requires Shapes(s) && p < |s.procs|
  {
    var pr := s.procs[p];
    && (forall i :: 0 <= i < pr.ip && pr.script[i].Compile? && !Ended(pr.pc) ==>
         ResultOf(s.results, pr.script[i].result).Complete?)
    && (Active(pr) && Succeeding(pr) && OpOf(pr).Compile? ==>
         ResultOf(s.results, OpOf(pr).result).Complete?)
  }

  ghost predicate CompiledInv(s: State)
    requires Shapes(s)
  {
    forall p :: 0 <= p < |s.procs| ==> Compiled(s, p)
  }

  predicate LockerOf(p: nat, pr: Proc, temps: map<nat, File>, locker: File) {
    && (pr.pc == BuildLink ==> TempOf(temps, pr.pid) == Writing(p))
    && (pr.pc == Publish ==> TempOf(temps, pr.pid) == Complete(BuiltBy(p)))
    && (UsesLocker(pr.pc) ==> locker.Complete?)
  }

  /** The published sd-locker is never half written, and is there once it was seen;
      what a shell builds under its process id is its own. */
  ghost predicate LockerInv(s: State) {
    && !s.locker.Writing?
    && (forall p, q :: 0 <= p < q < |s.procs| ==> s.procs[p].pid != s.procs[q].pid)
    && forall p :: 0 <= p < |s.procs| ==> LockerOf(p, s.procs[p], s.temps, s.locker)
  }

  ghost predicate Inv(s: State) {
    Shapes(s) && KernelInv(s) && ResultInv(s) && CompiledInv(s) && LockerInv(s)
  }

  // ---------------------------------------------------------------- preservation

  lemma InitHasInv(s: State)
    requires Init(s)
    ensures Inv(s)
  {
  }

  lemma PreparingFrame(s: State, p: nat, good: bool)
    requires Enabled(s, ShellStep(p, good)) && Preparing(s.procs[p].pc)
    ensures var s' := ApplyPreparing(s, p, good); s'.procs == s.procs[p := s'.procs[p]] && s'.results == s.results
  {
    hide MaySee, OpFailed;
  }

  lemma LockingFrame(s: State, p: nat, good: bool)
    requires Enabled(s, ShellStep(p, good)) && !Preparing(s.procs[p].pc)
    ensures var s' := ApplyLocking(s, p, good); s'.procs == s.procs[p := s'.procs[p]] && s'.results == s.results
  {
    hide Open, Lock, Unlock, Close, Fork, Exit, CanLock, LockOf, OpFailed;
  }

  lemma ChildFrame(s: State, p: nat, good: bool)
    requires Enabled(s, ChildStep(p, good))
    ensures var s' := ApplyChild(s, p, good); s'.procs == s.procs[p := s'.procs[p]]
  {
    hide Close, Exit, LockOf, MaySee, ResultOf;
  }

  /** A step changes one process only, and a shell's step no result. */
  lemma StepFrame(s: State, e: Event)
    requires Enabled(s, e)
    ensures var s' := Apply(s, e);
            && s'.procs == s.procs[e.p := s'.procs[e.p]] && |s'.procs| == |s.procs|
            && (e.ShellStep? ==> s'.results == s.results)
  {
    assert e.p < |s.procs|;
    hide Enabled, ApplyPreparing, ApplyLocking, ApplyChild;
    match e
    case ShellStep(p, good) =>
      if Preparing(s.procs[p].pc) { PreparingFrame(s, p, good); } else { LockingFrame(s, p, good); }
    case ChildStep(p, good) => ChildFrame(s, p, good);
  }

  predicate NoLiveChild(c: Child) { c == NoChild || c.Exited? }

  lemma PreparingKeepsShape(s: State, p: nat, good: bool)
    requires Enabled(s, ShellStep(p, good)) && Shape(s.procs[p]) && Preparing(s.procs[p].pc)
    ensures var s' := ApplyPreparing(s, p, good); s'.procs == s.procs[p := s'.procs[p]] && Shape(s'.procs[p])
    ensures NoLiveChild(s.procs[p].child) && ApplyPreparing(s, p, good).procs[p].child == NoChild
  {
    hide MaySee;
  }

  lemma LockingKeepsShape(s: State, p: nat, good: bool)
    requires Enabled(s, ShellStep(p, good)) && Shape(s.procs[p]) && !Preparing(s.procs[p].pc)
    ensures var s' := ApplyLocking(s, p, good); s'.procs == s.procs[p := s'.procs[p]] && Shape(s'.procs[p])
    ensures NoLiveChild(s.procs[p].child) && ApplyLocking(s, p, good).procs[p].child in {NoChild, ChildClose}
  {
    hide Open, Lock, Unlock, Close, Fork, Exit, CanLock, LockOf;
  }

  lemma ShellStepKeepsShape(s: State, p: nat, good: bool)
    requires Enabled(s, ShellStep(p, good)) && Shape(s.procs[p])
    ensures var s' := ApplyShell(s, p, good); s'.procs == s.procs[p := s'.procs[p]] && Shape(s'.procs[p])
    ensures NoLiveChild(s.procs[p].child) && ApplyShell(s, p, good).procs[p].child in {NoChild, ChildClose}
  {
    assert p < |s.procs|;
    hide Shape, Enabled, ApplyPreparing, ApplyLocking;
    if Preparing(s.procs[p].pc) {
      PreparingKeepsShape(s, p, good);
    } else {
      LockingKeepsShape(s, p, good);
    }
  }

  lemma ChildStepKeepsShape(s: State, p: nat, good: bool)
    requires Enabled(s, ChildStep(p, good)) && Shape(s.procs[p])
    ensures var s' := ApplyChild(s, p, good); s'.procs == s.procs[p := s'.procs[p]] && Shape(s'.procs[p])
  {
  }

  lemma StepKeepsShapes(s: State, e: Event)
    requires Shapes(s) && Enabled(s, e)
    ensures Shapes(Apply(s, e))
  {
    hide Shape, ApplyShell, ApplyChild;
    match e
    case ShellStep(p, good) => ShellStepKeepsShape(s, p, good);
    case ChildStep(p, good) => ChildStepKeepsShape(s, p, good);
  }

  lemma SameUses(s: State, s': State, p: nat)
    requires p < |s.procs| == |s'.procs| && s'.procs == s.procs[p := s'.procs[p]]
    ensures Uses(s') == Uses(s)[p := UseOf(s'.procs[p])]
  {
  }

  /** The name of a lock file matters only while it is used. */
  lemma IdleAgrees(k: Kernel, uses: seq<Use>, p: nat, file: string)
    requires Agrees(k, uses) && p < |uses|
    requires uses[p].file == file || (!uses[p].holding && !uses[p].isOpen)
    ensures Agrees(k, uses[p := uses[p].(file := file)])
  {
  }

  lemma OpenAgrees(k: Kernel, uses: seq<Use>, p: nat, file: string)
    requires Agrees(k, uses) && p < |uses| && !uses[p].isOpen && !uses[p].holding
    ensures Agrees(Open(k, Locker(p), file), uses[p := Use(false, true, false, file)])
  {
  }

  lemma LockAgrees(k: Kernel, uses: seq<Use>, p: nat)
    requires Agrees(k, uses) && p < |uses| && uses[p].isOpen && !uses[p].holding
    requires CanLock(k, Locker(p), uses[p].file)
    ensures Agrees(Lock(k, Locker(p), uses[p].file), uses[p := uses[p].(holding := true)])
  {
  }

  /** fork() gives the child a descriptor, but no lock. */
  lemma ForkAgrees(k: Kernel, uses: seq<Use>, p: nat)
    requires Agrees(k, uses) && p < |uses| && uses[p].isOpen
    ensures Agrees(Fork(k, Locker(p), Command(p)), uses[p := uses[p].(copied := true)])
  {
  }

  /** Closing the child's copy, or the death of the child, takes no lock away. */
  lemma ChildCloseAgrees(k: Kernel, uses: seq<Use>, p: nat)
    requires Agrees(k, uses) && p < |uses|
    ensures Close(k, Command(p), uses[p].file).locks == k.locks
    ensures Exit(k, Command(p)).locks == k.locks
    ensures Agrees(Close(k, Command(p), uses[p].file), uses[p := uses[p].(copied := false)])
    ensures Agrees(Exit(k, Command(p)), uses[p := uses[p].(copied := false)])
  {
    assert Exit(k, Command(p)).locks == k.locks;
  }

  /** A process that closes a lock file gives up its own lock on it, and nothing else of
      anybody changes but that descriptor. */
  lemma CloseGivesUpLock(k: Kernel, o: OsProcess, file: string)
    ensures var k' := Close(k, o, file);
            && (file in k'.locks ==> k'.locks[file] != o)
            && (forall f :: f in k.locks && (f != file || k.locks[f] != o) ==>
                 f in k'.locks && k'.locks[f] == k.locks[f])
            && (forall f :: f in k'.locks ==> f in k.locks)
            && (forall d :: d in k'.descriptors <==> d in k.descriptors && d != (o, file))
  {
  }

  lemma UnlockAgrees(k: Kernel, uses: seq<Use>, p: nat)
    requires Agrees(k, uses) && p < |uses| && uses[p].holding
    ensures Agrees(Unlock(k, Locker(p), uses[p].file), uses[p := uses[p].(holding := false)])
  {
  }

  /** Whatever the locker has left behind goes away with it. */
  lemma ExitAgrees(k: Kernel, uses: seq<Use>, p: nat)
    requires Agrees(k, uses) && p < |uses| && !uses[p].copied
    ensures Agrees(Exit(k, Locker(p)), uses[p := uses[p].(holding := false, isOpen := false)])
    ensures !uses[p].holding ==> Exit(Close(k, Locker(p), uses[p].file), Locker(p)) == Exit(k, Locker(p))
  {
  }

  predicate QuietStep(pr: Proc) {
    && pr.pc != Acquire && pr.pc != Release && pr.pc != CloseLock && pr.pc != OpenLock && pr.pc != ForkChild
  }

  lemma QuietStepKeepsKernel(s: State, p: nat, good: bool)
    requires Shapes(s) && KernelInv(s) && Enabled(s, ShellStep(p, good)) && QuietStep(s.procs[p])
    ensures KernelInv(ApplyShell(s, p, good))
  {
    hide Agrees;
    var s' := ApplyShell(s, p, good);
    var pr, pr' := s.procs[p], s'.procs[p];
    assert Shape(pr);
    SameUses(s, s', p);
    assert s'.kernel == s.kernel;
    assert UseOf(pr') == UseOf(pr).(file := UseOf(pr').file);
    IdleAgrees(s.kernel, Uses(s), p, UseOf(pr').file);
  }

  /** A kernel and a use that agree make the invariant of the next state. */
  lemma NextKernel(s: State, s': State, p: nat, u: Use)
    requires p < |s.procs| == |s'.procs| && s'.procs == s.procs[p := s'.procs[p]]
    requires u == UseOf(s'.procs[p]) && Agrees(s'.kernel, Uses(s)[p := u])
    ensures KernelInv(s')
  {
    SameUses(s, s', p);
  }

  lemma AcquireKeepsKernel(s: State, p: nat)
    requires Shapes(s) && KernelInv(s) && Enabled(s, ShellStep(p, true)) && s.procs[p].pc == Acquire
    ensures KernelInv(ApplyShell(s, p, true))
  {
    var uses := Uses(s);
    assert Shape(s.procs[p]);
    assert uses[p] == Use(false, true, false, Lk(s.procs[p]));
    LockAgrees(s.kernel, uses, p);
    NextKernel(s, ApplyShell(s, p, true), p, Use(true, true, false, Lk(s.procs[p])));
  }

  lemma ReleaseKeepsKernel(s: State, p: nat)
    requires Shapes(s) && KernelInv(s) && Enabled(s, ShellStep(p, true)) && s.procs[p].pc == Release
    ensures KernelInv(ApplyShell(s, p, true))
  {
    hide Agrees;
    var uses := Uses(s);
    assert Shape(s.procs[p]);
    assert uses[p] == Use(true, true, false, Lk(s.procs[p]));
    UnlockAgrees(s.kernel, uses, p);
    NextKernel(s, ApplyShell(s, p, true), p, Use(false, true, false, Lk(s.procs[p])));
  }

  lemma OpenStepKeepsKernel(s: State, p: nat)
    requires Shapes(s) && KernelInv(s) && Enabled(s, ShellStep(p, true))
    requires s.procs[p].pc == OpenLock || s.procs[p].pc == ForkChild
    ensures KernelInv(ApplyShell(s, p, true))
  {
    hide Agrees;
    var uses := Uses(s);
    assert Shape(s.procs[p]);
    if s.procs[p].pc == OpenLock {
      OpenAgrees(s.kernel, uses, p, Lk(s.procs[p]));
      NextKernel(s, ApplyShell(s, p, true), p, Use(false, true, false, Lk(s.procs[p])));
    } else {
      ForkAgrees(s.kernel, uses, p);
      NextKernel(s, ApplyShell(s, p, true), p, uses[p].(copied := true));
    }
  }

  lemma ExitStepKeepsKernel(s: State, p: nat, good: bool)
    requires Shapes(s) && KernelInv(s) && Enabled(s, ShellStep(p, good))
    requires s.procs[p].pc == CloseLock || (!good && (s.procs[p].pc == OpenLock || s.procs[p].pc == ForkChild))
    ensures KernelInv(ApplyShell(s, p, good))
  {
    hide Agrees, MaySee, LockOf;
    var uses := Uses(s);
    assert Shape(s.procs[p]);
    ExitAgrees(s.kernel, uses, p);
    NextKernel(s, ApplyShell(s, p, good), p, uses[p].(holding := false, isOpen := false));
  }

  lemma ChildStepKeepsKernel(s: State, p: nat, good: bool)
    requires Shapes(s) && KernelInv(s) && Enabled(s, ChildStep(p, good))
    ensures KernelInv(ApplyChild(s, p, good))
  {
    var s' := ApplyChild(s, p, good);
    var pr, pr' := s.procs[p], s'.procs[p];
    SameUses(s, s', p);
    var uses, u' := Uses(s), UseOf(pr');
    assert u' == uses[p].(copied := false);
    ChildCloseAgrees(s.kernel, uses, p);
    IdleAgrees(s.kernel, uses, p, uses[p].file);
  }

  lemma StepKeepsKernel(s: State, e: Event)
    requires Shapes(s) && KernelInv(s) && Enabled(s, e)
    ensures KernelInv(Apply(s, e))
  {
    match e
    case ChildStep(p, good) => ChildStepKeepsKernel(s, p, good);
    case ShellStep(p, good) =>
      if QuietStep(s.procs[p]) {
        QuietStepKeepsKernel(s, p, good);
      } else if s.procs[p].pc == Acquire {
        AcquireKeepsKernel(s, p);
      } else if s.procs[p].pc == Release {
        ReleaseKeepsKernel(s, p);
      } else if good && s.procs[p].pc != CloseLock {
        OpenStepKeepsKernel(s, p);
      } else {
        ExitStepKeepsKernel(s, p, good);
      }
  }

  /** The locker of at most one shell is between acquisition and release of a lock file. */
  lemma OneHolder(s: State, p: nat, q: nat)
    requires Shapes(s) && KernelInv(s) && p < |s.procs| && q < |s.procs|
    requires Holding(s.procs[p].pc) && Holding(s.procs[q].pc) && Lk(s.procs[p]) == Lk(s.procs[q])
    ensures p == q
  {
    var uses := Uses(s);
    assert uses[p].holding && uses[p].file == Lk(s.procs[p]);
    assert uses[q].holding && uses[q].file == Lk(s.procs[q]);
  }

  /** Two compilations of one result are never under way at the same time. */
  lemma OneCompiler(s: State, p: nat, q: nat, r: string)
    requires Shapes(s) && KernelInv(s) && p < |s.procs| && q < |s.procs|
    requires s.procs[p].pc == Wait && OpOf(s.procs[p]) == Compile(r)
    requires s.procs[q].pc == Wait && OpOf(s.procs[q]) == Compile(r)
    ensures p == q
  {
    OneHolder(s, p, q);
  }

  /** The only events that touch a result. */
  predicate Touches(s: State, e: Event)
    requires Enabled(s, e)
  {
    e.ChildStep? && (s.procs[e.p].child == Linking || (s.procs[e.p].child == CompileObject && e.good))
  }

  /** A step that touches no result leaves a child that has found none, or none that minds. */
  lemma UntouchedStep(s: State, e: Event)
    requires Enabled(s, e) && !Touches(s, e) && Shape(s.procs[e.p])
    ensures var s', pr := Apply(s, e), s.procs[e.p];
            && s'.results == s.results && pr.child != Linking
            && var pr' := s'.procs[e.p];
               pr'.child != Linking &&
               (pr'.child == CompileObject ==>
                  pr.child == TestResult && pr' == pr.(child := CompileObject) && Active(pr) && OpOf(pr).Compile? &&
                  MaySee(ResultOf(s.results, OpOf(pr).result), false))
  {
    if e.ShellStep? {
      ShellStepKeepsShape(s, e.p, e.good);
      StepFrame(s, e);
      hide ApplyShell, Enabled;
    } else {
      hide Close, Exit, LockOf, MaySee, ResultOf;
    }
  }

  lemma TouchedResult(s: State, e: Event)
    requires Shapes(s) && KernelInv(s) && ResultInv(s) && Enabled(s, e) && Touches(s, e)
    ensures var r, s' := OpOf(s.procs[e.p]).result, Apply(s, e);
            && !ResultOf(s.results, r).Complete?
            && (forall t :: t != r ==> ResultOf(s'.results, t) == ResultOf(s.results, t))
            && (forall q :: 0 <= q < |s.procs| && q != e.p && s.procs[q].pc == Wait ==>
                 OpOf(s.procs[q]) != Compile(r))
            && (forall q :: 0 <= q < |s.procs| && q != e.p ==> s'.procs[q] == s.procs[q])
  {
    var r := OpOf(s.procs[e.p]).result;
    forall q | 0 <= q < |s.procs| && q != e.p && s.procs[q].pc == Wait
      ensures OpOf(s.procs[q]) != Compile(r)
    {
      if OpOf(s.procs[q]) == Compile(r) {
        OneCompiler(s, e.p, q, r);
      }
    }
  }

  /** A child that tests for a result never meets one that is being written. */
  lemma TestSeesWholeResult(s: State, p: nat)
    requires Shapes(s) && KernelInv(s) && ResultInv(s) && p < |s.procs| && s.procs[p].child == TestResult
    ensures !ResultOf(s.results, OpOf(s.procs[p]).result).Writing?
  {
    assert Shape(s.procs[p]);
    var r := OpOf(s.procs[p]).result;
    if ResultOf(s.results, r).Writing? {
      var q := s.results[r].writer;
      assert Shape(s.procs[q]);
      OneCompiler(s, p, q, r);
    }
  }

  lemma UntouchedStepKeepsResults(s: State, e: Event)
    requires Shapes(s) && KernelInv(s) && ResultInv(s) && Enabled(s, e) && !Touches(s, e)
    requires Shapes(Apply(s, e))
    ensures ResultInv(Apply(s, e))
  {
    var s', p := Apply(s, e), e.p;
    assert Shape(s.procs[p]);
    StepFrame(s, e);
    UntouchedStep(s, e);
    if s.procs[p].child == TestResult {
      TestSeesWholeResult(s, p);
    }
    hide Apply, Enabled, Touches, KernelInv;
  }

  lemma TouchingStepKeepsResults(s: State, e: Event)
    requires Shapes(s) && KernelInv(s) && ResultInv(s) && Enabled(s, e) && Touches(s, e)
    requires Shapes(Apply(s, e))
    ensures ResultInv(Apply(s, e))
  {
    var s', p := Apply(s, e), e.p;
    var r := OpOf(s.procs[p]).result;
    TouchedResult(s, e);
    assert s'.procs[p].child == Linking || s'.procs[p].child.Exited?;
    assert s'.procs[p].child == Linking ==> ResultOf(s'.results, r) == Writing(p);
    assert s'.procs[p].child.Exited? ==> !ResultOf(s'.results, r).Writing?;
    forall t | t in s'.results && s'.results[t].Writing?
      ensures s'.results[t].writer < |s'.procs|
      ensures var pr := s'.procs[s'.results[t].writer]; pr.child == Linking && OpOf(pr) == Compile(t)
    {
      if t != r {
        assert ResultOf(s'.results, t) == ResultOf(s.results, t);
        assert t in s.results;
      }
    }
    forall q | 0 <= q < |s'.procs| && (s'.procs[q].child == Linking || s'.procs[q].child == CompileObject)
      ensures ResultOf(s'.results, OpOf(s'.procs[q]).result) ==
              if s'.procs[q].child == Linking then Writing(q) else Absent
    {
      assert Shape(s'.procs[q]);
      if q != p {
        assert OpOf(s.procs[q]).result != r;
      }
    }
  }

  lemma StepKeepsResults(s: State, e: Event)
    requires Shapes(s) && KernelInv(s) && ResultInv(s) && Enabled(s, e)
    ensures Shapes(Apply(s, e)) && ResultInv(Apply(s, e))
  {
    StepKeepsShapes(s, e);
    if Touches(s, e) {
      TouchingStepKeepsResults(s, e);
    } else {
      UntouchedStepKeepsResults(s, e);
    }
  }

  /** A complete result is never rewritten. */
  lemma CompleteResultsStay(s: State, e: Event, r: string)
    requires Shapes(s) && KernelInv(s) && ResultInv(s) && Enabled(s, e) && ResultOf(s.results, r).Complete?
    ensures ResultOf(Apply(s, e).results, r) == ResultOf(s.results, r)
  {
    if Touches(s, e) {
      TouchedResult(s, e);
    } else {
      assert Shape(s.procs[e.p]);
      UntouchedStep(s, e);
    }
  }

  ghost predicate CompleteStays(s: State, s': State) {
    forall r :: ResultOf(s.results, r).Complete? ==> ResultOf(s'.results, r) == ResultOf(s.results, r)
  }

  /** A shell goes to its next operation only from a command, or from a compilation that succeeded. */
  predicate Moves(pr: Proc, pr': Proc) {
    && pr'.script == pr.script && (Ended(pr.pc) ==> Ended(pr'.pc))
    && (!Ended(pr'.pc) && pr'.ip != pr.ip ==>
         pr'.ip == pr.ip + 1 && Active(pr) && (OpOf(pr).Compile? ==> Succeeding(pr)))
    && (Active(pr') && Succeeding(pr') ==> Active(pr) && pr'.ip == pr.ip && Succeeding(pr))
  }

  lemma PreparingMoves(s: State, p: nat, good: bool)
    requires Enabled(s, ShellStep(p, good)) && Shape(s.procs[p]) && Preparing(s.procs[p].pc)
    ensures var s' := ApplyPreparing(s, p, good); s'.results == s.results && Moves(s.procs[p], s'.procs[p])
  {
    hide MaySee;
  }

  lemma LockingMoves(s: State, p: nat, good: bool)
    requires Enabled(s, ShellStep(p, good)) && Shape(s.procs[p]) && !Preparing(s.procs[p].pc)
    ensures var s' := ApplyLocking(s, p, good); s'.results == s.results && Moves(s.procs[p], s'.procs[p])
  {
    hide Open, Lock, Unlock, Close, Fork, Exit, CanLock, LockOf;
  }

  lemma ShellStepMoves(s: State, p: nat, good: bool)
    requires Enabled(s, ShellStep(p, good)) && Shape(s.procs[p])
    ensures var s' := ApplyShell(s, p, good); s'.results == s.results && Moves(s.procs[p], s'.procs[p])
  {
    assert p < |s.procs|;
    hide Shape, Enabled, ApplyPreparing, ApplyLocking, Moves;
    if Preparing(s.procs[p].pc) {
      PreparingMoves(s, p, good);
    } else {
      LockingMoves(s, p, good);
    }
  }

  lemma ShellStepKeepsCompiled(s: State, p: nat, good: bool)
    requires Shapes(s) && Enabled(s, ShellStep(p, good)) && Compiled(s, p)
    requires Shapes(ApplyShell(s, p, good))
    ensures Compiled(ApplyShell(s, p, good), p)
  {
    assert Shape(s.procs[p]);
    ShellStepMoves(s, p, good);
    hide ApplyShell, Enabled, Succeeding, Shape;
  }

  lemma ChildStepKeepsCompiled(s: State, p: nat, good: bool)
    requires Shapes(s) && KernelInv(s) && ResultInv(s) && Enabled(s, ChildStep(p, good)) && Compiled(s, p)
    requires var s' := ApplyChild(s, p, good); Shapes(s') && CompleteStays(s, s')
    ensures Compiled(ApplyChild(s, p, good), p)
  {
    var pr, s' := s.procs[p], ApplyChild(s, p, good);
    assert Shape(pr);
    if pr.child == TestResult {
      TestSeesWholeResult(s, p);
    }
    assert s'.procs[p] == pr.(child := s'.procs[p].child);
    assert forall i :: 0 <= i < pr.ip && pr.script[i].Compile? ==>
             ResultOf(s'.results, pr.script[i].result).Complete?;
  }

  lemma StepKeepsCompiledOf(s: State, e: Event, p: nat)
    requires Shapes(s) && KernelInv(s) && ResultInv(s) && Enabled(s, e) && Shapes(Apply(s, e))
    requires p < |s.procs| && Compiled(s, p)
    ensures Compiled(Apply(s, e), p)
  {
    forall r | ResultOf(s.results, r).Complete? ensures ResultOf(Apply(s, e).results, r) == ResultOf(s.results, r) {
      CompleteResultsStay(s, e, r);
    }
    match e
    case ShellStep(q, good) => if q == p { ShellStepKeepsCompiled(s, p, good); }
    case ChildStep(q, good) => if q == p { ChildStepKeepsCompiled(s, p, good); }
  }

  lemma StepKeepsCompiled(s: State, e: Event)
    requires Shapes(s) && KernelInv(s) && ResultInv(s) && CompiledInv(s) && Enabled(s, e)
    ensures Shapes(Apply(s, e)) && CompiledInv(Apply(s, e))
  {
    StepKeepsShapes(s, e);
    forall p | 0 <= p < |s.procs| ensures Compiled(Apply(s, e), p) {
      assert Compiled(s, p);
      StepKeepsCompiledOf(s, e, p);
    }
  }

  /** What a shell's step does to sd-locker, seen from the shell. */
  ghost predicate LockerStep(s: State, s': State, p: nat) {
    && p < |s.procs| == |s'.procs|
    && s'.procs[p].pid == s.procs[p].pid
    && !s'.locker.Writing? && (s.locker.Complete? ==> s'.locker.Complete?)
    && LockerOf(p, s'.procs[p], s'.temps, s'.locker)
    && (s'.locker != s.locker ==> s.procs[p].pc == Publish && s'.locker == Complete(BuiltBy(p)))
    && (forall pid: nat :: pid != s.procs[p].pid ==> TempOf(s'.temps, pid) == TempOf(s.temps, pid))
  }

  lemma PreparingKeepsLocker(s: State, p: nat, good: bool)
    requires Enabled(s, ShellStep(p, good)) && !s.locker.Writing? && LockerOf(p, s.procs[p], s.temps, s.locker)
    requires Preparing(s.procs[p].pc)
    ensures LockerStep(s, ApplyPreparing(s, p, good), p)
  {
  }

  lemma LockingKeepsLocker(s: State, p: nat, good: bool)
    requires p < |s.procs| && !Preparing(s.procs[p].pc) && Enabled(s, ShellStep(p, good))
    requires !s.locker.Writing? && LockerOf(p, s.procs[p], s.temps, s.locker)
    ensures LockerStep(s, ApplyLocking(s, p, good), p)
  {
    hide Open, Lock, Unlock, Close, Fork, Exit, CanLock, LockOf, TempOf;
  }

  lemma ShellStepKeepsLocker(s: State, p: nat, good: bool)
    requires Enabled(s, ShellStep(p, good)) && !s.locker.Writing? && LockerOf(p, s.procs[p], s.temps, s.locker)
    ensures LockerStep(s, ApplyShell(s, p, good), p)
  {
    assert p < |s.procs|;
    hide LockerOf, Enabled, LockerStep;
    if Preparing(s.procs[p].pc) {
      PreparingKeepsLocker(s, p, good);
    } else {
      LockingKeepsLocker(s, p, good);
    }
  }

  lemma ChildStepKeepsLocker(s: State, p: nat, good: bool)
    requires Enabled(s, ChildStep(p, good))
    ensures var pr, s' := s.procs[p], ApplyChild(s, p, good);
            && s'.locker == s.locker && s'.temps == s.temps
            && s'.procs == s.procs[p := s'.procs[p]] && s'.procs[p].pc == pr.pc && s'.procs[p].pid == pr.pid
  {
  }

  lemma StepKeepsLocker(s: State, e: Event)
    requires LockerInv(s) && Enabled(s, e)
    ensures LockerInv(Apply(s, e))
  {
    var s' := Apply(s, e);
    StepFrame(s, e);
    assert LockerOf(e.p, s.procs[e.p], s.temps, s.locker);
    match e {
      case ShellStep(p, good) => ShellStepKeepsLocker(s, p, good);
      case ChildStep(p, good) => ChildStepKeepsLocker(s, p, good);
    }
    hide ApplyShell, ApplyChild, Enabled, TempOf;
    forall q | 0 <= q < |s'.procs| && q != e.p ensures LockerOf(q, s'.procs[q], s'.temps, s'.locker) {
      assert LockerOf(q, s.procs[q], s.temps, s.locker);
      assert s.procs[q].pid != s.procs[e.p].pid;
    }
  }

  lemma StepKeepsInv(s: State, e: Event)
    requires Inv(s) && Enabled(s, e)
    ensures Inv(Apply(s, e))
  {
    StepKeepsShapes(s, e);
    StepKeepsKernel(s, e);
    StepKeepsResults(s, e);
    StepKeepsCompiled(s, e);
    StepKeepsLocker(s, e);
  }
}
