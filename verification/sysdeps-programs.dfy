/** The programs themselves, step by step in the form of their sources: sd-locker.c
    with sd-locker_posix.c, sd-compile, and the functions of sysdep-system.  Each
    of them is shown to do what the transition system says, whatever the others do
    between any two of its steps, and to end. */
module Programs {
  import opened Kernel
  import opened Protocol
  import opened Safety
  import opened Runs
  import opened Outcomes

  /** The state that all processes share, and how it has come about. */
  class World {
    var s: State
    ghost var run: seq<State>
    ghost var events: seq<Event>

    constructor (s: State)
      requires Init(s)
      ensures Valid() && this.s == s && run == [s] && events == []
    {
      this.s, run, events := s, [s], [];
    }

    ghost predicate Valid()
      reads this
    {
      IsRun(run, events) && Init(run[0]) && run[|run| - 1] == s
    }

    /** Process `p` is in this state. */
    predicate Has(p: nat, pr: Proc)
      reads this
    {
      p < |s.procs| && s.procs[p] == pr
    }

    /** A program does something: `next` is what it makes of the shared state. */
    method Happens(e: Event, next: State)
      requires Valid() && Enabled(s, e) && next == Apply(s, e)
      modifies this
      ensures Valid() && s == next && run == old(run) + [next] && events == old(events) + [e]
    {
      RunGrows(run, events, e);
      s, run, events := next, run + [next], events + [e];
    }

    /** Any number of steps of the other processes, in any order. */
    method Others(p: nat)
      requires Valid() && p < |s.procs|
      modifies this
      ensures Valid() && Has(p, old(s.procs[p])) && |s.procs| == |old(s.procs)|
      ensures old(run) <= run && old(events) <= events
      ensures Inv(s) && Shapes(s) && Inv(old(s)) && Shapes(old(s)) && Measure(s.procs) <= Measure(old(s.procs))
    {
      hide Inv, Enabled, IsRun, Init;
      var n: int := *;
      ReachedHasInv(this);
      while n > 0
        invariant Valid() && Has(p, old(s.procs[p])) && |s.procs| == |old(s.procs)| && Inv(s)
        invariant old(run) <= run && old(events) <= events
        invariant Shapes(s) && Shapes(old(s)) && Measure(s.procs) <= Measure(old(s.procs))
      {
        var e: Event := *;
        if e.p != p && Enabled(s, e) {
          StepOfOther(s, e, p);
          Happens(e, Apply(s, e));
        }
        n := n - 1;
      }
    }
  }

  lemma RunGrows(run: seq<State>, events: seq<Event>, e: Event)
    requires IsRun(run, events) && Enabled(run[|run| - 1], e)
    ensures IsRun(run + [Apply(run[|run| - 1], e)], events + [e])
  {
    hide Enabled, Apply;
  }

  lemma ReachedHasInv(w: World)
    requires w.Valid()
    ensures Inv(w.s) && Shapes(w.s)
  {
    RunKeepsInv(w.run, w.events, |w.run| - 1);
  }

  lemma StepOfOther(s: State, e: Event, p: nat)
    requires Inv(s) && Enabled(s, e) && e.p != p
    ensures Inv(Apply(s, e)) && Shapes(s) && Shapes(Apply(s, e))
    ensures |Apply(s, e).procs| == |s.procs| && (p < |s.procs| ==> Apply(s, e).procs[p] == s.procs[p])
    ensures Measure(Apply(s, e).procs) < Measure(s.procs)
  {
    StepKeepsInv(s, e);
    StepDecreases(s, e);
  }

  /** The process has no lock and no descriptor of a lock file. */
  ghost predicate HoldsNothing(k: Kernel, o: OsProcess) {
    (forall f :: f in k.locks ==> k.locks[f] != o) && forall d :: d in k.descriptors ==> d.0 != o
  }

  /** The last event of the run so far is this one, and later than the first `from`. */
  ghost predicate LastIs(w: World, from: nat, e: Event)
    reads w
  {
    |w.events| > from && w.events[|w.events| - 1] == e
  }

  lemma ExitHoldsNothing(k: Kernel, o: OsProcess)
    ensures HoldsNothing(Exit(k, o), o)
  {
  }

  // ---------------------------------------------------------------- sd-compile and other commands

  /** The test `[ -x file ]`: open for a file that is being written. */
  method IsExecutable(f: File) returns (x: bool)
    ensures MaySee(f, x)
  {
    x := *;
    if !MaySee(f, x) {
      x := !x;
    }
  }

  /** sd-compile: exit at once if the result is executable, else compile and link. */
  method SdCompile(w: World, p: nat, r: string) returns (ok: bool)
    requires w.Valid() && p < |w.s.procs| && w.s.procs[p].child == TestResult
    requires Active(w.s.procs[p]) && w.s.procs[p].pc == Wait && OpOf(w.s.procs[p]) == Compile(r)
    modifies w
    ensures w.Valid() && old(w.run) <= w.run && old(w.events) <= w.events
    ensures w.Has(p, old(w.s.procs[p]).(child := Exited(ok))) &&
            |w.s.procs| == |old(w.s.procs)|
    ensures ok ==> ResultOf(w.s.results, r).Complete?
    ensures LastIs(w, |old(w.events)|, ChildStep(p, ok))
  {
    hide IsRun, Init, Inv, Measure;
    var pr := w.s.procs[p];
    w.Others(p);
    var x := IsExecutable(ResultOf(w.s.results, r));
    if x {
      SeenIsComplete(w.s, p, r);
      w.Happens(ChildStep(p, true), ChildExits(w.s, p, true));
      return true;
    }
    w.Happens(ChildStep(p, false), w.s.(procs := w.s.procs[p := pr.(child := CompileObject)]));
    ok := CompileAndLink(w, p, r);
  }

  /** The two commands of sd-compile: a result that is linked with success is the shell's own,
      and without success there is none. */
  method CompileAndLink(w: World, p: nat, r: string) returns (ok: bool)
    requires w.Valid() && p < |w.s.procs| && w.s.procs[p].child == CompileObject
    requires Active(w.s.procs[p]) && w.s.procs[p].pc == Wait && OpOf(w.s.procs[p]) == Compile(r)
    modifies w
    ensures w.Valid() && old(w.run) <= w.run && old(w.events) <= w.events
    ensures w.Has(p, old(w.s.procs[p]).(child := Exited(ok))) &&
            |w.s.procs| == |old(w.s.procs)|
    ensures ResultOf(w.s.results, r) == if ok then Complete(Linked(p)) else Absent
    ensures LastIs(w, |old(w.events)|, ChildStep(p, ok))
  {
    hide IsRun, Init, Inv, Measure;
    var pr := w.s.procs[p];
    w.Others(p);
    NothingYet(w.s, p, r);
    ok := *;
    if !ok {
      w.Happens(ChildStep(p, false), ChildExits(w.s, p, false));
      return;
    }
    w.Happens(ChildStep(p, true),
              w.s.(procs := w.s.procs[p := pr.(child := Linking)], results := w.s.results[r := Writing(p)]));
    w.Others(p);
    ok := *;
    var result := if ok then Complete(Linked(p)) else Absent;
    w.Happens(ChildStep(p, ok), ChildExits(w.s.(results := w.s.results[r := result]), p, ok));
  }

  /** Before the link there is no result. */
  lemma NothingYet(s: State, p: nat, r: string)
    requires Inv(s) && p < |s.procs| && s.procs[p].child == CompileObject
    requires Active(s.procs[p]) && OpOf(s.procs[p]) == Compile(r)
    ensures ResultOf(s.results, r) == Absent
  {
  }

  /** What the test of sd-compile takes for executable is complete: the lock sees to it. */
  lemma SeenIsComplete(s: State, p: nat, r: string)
    requires Inv(s) && p < |s.procs| && s.procs[p].child == TestResult && OpOf(s.procs[p]) == Compile(r)
    requires MaySee(ResultOf(s.results, r), true)
    ensures ResultOf(s.results, r).Complete?
  {
    TestSeesWholeResult(s, p);
  }

  /** Any other command.  If a well-formed script executes a support program, then that is whole. */
  method Run(w: World, p: nat) returns (ok: bool)
    requires w.Valid() && p < |w.s.procs| && w.s.procs[p].child == Running
    requires Active(w.s.procs[p]) && w.s.procs[p].pc == Wait
    modifies w
    ensures w.Valid() && old(w.run) <= w.run && old(w.events) <= w.events
    ensures w.Has(p, old(w.s.procs[p]).(child := Exited(ok))) &&
            |w.s.procs| == |old(w.s.procs)|
    ensures OpOf(old(w.s.procs[p])).Exec? && OpOf(old(w.s.procs[p])).uses.Some? &&
            WellFormed(old(w.s.procs[p]).script) ==>
              ResultOf(w.s.results, OpOf(old(w.s.procs[p])).uses.value).Complete?
    ensures LastIs(w, |old(w.events)|, ChildStep(p, ok))
  {
    hide IsRun, Init, Inv, Measure;
    w.Others(p);
    ok := *;
    if OpOf(w.s.procs[p]).Exec? && OpOf(w.s.procs[p]).uses.Some? && WellFormed(w.s.procs[p].script) {
      UsedIsComplete(w, p, OpOf(w.s.procs[p]).uses.value);
    }
    w.Happens(ChildStep(p, ok), ChildExits(w.s, p, ok));
  }

  lemma UsedIsComplete(w: World, p: nat, r: string)
    requires w.Valid() && p < |w.s.procs| && Executes(w.s.procs[p], r) && WellFormed(w.s.procs[p].script)
    ensures ResultOf(w.s.results, r).Complete?
  {
    hide IsRun, Init;
    RunIsNotEmpty(w.run, w.events);
    NoExecutionDuringWrite(w.run, w.events, |w.run| - 1, p, r);
  }

  lemma RunIsNotEmpty(run: seq<State>, events: seq<Event>)
    requires IsRun(run, events)
    ensures |run| > 0
  {
  }

  // ---------------------------------------------------------------- sd-locker

  /** sd_locker_state and posix_state of the sd-locker that shell `p` has started. */
  class SdLocker {
    const p: nat
    const lockFile: string
    var lockFd: int
    var locked: bool
    var succeeded: bool     // exit_code == EXIT_SUCCESS

    /** main(), up to the calls. */
    constructor (p: nat, lockFile: string)
      ensures this.p == p && this.lockFile == lockFile && lockFd == 0 && !locked && succeeded
    {
      this.p, this.lockFile, lockFd, locked, succeeded := p, lockFile, 0, false, true;
    }

    ghost predicate Runs(w: World)
      reads w
    {
      w.Valid() && p < |w.s.procs| && Active(w.s.procs[p]) && Lk(w.s.procs[p]) == lockFile
    }

    /** The last event is a call of this locker, made by the process `pr`, with this outcome. */
    ghost predicate CallIsLast(w: World, from: nat, pr: Proc, good: bool)
      reads w
    {
      && LastIs(w, from, ShellStep(p, good)) && |w.run| == |w.events| + 1
      && p < |w.run[|w.events| - 1].procs| && w.run[|w.events| - 1].procs[p] == pr
    }

    /** sd_locker_fatal: the process ends, and with it all it holds. */
    method Fatal(w: World)
      requires Runs(w) && (At(w.s.procs[p], OpenLock) || At(w.s.procs[p], ForkChild))
      modifies w
      ensures w.Valid() && old(w.run) <= w.run && old(w.events) <= w.events && |w.s.procs| == |old(w.s.procs)|
      ensures w.Has(p, old(w.s.procs[p]).(pc := Reap, code := false)) && HoldsNothing(w.s.kernel, Locker(p))
      ensures CallIsLast(w, |old(w.events)|, old(w.s.procs[p]), false)
    {
      w.Happens(ShellStep(p, false),
                w.s.(procs := w.s.procs[p := w.s.procs[p].(pc := Reap, code := false)],
                    kernel := Exit(w.s.kernel, Locker(p))));
    }

    /** sd_locker_posix_lock_file_open. */
    method LockFileOpen(w: World) returns (alive: bool)
      requires Runs(w) && At(w.s.procs[p], OpenLock)
      modifies this`lockFd, w
      ensures w.Valid() && old(w.run) <= w.run && old(w.events) <= w.events && |w.s.procs| == |old(w.s.procs)|
      ensures alive ==> lockFd != -1 && w.Has(p, old(w.s.procs[p]).(pc := Acquire))
      ensures alive ==> (Locker(p), lockFile) in w.s.kernel.descriptors
      ensures !alive ==> CallIsLast(w, |old(w.events)|, old(w.s.procs[p]), false)
      ensures !alive ==> w.Has(p, old(w.s.procs[p]).(pc := Reap, code := false)) && HoldsNothing(w.s.kernel, Locker(p))
    {
      hide IsRun, Init, Inv, Measure;
      var pr := w.s.procs[p];
      w.Others(p);
      alive := *;
      if !alive {
        lockFd := -1;
        Fatal(w);
        return;
      }
      lockFd := 3;
      w.Happens(ShellStep(p, true),
                w.s.(procs := w.s.procs[p := pr.(pc := Acquire)], kernel := Open(w.s.kernel, Locker(p), lockFile)));
    }

    /** sd_locker_lock_acquire: fcntl() sleeps until nobody else has the lock.  Someone
        can always go on until then, so the wait ends. */
    method LockAcquire(w: World)
      requires Runs(w) && At(w.s.procs[p], Acquire) && !locked
      modifies this`locked, w
      ensures locked && lockFile in w.s.kernel.locks && w.s.kernel.locks[lockFile] == Locker(p)
      ensures w.Valid() && old(w.run) <= w.run && old(w.events) <= w.events && |w.s.procs| == |old(w.s.procs)|
      ensures w.Has(p, old(w.s.procs[p]).(pc := ForkChild))
    {
      hide IsRun, Init, Inv, Measure;
      var pr := w.s.procs[p];
      w.Others(p);
      while !CanLock(w.s.kernel, Locker(p), lockFile)
        invariant Runs(w) && w.Has(p, pr) && |w.s.procs| == |old(w.s.procs)| && Inv(w.s) && Shapes(w.s)
        invariant old(w.run) <= w.run && old(w.events) <= w.events
        decreases Measure(w.s.procs)
      {
        HolderGoesOn(w, p);
        var e := NextStep(w.s, w.s.kernel.locks[lockFile].shell);
        StepOfOther(w.s, e, p);
        w.Happens(e, Apply(w.s, e));
        w.Others(p);
      }
      w.Happens(ShellStep(p, true),
                w.s.(procs := w.s.procs[p := pr.(pc := ForkChild)], kernel := Lock(w.s.kernel, Locker(p), lockFile)));
      locked := true;
    }

    /** sd_locker_posix_execute: fork, close and exec in the child, wait in the parent.
        The exit code that it keeps is the outcome of the event `last`, which has ended the
        child; if it does not come back then `last` is the call that has failed. */
    method Execute(w: World) returns (alive: bool, ghost last: nat)
      requires Runs(w) && At(w.s.procs[p], ForkChild) && locked
      modifies this`succeeded, w
      ensures w.Valid() && old(w.run) <= w.run && old(w.events) <= w.events && |w.s.procs| == |old(w.s.procs)|
      ensures alive ==> w.Has(p, old(w.s.procs[p]).(pc := Release, code := succeeded))
      ensures alive ==> ChildLeft(w.run, w.events, |old(w.events)|, last, p, old(w.s.procs[p]), succeeded)
      ensures !alive ==> w.Has(p, old(w.s.procs[p]).(pc := Reap, code := false)) && HoldsNothing(w.s.kernel, Locker(p))
      ensures !alive ==> Fails(w.run, w.events, |old(w.events)|, last, p, old(w.s.procs[p]))
    {
      hide IsRun, Init, Inv, Measure, ChildLeft, Fails, CallIsLast, LastIs, HoldsNothing;
      var pr := w.s.procs[p];
      ghost var from := |w.events|;
      w.Others(p);
      alive := *;
      if !alive {
        ghost var before := |w.events|;
        Fatal(w);
        last := CallFailed(w, before, from, pr, pr);
        return;
      }
      w.Happens(ShellStep(p, true),
                w.s.(procs := w.s.procs[p := pr.(pc := Wait, child := ChildClose)],
                     kernel := Fork(w.s.kernel, Locker(p), Command(p))));
      ghost var before := |w.events|;
      var ok := InChild(w);
      last := ChildHasLeft(w, before, from, pr, ok);
      ghost var run, events := w.run, w.events;
      w.Others(p);
      succeeded := ok;
      w.Happens(ShellStep(p, ok), w.s.(procs := w.s.procs[p := pr.(pc := Release, code := ok)]));
      ItHasLeft(w, run, events, from, from, last, p, pr, pr, ok);
    }

    /** Event `left` of the run ends the child of `pr`, which leaves the outcome as its exit code. */
    ghost predicate ChildLeft(run: seq<State>, events: seq<Event>, from: nat, left: nat, p: nat, pr: Proc, ok: bool) {
      && from <= left < |events| && |run| == |events| + 1 && events[left] == ChildStep(p, ok)
      && p < |run[left + 1].procs|
      && run[left + 1].procs[p].(code := pr.code) == pr.(pc := Wait, child := Exited(ok))
    }

    /** Event `last` is a call of sd-locker that has failed, or the failure of its child. */
    ghost predicate Fails(run: seq<State>, events: seq<Event>, from: nat, last: nat, p: nat, pr: Proc) {
      || ChildLeft(run, events, from, last, p, pr, false)
      || (&& from <= last < |events| && |run| == |events| + 1 && events[last] == ShellStep(p, false)
          && p < |run[last].procs| && run[last].procs[p].ip == pr.ip
          && run[last].procs[p].pc in {OpenLock, ForkChild, CloseLock})
    }

    lemma ItHasLeft(w: World, run: seq<State>, events: seq<Event>, from: nat, from': nat, left: nat, p: nat, pr: Proc,
            pr': Proc, ok: bool)
      requires w.Valid() && ChildLeft(run, events, from, left, p, pr, ok)
      requires run <= w.run && events <= w.events && from' <= from
      requires pr.(pc := Wait, child := Exited(ok), code := false) ==
              pr'.(pc := Wait, child := Exited(ok), code := false)
      ensures ChildLeft(w.run, w.events, from', left, p, pr', ok) && left < |events|
    {
    }

    lemma ChildHasLeft(w: World, from: nat, from': nat, pr: Proc, ok: bool) returns (left: nat)
      requires w.Valid() && LastIs(w, from, ChildStep(p, ok)) && from' <= from
      requires w.Has(p, pr.(pc := Wait, child := Exited(ok)))
      ensures ChildLeft(w.run, w.events, from', left, p, pr, ok)
    {
      left := |w.events| - 1;
    }

    /** What the child does until it has left its exit code. */
    method InChild(w: World) returns (ok: bool)
      requires Runs(w) && w.s.procs[p].pc == Wait && w.s.procs[p].child == ChildClose
      modifies w
      ensures w.Valid() && old(w.run) <= w.run && old(w.events) <= w.events
      ensures w.Has(p, old(w.s.procs[p]).(child := Exited(ok))) &&
              |w.s.procs| == |old(w.s.procs)|
      ensures LastIs(w, |old(w.events)|, ChildStep(p, ok))
    {
      hide IsRun, Init, Inv, Measure;
      var pr := w.s.procs[p];
      w.Others(p);
      ok := *;
      if !ok {
        w.Happens(ChildStep(p, false), ChildExits(w.s, p, false));
        return;
      }
      w.Happens(ChildStep(p, true),
                w.s.(procs := w.s.procs[p := pr.(child := ChildExec)],
                    kernel := Close(w.s.kernel, Command(p), lockFile)));
      w.Others(p);
      ok := *;
      if !ok {
        w.Happens(ChildStep(p, false), ChildExits(w.s, p, false));
        return;
      }
      var program := if OpOf(pr).Compile? then TestResult else Running;
      w.Happens(ChildStep(p, true), w.s.(procs := w.s.procs[p := pr.(child := program)]));
      if OpOf(pr).Compile? {
        ok := SdCompile(w, p, OpOf(pr).result);
      } else {
        ok := Run(w, p);
      }
    }

    /** sd_locker_lock_release. */
    method LockRelease(w: World)
      requires Runs(w) && At(w.s.procs[p], Release) && locked
      modifies this`locked, w
      ensures !locked && (lockFile in w.s.kernel.locks ==> w.s.kernel.locks[lockFile] != Locker(p))
      ensures w.Valid() && old(w.run) <= w.run && old(w.events) <= w.events && |w.s.procs| == |old(w.s.procs)|
      ensures w.Has(p, old(w.s.procs[p]).(pc := CloseLock))
    {
      hide IsRun, Init, Inv, Measure;
      var pr := w.s.procs[p];
      w.Others(p);
      w.Happens(ShellStep(p, true),
                w.s.(procs := w.s.procs[p := pr.(pc := CloseLock)], kernel := Unlock(w.s.kernel, Locker(p), lockFile)));
      locked := false;
    }

    lemma Counted(w: World)
      requires w.Valid()
      ensures |w.run| == |w.events| + 1 && w.run[|w.events|] == w.s
    {
    }

    /** sd_locker_posix_lock_file_close, and the end of the process. */
    method LockFileClose(w: World) returns (alive: bool)
      requires Runs(w) && At(w.s.procs[p], CloseLock) && lockFd != -1
      modifies w
      ensures w.Valid() && old(w.run) <= w.run && old(w.events) <= w.events && |w.s.procs| == |old(w.s.procs)|
      ensures w.Has(p, old(w.s.procs[p]).(pc := Reap, code := old(w.s.procs[p]).code && alive))
      ensures HoldsNothing(w.s.kernel, Locker(p))
      ensures CallIsLast(w, |old(w.events)|, old(w.s.procs[p]), alive)
    {
      hide IsRun, Init, Inv, Measure, Shapes, HoldsNothing, Exit, Close;
      var pr := w.s.procs[p];
      w.Others(p);
      Counted(w);
      ExitHoldsNothing(Close(w.s.kernel, Locker(p), lockFile), Locker(p));
      alive := *;
      w.Happens(ShellStep(p, alive),
                w.s.(procs := w.s.procs[p := pr.(pc := Reap, code := pr.code && alive)],
                     kernel := Exit(Close(w.s.kernel, Locker(p), lockFile), Locker(p))));
    }

    /** The three steps that main() takes with the lock file open. */
    method UnderLock(w: World) returns (alive: bool, ghost last: nat)
      requires Runs(w) && At(w.s.procs[p], Acquire) && !locked
      modifies this`locked, this`succeeded, w
      ensures w.Valid() && old(w.run) <= w.run && old(w.events) <= w.events && |w.s.procs| == |old(w.s.procs)|
      ensures alive ==> w.Has(p, old(w.s.procs[p]).(pc := CloseLock, code := succeeded))
      ensures alive ==> ChildLeft(w.run, w.events, |old(w.events)|, last, p, old(w.s.procs[p]), succeeded)
      ensures !alive ==> w.Has(p, old(w.s.procs[p]).(pc := Reap, code := false)) && HoldsNothing(w.s.kernel, Locker(p))
      ensures !alive ==> Fails(w.run, w.events, |old(w.events)|, last, p, old(w.s.procs[p]))
    {
      hide IsRun, Init, Inv, Measure, Apply, Enabled, HoldsNothing, ChildLeft, Fails;
      ghost var pr, from := w.s.procs[p], |w.events|;
      LockAcquire(w);
      ghost var pr', from' := w.s.procs[p], |w.events|;
      alive, last := Execute(w);
      ghost var run, events := w.run, w.events;
      if alive {
        LockRelease(w);
        ItHasLeft(w, run, events, from', from, last, p, pr', pr, succeeded);
      } else {
        ItHasFailed(w, run, events, from', from, last, p, pr', pr);
      }
    }

    lemma ItHasFailed(w: World, run: seq<State>, events: seq<Event>, from: nat, from': nat, last: nat, p: nat, pr: Proc,
            pr': Proc)
      requires w.Valid() && Fails(run, events, from, last, p, pr)
      requires run <= w.run && events <= w.events && from' <= from
      requires pr.(pc := Wait, code := false) == pr'.(pc := Wait, code := false)
      ensures Fails(w.run, w.events, from', last, p, pr')
    {
    }

    /** main(): it succeeds if its child has ended well, at the event `left`, and then the
        close of the lock file, at the event `last`; else `last` is a failure of its own or
        of its child.  A compilation that succeeds leaves a complete result.  Nothing
        remains held, and no call of main() can go on for ever. */
    method RunMain(w: World) returns (success: bool, ghost left: nat, ghost last: nat)
      requires Runs(w) && At(w.s.procs[p], OpenLock) && !locked
      modifies this, w
      ensures w.Valid() && old(w.run) <= w.run && old(w.events) <= w.events && |w.s.procs| == |old(w.s.procs)|
      ensures w.Has(p, old(w.s.procs[p]).(pc := Reap, code := success)) && HoldsNothing(w.s.kernel, Locker(p))
      ensures success ==>
                && ChildLeft(w.run, w.events, |old(w.events)|, left, p, old(w.s.procs[p]), true)
                && left < last && LockFileCloses(w.run, w.events, last, p, old(w.s.procs[p]).ip, true)
      ensures !success ==> Fails(w.run, w.events, |old(w.events)|, last, p, old(w.s.procs[p]))
      ensures success && OpOf(old(w.s.procs[p])).Compile? ==>
                ResultOf(w.s.results, OpOf(old(w.s.procs[p])).result).Complete?
    {
      hide IsRun, Init, Inv, Measure, Apply, Enabled, HoldsNothing, ChildLeft, Fails, CallIsLast,
        LockFileCloses;
      ghost var pr, from := w.s.procs[p], |w.events|;
      success, left := false, 0;
      var alive := LockFileOpen(w);
      if !alive {
        last := CallFailed(w, from, from, pr, pr);
        return;
      }
      ghost var pr', from' := w.s.procs[p], |w.events|;
      alive, left := UnderLock(w);
      last := left;
      ghost var run, events := w.run, w.events;
      if !alive {
        ItHasFailed(w, run, events, from', from, left, p, pr', pr);
        return;
      }
      ghost var pr'' := w.s.procs[p];
      alive := LockFileClose(w);
      ItHasLeft(w, run, events, from', from, left, p, pr', pr, succeeded);
      success := succeeded && alive;
      if success {
        last := CallSucceeded(w, |events|, pr'');
        if OpOf(w.s.procs[p]).Compile? {
          SuccessIsComplete(w, p);
        }
      } else if succeeded {
        last := CallFailed(w, |events|, from, pr'', pr);
      } else {
        ChildFailed(w.run, w.events, from, left, p, pr);
      }
    }

    lemma CallFailed(w: World, from: nat, from': nat, at: Proc, pr: Proc) returns (last: nat)
      requires w.Valid() && CallIsLast(w, from, at, false) && from' <= from
      requires at.pc in {OpenLock, ForkChild, CloseLock} && at.ip == pr.ip
      ensures Fails(w.run, w.events, from', last, p, pr)
    {
      last := |w.events| - 1;
    }

    lemma CallSucceeded(w: World, from: nat, at: Proc) returns (last: nat)
      requires w.Valid() && CallIsLast(w, from, at, true) && at.pc == CloseLock
      ensures last >= from && LockFileCloses(w.run, w.events, last, p, at.ip, true)
    {
      last := |w.events| - 1;
    }

    lemma ChildFailed(run: seq<State>, events: seq<Event>, from: nat, left: nat, p: nat, pr: Proc)
      requires ChildLeft(run, events, from, left, p, pr, false)
      ensures Fails(run, events, from, left, p, pr)
    {
    }
  }

  lemma SuccessIsComplete(w: World, p: nat)
    requires w.Valid() && p < |w.s.procs| && At(w.s.procs[p], Reap) && w.s.procs[p].code && OpOf(w.s.procs[p]).Compile?
    ensures ResultOf(w.s.results, OpOf(w.s.procs[p]).result).Complete?
  {
    ReachedHasInv(w);
    assert Compiled(w.s, p);
  }

  /** Whoever has the lock is not waiting for one. */
  lemma HolderGoesOn(w: World, p: nat)
    requires w.Valid() && p < |w.s.procs| && At(w.s.procs[p], Acquire)
    requires !CanLock(w.s.kernel, Locker(p), Lk(w.s.procs[p]))
    ensures Shapes(w.s)
    ensures var q := w.s.kernel.locks[Lk(w.s.procs[p])].shell;
            q < |w.s.procs| && q != p && Enabled(w.s, NextStep(w.s, q)) && NextStep(w.s, q).p == q
  {
    ReachedHasInv(w);
    var q := w.s.kernel.locks[Lk(w.s.procs[p])].shell;
    assert Uses(w.s)[q].holding;
    hide IsRun, Init;
    NextStepEnabled(w.s, q);
  }

  // ---------------------------------------------------------------- sysdep-system

  /** An operation has failed: the shell, or the subshell that makes it, has ended. */
  predicate HasFailed(before: Proc, pr: Proc) {
    Active(before) && pr.(code := before.code) == OpFailed(before)
  }

  /** SDM_prepare_locker. */
  method PrepareLocker(w: World, p: nat) returns (alive: bool)
    requires w.Valid() && p < |w.s.procs| && At(w.s.procs[p], TestLocker)
    modifies w
    ensures w.Valid() && old(w.run) <= w.run && old(w.events) <= w.events
    ensures |w.s.procs| == |old(w.s.procs)| && p < |w.s.procs|
    ensures alive ==> w.s.procs[p] == old(w.s.procs[p]).(pc := CheckLocker)
    ensures !alive ==> HasFailed(old(w.s.procs[p]), w.s.procs[p])
  {
    hide IsRun, Init, Inv, Measure, Apply, Enabled, HasFailed;
    ghost var pr := w.s.procs[p];
    alive := FindLocker(w, p);
    if alive {
      return;
    }
    BuildFails(pr);
    alive := CompileLocker(w, p);
    if alive {
      alive := LinkLocker(w, p);
      if alive {
        var _ := MoveLocker(w, p);
      }
    }
  }

  /** The test for sd-locker. */
  method FindLocker(w: World, p: nat) returns (found: bool)
    requires w.Valid() && p < |w.s.procs| && At(w.s.procs[p], TestLocker)
    modifies w
    ensures w.Valid() && old(w.run) <= w.run && old(w.events) <= w.events
    ensures |w.s.procs| == |old(w.s.procs)| && p < |w.s.procs|
    ensures w.s.procs[p] == old(w.s.procs[p]).(pc := if found then CheckLocker else BuildObject)
    ensures found ==> w.s.locker.Complete?
  {
    hide IsRun, Init, Measure, Inv;
    var pr := w.s.procs[p];
    w.Others(p);
    LockerIsNotWriting(w);
    found := IsExecutable(w.s.locker);
    var next := if found then CheckLocker else BuildObject;
    w.Happens(ShellStep(p, found), w.s.(procs := w.s.procs[p := pr.(pc := next)]));
  }

  lemma LockerIsNotWriting(w: World)
    requires w.Valid()
    ensures !w.s.locker.Writing?
  {
    ReachedHasInv(w);
  }

  lemma BuildFails(pr: Proc)
    requires At(pr, TestLocker)
    ensures forall end :: HasFailed(pr.(pc := BuildObject), end) || HasFailed(pr.(pc := BuildLink), end) ==>
            HasFailed(pr, end)
  {
  }

  /** The compilation of sd-locker under the shell's own process id. */
  method CompileLocker(w: World, p: nat) returns (alive: bool)
    requires w.Valid() && p < |w.s.procs| && At(w.s.procs[p], BuildObject)
    modifies w
    ensures w.Valid() && old(w.run) <= w.run && old(w.events) <= w.events
    ensures |w.s.procs| == |old(w.s.procs)| && p < |w.s.procs|
    ensures alive ==> w.s.procs[p] == old(w.s.procs[p]).(pc := BuildLink)
    ensures alive ==> TempOf(w.s.temps, w.s.procs[p].pid) == Writing(p)
    ensures !alive ==> HasFailed(old(w.s.procs[p]), w.s.procs[p])
  {
    hide IsRun, Init, Inv, Measure, OpFailed;
    var pr := w.s.procs[p];
    w.Others(p);
    alive := *;
    if alive {
      w.Happens(ShellStep(p, true),
                w.s.(procs := w.s.procs[p := pr.(pc := BuildLink)], temps := w.s.temps[pr.pid := Writing(p)]));
    } else {
      FailedIsFailed(pr);
      w.Happens(ShellStep(p, false), w.s.(procs := w.s.procs[p := OpFailed(pr)]));
    }
  }

  /** The link of sd-locker: a whole file of the shell's own, or none. */
  method LinkLocker(w: World, p: nat) returns (alive: bool)
    requires w.Valid() && p < |w.s.procs| && At(w.s.procs[p], BuildLink)
    modifies w
    ensures w.Valid() && old(w.run) <= w.run && old(w.events) <= w.events
    ensures |w.s.procs| == |old(w.s.procs)| && p < |w.s.procs|
    ensures alive ==> w.s.procs[p] == old(w.s.procs[p]).(pc := Publish)
    ensures TempOf(w.s.temps, old(w.s.procs[p]).pid) == if alive then Complete(BuiltBy(p)) else Absent
    ensures !alive ==> HasFailed(old(w.s.procs[p]), w.s.procs[p])
  {
    hide IsRun, Init, Inv, Measure, OpFailed;
    var pr := w.s.procs[p];
    w.Others(p);
    alive := *;
    if alive {
      w.Happens(ShellStep(p, true),
                w.s.(procs := w.s.procs[p := pr.(pc := Publish)], temps := w.s.temps[pr.pid := Complete(BuiltBy(p))]));
    } else {
      FailedIsFailed(pr);
      w.Happens(ShellStep(p, false), w.s.(procs := w.s.procs[p := OpFailed(pr)], temps := w.s.temps - {pr.pid}));
    }
  }

  lemma FailedIsFailed(pr: Proc)
    requires Active(pr)
    ensures HasFailed(pr, OpFailed(pr))
  {
  }

  /** The rename to sd-locker, whose failure is tolerated: what is moved is whole and the
      shell's own, and otherwise the step changes nothing of the state right before it but
      the place of this shell. */
  method MoveLocker(w: World, p: nat) returns (moved: bool)
    requires w.Valid() && p < |w.s.procs| && At(w.s.procs[p], Publish)
    modifies w
    ensures w.Valid() && old(w.run) <= w.run && old(w.events) <= w.events
    ensures |w.s.procs| == |old(w.s.procs)| && p < |w.s.procs|
    ensures w.s.procs[p] == old(w.s.procs[p]).(pc := CheckLocker)
    ensures moved ==> w.s.locker == Complete(BuiltBy(p))
    ensures TempOf(w.s.temps, w.s.procs[p].pid) == if moved then Absent else Complete(BuiltBy(p))
    ensures |w.run| > |old(w.run)| && |w.run| >= 2 && |w.run[|w.run| - 2].procs| > p
    ensures var before := w.run[|w.run| - 2];
            var procs := before.procs[p := before.procs[p].(pc := CheckLocker)];
            w.s == if moved then before.(procs := procs, temps := before.temps - {before.procs[p].pid},
                                         locker := Complete(BuiltBy(p)))
                   else before.(procs := procs)
  {
    hide IsRun, Init, Inv, Shapes, Measure, Enabled, Apply;
    w.Others(p);
    BuiltIsWhole(w, p);
    NotEmpty(w);
    moved := *;
    PublishStep(w.s, p, moved);
    w.Happens(ShellStep(p, moved), Apply(w.s, ShellStep(p, moved)));
  }

  /** What the rename makes of the state, if it succeeds and if it fails. */
  lemma PublishStep(s: State, p: nat, good: bool)
    requires p < |s.procs| && At(s.procs[p], Publish) && TempOf(s.temps, s.procs[p].pid) == Complete(BuiltBy(p))
    ensures Enabled(s, ShellStep(p, good))
    ensures var procs := s.procs[p := s.procs[p].(pc := CheckLocker)];
            Apply(s, ShellStep(p, good)) ==
            if good then s.(procs := procs, temps := s.temps - {s.procs[p].pid}, locker := Complete(BuiltBy(p)))
            else s.(procs := procs)
  {
  }

  lemma NotEmpty(w: World)
    requires w.Valid()
    ensures w.run != [] && w.run[|w.run| - 1] == w.s
  {
  }

  lemma BuiltIsWhole(w: World, p: nat)
    requires w.Valid() && p < |w.s.procs| && w.s.procs[p].pc == Publish
    ensures TempOf(w.s.temps, w.s.procs[p].pid) == Complete(BuiltBy(p))
  {
    ReachedHasInv(w);
    assert LockerOf(p, w.s.procs[p], w.s.temps, w.s.locker);
  }

  /** SDM_lock_and_exec and SDM_lock_and_compile: from the test for sd-locker to its exit code. */
  method LockAndRun(w: World, p: nat) returns (ran: bool, success: bool)
    requires w.Valid() && p < |w.s.procs| && At(w.s.procs[p], TestLocker)
    modifies w
    ensures w.Valid() && old(w.run) <= w.run && old(w.events) <= w.events
    ensures |w.s.procs| == |old(w.s.procs)| && p < |w.s.procs|
    ensures ran ==> w.s.procs[p] == old(w.s.procs[p]).(pc := Reap, code := success)
    ensures ran && success && OpOf(old(w.s.procs[p])).Compile? ==>
              ResultOf(w.s.results, OpOf(old(w.s.procs[p])).result).Complete?
    ensures !ran ==> HasFailed(old(w.s.procs[p]), w.s.procs[p])
  {
    hide IsRun, Init, Inv, Measure, Apply, Enabled, HasFailed, HoldsNothing;
    ghost var first := w.s.procs[p];
    ran := PrepareLocker(w, p);
    if !ran {
      return false, false;
    }
    FailedLater(first, w.s.procs[p]);
    ran := StartLocker(w, p);
    if !ran {
      return false, false;
    }
    var locker := new SdLocker(p, Lk(w.s.procs[p]));
    ghost var left, last: nat;
    success, left, last := locker.RunMain(w);
  }

  /** The test for sd-locker before it is executed: what is started is whole. */
  method StartLocker(w: World, p: nat) returns (started: bool)
    requires w.Valid() && p < |w.s.procs| && At(w.s.procs[p], CheckLocker)
    modifies w
    ensures w.Valid() && old(w.run) <= w.run && old(w.events) <= w.events
    ensures |w.s.procs| == |old(w.s.procs)| && p < |w.s.procs|
    ensures started ==> w.s.procs[p] == old(w.s.procs[p]).(pc := OpenLock, code := true) && w.s.locker.Complete?
    ensures !started ==> HasFailed(old(w.s.procs[p]), w.s.procs[p])
  {
    hide IsRun, Init, Inv, Measure, OpFailed;
    var pr := w.s.procs[p];
    w.Others(p);
    started := IsExecutable(w.s.locker);
    if !started {
      FailedIsFailed(pr);
      w.Happens(ShellStep(p, false), w.s.(procs := w.s.procs[p := OpFailed(pr)]));
      return;
    }
    w.Happens(ShellStep(p, true), w.s.(procs := w.s.procs[p := pr.(pc := Start)]));
    w.Others(p);
    StartedIsWhole(w, p);
    w.Happens(ShellStep(p, true), w.s.(procs := w.s.procs[p := pr.(pc := OpenLock, code := true)]));
  }

  /** A failure later in an operation is a failure of the operation. */
  lemma FailedLater(first: Proc, pr: Proc)
    requires Active(first) && pr == first.(pc := CheckLocker)
    ensures forall end :: HasFailed(pr, end) ==> HasFailed(first, end)
  {
  }

  /** The sd-locker that a shell is about to execute is there, and whole. */
  lemma StartedIsWhole(w: World, p: nat)
    requires w.Valid() && p < |w.s.procs| && At(w.s.procs[p], Start)
    ensures w.s.locker.Complete?
  {
    ReachedHasInv(w);
    assert LockerOf(p, w.s.procs[p], w.s.temps, w.s.locker);
  }

  /** One operation of the script: SDM_protected_C_compilation, or a command under a lock. */
  method DoOp(w: World, p: nat)
    requires w.Valid() && p < |w.s.procs| && At(w.s.procs[p], TestLocker)
    modifies w
    ensures w.Valid() && old(w.run) <= w.run && old(w.events) <= w.events
    ensures |w.s.procs| == |old(w.s.procs)| && p < |w.s.procs|
    ensures w.s.procs[p].script == old(w.s.procs[p]).script && w.s.procs[p].child == NoChild
    ensures w.s.procs[p].pc == Halted || (w.s.procs[p].pc == Idle && w.s.procs[p].ip == old(w.s.procs[p]).ip + 1)
    ensures w.s.procs[p].pc == Halted ==>
              w.s.procs[p].ip == old(w.s.procs[p]).ip && MustSucceed(OpOf(old(w.s.procs[p])))
  {
    hide IsRun, Init, Inv, Measure;
    var ran, success := LockAndRun(w, p);
    if ran {
      Collect(w, p, success);
    }
  }

  /** The shell sees the exit code of sd-locker. */
  method Collect(w: World, p: nat, success: bool)
    requires w.Valid() && p < |w.s.procs| && At(w.s.procs[p], Reap) && w.s.procs[p].code == success
    modifies w
    ensures w.Valid() && old(w.run) <= w.run && old(w.events) <= w.events
    ensures |w.s.procs| == |old(w.s.procs)| && p < |w.s.procs|
    ensures w.s.procs[p].script == old(w.s.procs[p]).script && w.s.procs[p].child == NoChild
    ensures w.s.procs[p].pc == Halted || (w.s.procs[p].pc == Idle && w.s.procs[p].ip == old(w.s.procs[p]).ip + 1)
    ensures w.s.procs[p].pc == Halted ==>
              w.s.procs[p].ip == old(w.s.procs[p]).ip && MustSucceed(OpOf(old(w.s.procs[p])))
  {
    hide IsRun, Init, Inv, Measure;
    var pr := w.s.procs[p];
    w.Others(p);
    w.Happens(ShellStep(p, success),
              w.s.(procs := w.s.procs[p := if success then pr.(pc := Idle, ip := pr.ip + 1) else OpFailed(pr)]));
  }

  /** Sourcing sysdep-system: it ends, and if it has come to the end of the script
      then every support program that the script compiles is complete. */
  method Source(w: World, p: nat) returns (finished: bool)
    requires w.Valid() && p < |w.s.procs| && w.s.procs[p].pc == Idle
    modifies w
    ensures w.Valid() && old(w.run) <= w.run && old(w.events) <= w.events
    ensures |w.s.procs| == |old(w.s.procs)| && p < |w.s.procs|
    ensures w.s.procs[p].script == old(w.s.procs[p]).script
    ensures w.s.procs[p].pc == if finished then Finished else Halted
    ensures finished ==> forall r :: Compile(r) in w.s.procs[p].script ==> ResultOf(w.s.results, r).Complete?
    ensures var pr, n := w.s.procs[p], |w.events|;
            if finished then
              forall k :: 0 <= k < |pr.script| && MustSucceed(pr.script[k]) ==>
                EndedWell(w.run, w.events, n, p, k) && ClosedWell(w.run, w.events, n, p, k)
            else
              pr.ip < |pr.script| && MustSucceed(pr.script[pr.ip]) && HasFailedAt(w.run, w.events, n, p, pr.ip)
  {
    hide IsRun, Init, Inv, Measure, EndedWell, ClosedWell, HasFailedAt;
    ghost var script := w.s.procs[p].script;
    ShapeOf(w, p);
    while w.s.procs[p].ip < |w.s.procs[p].script|
      invariant w.Valid() && old(w.run) <= w.run && old(w.events) <= w.events
      invariant |w.s.procs| == |old(w.s.procs)| && p < |w.s.procs|
      invariant w.s.procs[p].script == script && w.s.procs[p].pc == Idle && Shape(w.s.procs[p])
      decreases |script| - w.s.procs[p].ip
    {
      var pr := w.s.procs[p];
      w.Others(p);
      w.Happens(ShellStep(p, true), w.s.(procs := w.s.procs[p := pr.(pc := TestLocker)]));
      DoOp(w, p);
      if w.s.procs[p].pc == Halted {
        OutcomesAreKnown(w, p);
        return false;
      }
      ShapeOf(w, p);
    }
    var pr := w.s.procs[p];
    w.Others(p);
    AllCompiled(w, p);
    w.Happens(ShellStep(p, true), w.s.(procs := w.s.procs[p := pr.(pc := Finished)]));
    OutcomesAreKnown(w, p);
    return true;
  }

  /** What the run tells of the operations of a shell. */
  lemma OutcomesAreKnown(w: World, p: nat)
    requires w.Valid() && p < |w.s.procs|
    ensures var pr, n := w.s.procs[p], |w.events|;
            && (forall k :: 0 <= k < pr.ip && k < |pr.script| && MustSucceed(pr.script[k]) ==>
                 EndedWell(w.run, w.events, n, p, k) && ClosedWell(w.run, w.events, n, p, k))
            && (pr.pc == Halted ==>
                 && pr.ip < |pr.script| && MustSucceed(pr.script[pr.ip])
                 && HasFailedAt(w.run, w.events, n, p, pr.ip))
  {
    RunKeepsInv(w.run, w.events, |w.events|);
    PassedMeansSucceeded(w.run, w.events, |w.events|, p);
  }

  lemma ShapeOf(w: World, p: nat)
    requires w.Valid() && p < |w.s.procs|
    ensures Shape(w.s.procs[p])
  {
    ReachedHasInv(w);
  }

  lemma AllCompiled(w: World, p: nat)
    requires w.Valid() && p < |w.s.procs| && w.s.procs[p].pc == Idle && w.s.procs[p].ip == |w.s.procs[p].script|
    ensures forall r :: Compile(r) in w.s.procs[p].script ==> ResultOf(w.s.results, r).Complete?
  {
    ReachedHasInv(w);
    var pr := w.s.procs[p];
    assert Compiled(w.s, p);
    forall r | Compile(r) in pr.script
      ensures ResultOf(w.s.results, r).Complete?
    {
      var i :| 0 <= i < |pr.script| && pr.script[i] == Compile(r);
      assert pr.script[i].Compile?;
    }
  }
}
