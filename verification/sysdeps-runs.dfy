/** What holds of whole runs of the protocol: any number of shells, any
    interleaving, any pattern of the failures that the environment allows. */
module Runs {
  import opened Wrappers
  import opened Kernel
  import opened Protocol
  import opened Safety

  lemma StepInto(run: seq<State>, events: seq<Event>, i: nat)
    requires IsRun(run, events) && 0 < i < |run|
    ensures Enabled(run[i - 1], events[i - 1]) && run[i] == Apply(run[i - 1], events[i - 1])
  {
    hide Enabled, Apply;
    assert run[i] == run[i - 1 + 1];
  }

  lemma {:induction false} RunKeepsInv(run: seq<State>, events: seq<Event>, i: nat)
    requires IsRun(run, events) && Init(run[0]) && i < |run|
    ensures Inv(run[i]) && |run[i].procs| == |run[0].procs|
  {
    hide Inv, Init, Apply, Enabled;
    if i == 0 {
      InitHasInv(run[0]);
    } else {
      RunKeepsInv(run, events, i - 1);
      StepInto(run, events, i);
      StepKeepsInv(run[i - 1], events[i - 1]);
      StepFrame(run[i - 1], events[i - 1]);
    }
  }

  // ---------------------------------------------------------------- exclusion

  /** The command of `pr` is executing support program `r`, or writing it. */
  predicate Executes(pr: Proc, r: string) {
    Active(pr) && pr.child == Running && OpOf(pr).Exec? && OpOf(pr).uses == Some(r)
  }

  predicate Writes(pr: Proc, r: string) {
    Active(pr) && pr.child == Linking && OpOf(pr) == Compile(r)
  }

  /** A program that the shell has compiled before in its script is complete while the
      shell executes it. */
  lemma NoWriteAfterCompilation(run: seq<State>, events: seq<Event>, i: nat, p: nat, r: string)
    requires IsRun(run, events) && Init(run[0]) && i < |run|
    requires p < |run[i].procs| && Executes(run[i].procs[p], r)
    requires Compile(r) in run[i].procs[p].script[..run[i].procs[p].ip]
    ensures ResultOf(run[i].results, r).Complete?
    ensures forall q :: 0 <= q < |run[i].procs| ==> !Writes(run[i].procs[q], r)
  {
    RunKeepsInv(run, events, i);
    assert Shape(run[i].procs[p]) && Compiled(run[i], p);
  }

  /** While a shell whose script is well formed executes a support program, it is
      complete and nobody is writing it, although execution and compilation take
      different lock files, and whatever the scripts of the others. */
  lemma NoExecutionDuringWrite(run: seq<State>, events: seq<Event>, i: nat, p: nat, r: string)
    requires IsRun(run, events) && Init(run[0]) && i < |run|
    requires p < |run[i].procs| && Executes(run[i].procs[p], r) && WellFormed(run[i].procs[p].script)
    ensures ResultOf(run[i].results, r).Complete?
    ensures forall q :: 0 <= q < |run[i].procs| ==> !Writes(run[i].procs[q], r)
  {
    var pr := run[i].procs[p];
    assert pr.script[pr.ip].uses == Some(r);
    NoWriteAfterCompilation(run, events, i, p, r);
  }

  /** Of all the lockers on one lock file at most one has a live command. */
  lemma OneLiveCommandPerLock(run: seq<State>, events: seq<Event>, i: nat, p: nat, q: nat)
    requires IsRun(run, events) && Init(run[0]) && i < |run|
    requires p < |run[i].procs| && q < |run[i].procs| && p != q
    requires Live(run[i].procs[p]) && Live(run[i].procs[q])
    ensures Active(run[i].procs[p]) && Active(run[i].procs[q])
    ensures Lk(run[i].procs[p]) != Lk(run[i].procs[q])
  {
    RunKeepsInv(run, events, i);
    var s := run[i];
    assert Shape(s.procs[p]) && Shape(s.procs[q]);
    if Lk(s.procs[p]) == Lk(s.procs[q]) {
      OneHolder(s, p, q);
    }
  }

  /** A program that is executed under the lock that compiles it is not written meanwhile. */
  lemma NoWriteUnderItsLock(run: seq<State>, events: seq<Event>, i: nat, p: nat, r: string)
    requires IsRun(run, events) && Init(run[0]) && i < |run|
    requires p < |run[i].procs| && Executes(run[i].procs[p], r)
    requires Lk(run[i].procs[p]) == LockOf(Compile(r))
    ensures forall q :: 0 <= q < |run[i].procs| ==> !Writes(run[i].procs[q], r)
  {
    forall q: nat | q < |run[i].procs| && Writes(run[i].procs[q], r) ensures false {
      assert OpOf(run[i].procs[p]) != OpOf(run[i].procs[q]);
      OneLiveCommandPerLock(run, events, i, p, q);
    }
  }

  /** The kernel side of the same fact: while a command lives, the lock is its
      parent's, whatever the command has closed, and once it executes a program
      it holds no descriptor of a lock file. */
  lemma LiveCommandIsCovered(run: seq<State>, events: seq<Event>, i: nat, p: nat)
    requires IsRun(run, events) && Init(run[0]) && i < |run|
    requires p < |run[i].procs| && Live(run[i].procs[p])
    ensures var s, pr := run[i], run[i].procs[p];
            && Active(pr)
            && Lk(pr) in s.kernel.locks && s.kernel.locks[Lk(pr)] == Locker(p)
            && (pr.child != ChildClose ==> forall f :: (Command(p), f) !in s.kernel.descriptors)
  {
    RunKeepsInv(run, events, i);
    var s, pr := run[i], run[i].procs[p];
    assert Shape(pr);
    var uses := Uses(s);
    assert uses[p] == Use(true, true, pr.child == ChildClose, Lk(pr));
    assert Agrees(s.kernel, uses);
  }

  // ---------------------------------------------------------------- results

  /** Event `i` of the run is the successful link of `r` by shell `p`. */
  predicate LinkSucceeds(run: seq<State>, events: seq<Event>, i: nat, p: nat, r: string)
    requires IsRun(run, events)
  {
    i < |events| && events[i] == ChildStep(p, true) && p < |run[i].procs| && Writes(run[i].procs[p], r)
  }

  lemma {:induction false} CompleteForGood(run: seq<State>, events: seq<Event>, i: nat, j: nat, r: string)
    requires IsRun(run, events) && Init(run[0]) && i <= j < |run|
    requires ResultOf(run[i].results, r).Complete?
    ensures ResultOf(run[j].results, r) == ResultOf(run[i].results, r)
  {
    hide Init, Apply, Enabled;
    if i < j {
      CompleteForGood(run, events, i, j - 1, r);
      RunKeepsInv(run, events, j - 1);
      StepInto(run, events, j);
      CompleteResultsStay(run[j - 1], events[j - 1], r);
    }
  }

  /** A result is linked with success at most once in a run, by one shell, and
      not at all when it was there from the start. */
  lemma AtMostOneLink(run: seq<State>, events: seq<Event>, i: nat, j: nat, p: nat, q: nat, r: string)
    requires IsRun(run, events) && Init(run[0])
    requires LinkSucceeds(run, events, i, p, r) && LinkSucceeds(run, events, j, q, r)
    ensures i == j && p == q
    ensures !ResultOf(run[0].results, r).Complete?
  {
    RunKeepsInv(run, events, i);
    RunKeepsInv(run, events, j);
    if ResultOf(run[0].results, r).Complete? {
      CompleteForGood(run, events, 0, i, r);
    }
    if i < j {
      CompleteForGood(run, events, i + 1, j, r);
    } else if j < i {
      CompleteForGood(run, events, j + 1, i, r);
    }
  }

  /** A result becomes complete by a successful link and by nothing else. */
  lemma OnlyLinksComplete(run: seq<State>, events: seq<Event>, i: nat, r: string)
    requires IsRun(run, events) && Init(run[0]) && i < |events|
    requires !ResultOf(run[i].results, r).Complete? && ResultOf(run[i + 1].results, r).Complete?
    ensures LinkSucceeds(run, events, i, events[i].p, r)
    ensures ResultOf(run[i + 1].results, r) == Complete(Linked(events[i].p))
  {
    RunKeepsInv(run, events, i);
    hide Init, Apply, Enabled;
    LinkCompletes(run[i], events[i], r);
  }

  lemma LinkCompletes(s: State, e: Event, r: string)
    requires Inv(s) && Enabled(s, e)
    requires !ResultOf(s.results, r).Complete? && ResultOf(Apply(s, e).results, r).Complete?
    ensures e == ChildStep(e.p, true) && Writes(s.procs[e.p], r)
    ensures ResultOf(Apply(s, e).results, r) == Complete(Linked(e.p))
  {
    assert Shape(s.procs[e.p]);
    hide Inv, Close, Exit, LockOf, MaySee;
    if !Touches(s, e) {
      UntouchedStep(s, e);
    }
  }

  /** Shell `p` has come past its protected compilation of `r` without failure. */
  predicate HasCompiled(pr: Proc, r: string) {
    !Ended(pr.pc) && exists k :: 0 <= k < pr.ip && k < |pr.script| && pr.script[k] == Compile(r)
  }

  /** Whatever attempts failed before, every shell whose protected compilation
      succeeded sees one and the same complete result from then on: the one
      that a successful link left, or one from an earlier build. */
  lemma CompiledResultIsSettled(run: seq<State>, events: seq<Event>, i: nat, j: nat, p: nat, r: string)
    requires IsRun(run, events) && Init(run[0]) && i <= j < |run|
    requires p < |run[i].procs| && HasCompiled(run[i].procs[p], r)
    ensures ResultOf(run[i].results, r).Complete?
    ensures ResultOf(run[j].results, r) == ResultOf(run[i].results, r)
    ensures forall n, q :: i <= n < |events| ==> !LinkSucceeds(run, events, n, q, r)
  {
    RunKeepsInv(run, events, i);
    assert Compiled(run[i], p);
    CompleteForGood(run, events, i, j, r);
    forall n: nat, q: nat | i <= n < |events| ensures !LinkSucceeds(run, events, n, q, r) {
      CompleteForGood(run, events, i, n, r);
      RunKeepsInv(run, events, n);
    }
  }

  // ---------------------------------------------------------------- sd-locker itself

  /** The published sd-locker is absent or whole; a shell that executes it, or
      is waiting for one to end, finds it there, even if its own rename failed;
      what a shell is about to move into place is what it has built, whole; and
      nothing else is ever moved there. */
  lemma LockerIsWhole(run: seq<State>, events: seq<Event>, i: nat)
    requires IsRun(run, events) && Init(run[0]) && i < |run|
    ensures run[i].locker == Absent || run[i].locker.Complete?
    ensures forall p :: 0 <= p < |run[i].procs| && UsesLocker(run[i].procs[p].pc) ==> run[i].locker.Complete?
    ensures forall p :: 0 <= p < |run[i].procs| && run[i].procs[p].pc == Publish ==>
              TempOf(run[i].temps, run[i].procs[p].pid) == Complete(BuiltBy(p))
    ensures i < |events| && run[i + 1].locker != run[i].locker ==>
              events[i].p < |run[i].procs| && run[i].procs[events[i].p].pc == Publish &&
              run[i + 1].locker == Complete(BuiltBy(events[i].p))
  {
    RunKeepsInv(run, events, i);
    if i < |events| {
      assert LockerOf(events[i].p, run[i].procs[events[i].p], run[i].temps, run[i].locker);
      match events[i]
      case ShellStep(p, good) => ShellStepKeepsLocker(run[i], p, good);
      case ChildStep(p, good) => ChildStepKeepsLocker(run[i], p, good);
    }
  }

  // ---------------------------------------------------------------- termination

  /** Steps that are left to a child, and to a shell within the current operation. */
  function ChildRank(c: Child): nat {
    match c
    case NoChild => 0
    case Exited(_) => 0
    case Linking => 1
    case Running => 1
    case CompileObject => 2
    case TestResult => 3
    case ChildExec => 4
    case ChildClose => 5
  }

  function PcRank(pc: Pc): nat {
    match pc
    case Finished => 0
    case Halted => 0
    case Idle => 1
    case Reap => 2
    case CloseLock => 3
    case Release => 4
    case Wait => 5
    case ForkChild => 11
    case Acquire => 12
    case OpenLock => 13
    case Start => 14
    case CheckLocker => 15
    case Publish => 16
    case BuildLink => 17
    case BuildObject => 18
    case TestLocker => 19
  }

  /** Twenty steps pay for one operation of a script, and one for its end. */
  function Rank(pr: Proc): nat
    requires Shape(pr)
  {
    if Ended(pr.pc) then 0
    else if pr.pc == Idle then 20 * (|pr.script| - pr.ip) + 1
    else 20 * (|pr.script| - pr.ip - 1) + 1 + PcRank(pr.pc) + ChildRank(pr.child)
  }

  function Measure(procs: seq<Proc>): nat
    requires forall p :: 0 <= p < |procs| ==> Shape(procs[p])
  {
    if procs == [] then 0 else Rank(procs[0]) + Measure(procs[1..])
  }

  lemma {:induction false} MeasureUpdate(procs: seq<Proc>, p: nat, pr: Proc)
    requires p < |procs| && Shape(pr)
    requires forall q :: 0 <= q < |procs| ==> Shape(procs[q])
    ensures Measure(procs[p := pr]) == Measure(procs) - Rank(procs[p]) + Rank(pr)
  {
    if p == 0 {
      assert procs[0 := pr][1..] == procs[1..];
    } else {
      assert procs[p := pr][1..] == procs[1..][p - 1 := pr];
      MeasureUpdate(procs[1..], p - 1, pr);
    }
  }

  /** The process ends, goes on within its operation, or comes to the next one. */
  predicate Advances(pr: Proc, pr': Proc) {
    && !Ended(pr.pc) && pr'.script == pr.script
    && (|| Ended(pr'.pc)
        || (pr'.ip == pr.ip && pr'.pc != Idle &&
              (pr.pc == Idle || PcRank(pr'.pc) + ChildRank(pr'.child) < PcRank(pr.pc) + ChildRank(pr.child)))
        || (pr'.ip == pr.ip + 1 && pr'.pc == Idle && pr.pc != Idle))
  }

  lemma AdvanceDecreases(pr: Proc, pr': Proc)
    requires Shape(pr) && Shape(pr') && Advances(pr, pr')
    ensures Rank(pr') < Rank(pr)
  {
    RankIsBounded(pr');
    hide PcRank, ChildRank;
  }

  lemma RankIsBounded(pr: Proc)
    requires Shape(pr)
    ensures PcRank(pr.pc) + ChildRank(pr.child) <= 19
  {
  }

  lemma PreparingAdvances(s: State, p: nat, good: bool)
    requires Enabled(s, ShellStep(p, good)) && Shape(s.procs[p]) && Preparing(s.procs[p].pc)
    ensures Advances(s.procs[p], ApplyPreparing(s, p, good).procs[p])
  {
    hide MaySee, LockOf;
  }

  lemma CallAdvances(s: State, p: nat, good: bool)
    requires Enabled(s, ShellStep(p, good)) && Shape(s.procs[p])
    requires var pc := s.procs[p].pc; !Preparing(pc) && pc != Reap
    ensures Advances(s.procs[p], ApplyLocking(s, p, good).procs[p])
  {
    hide Open, Lock, Unlock, Close, Fork, Exit, CanLock, LockOf;
  }

  lemma ReapAdvances(s: State, p: nat, good: bool)
    requires Enabled(s, ShellStep(p, good)) && Shape(s.procs[p]) && s.procs[p].pc == Reap
    ensures Advances(s.procs[p], ApplyLocking(s, p, good).procs[p])
  {
    hide LockOf;
  }

  lemma ChildAdvances(s: State, p: nat, good: bool)
    requires Enabled(s, ChildStep(p, good)) && Shape(s.procs[p])
    ensures Advances(s.procs[p], ApplyChild(s, p, good).procs[p])
  {
    hide Close, Exit, LockOf, MaySee;
  }

  lemma StepDecreases(s: State, e: Event)
    requires Shapes(s) && Enabled(s, e)
    ensures Shapes(Apply(s, e)) && Measure(Apply(s, e).procs) < Measure(s.procs)
  {
    StepKeepsShapes(s, e);
    StepFrame(s, e);
    StepAdvances(s, e);
    var pr' := Apply(s, e).procs[e.p];
    assert e.p < |s.procs| && Shape(s.procs[e.p]) && Shape(pr');
    hide Apply, Enabled, Shape, Advances, Rank;
    AdvanceDecreases(s.procs[e.p], pr');
    MeasureUpdate(s.procs, e.p, pr');
  }

  lemma StepAdvances(s: State, e: Event)
    requires Shapes(s) && Enabled(s, e)
    ensures |Apply(s, e).procs| == |s.procs| && Advances(s.procs[e.p], Apply(s, e).procs[e.p])
  {
    assert e.p < |s.procs| && Shape(s.procs[e.p]);
    StepFrame(s, e);
    hide Enabled, Shape, ApplyPreparing, ApplyLocking, ApplyChild, Advances;
    match e
    case ShellStep(p, good) =>
      if Preparing(s.procs[p].pc) {
        PreparingAdvances(s, p, good);
      } else if s.procs[p].pc == Reap {
        ReapAdvances(s, p, good);
      } else {
        CallAdvances(s, p, good);
      }
    case ChildStep(p, good) => ChildAdvances(s, p, good);
  }

  /** Every run ends: the work that the scripts ask for bounds its length. */
  lemma {:induction false} RunsAreBounded(run: seq<State>, events: seq<Event>)
    requires IsRun(run, events) && Init(run[0])
    ensures Shapes(run[0]) && Shapes(run[|events|])
    ensures |events| + Measure(run[|events|].procs) <= Measure(run[0].procs)
  {
    InitHasInv(run[0]);
    if |events| > 0 {
      var n := |events| - 1;
      RunsAreBounded(run[..n + 1], events[..n]);
      StepDecreases(run[n], events[n]);
    }
  }

  /** The step that is open to a shell that is not waiting for a lock. */
  function NextStep(s: State, p: nat): Event
    requires Shapes(s) && p < |s.procs|
  {
    var pr := s.procs[p];
    if pr.pc == Wait && !pr.child.Exited? then
      ChildStep(p, pr.child == TestResult && OpOf(pr).Compile? &&
                   ResultOf(s.results, OpOf(pr).result).Complete?)
    else
      ShellStep(p, match pr.pc
                   case TestLocker => s.locker.Complete?
                   case CheckLocker => s.locker.Complete?
                   case Wait => pr.child.ok
                   case Reap => pr.code
                   case _ => true)
  }

  lemma NextStepEnabled(s: State, p: nat)
    requires Inv(s) && p < |s.procs| && !Ended(s.procs[p].pc)
    requires s.procs[p].pc == Acquire ==> CanLock(s.kernel, Locker(p), Lk(s.procs[p]))
    ensures Enabled(s, NextStep(s, p))
  {
    assert Shape(s.procs[p]);
  }

  /** While any shell is unfinished some step is enabled: a locker that waits for
      a lock waits for one that has all it needs to go on. */
  lemma NoDeadlock(run: seq<State>, events: seq<Event>, i: nat, p: nat)
    requires IsRun(run, events) && Init(run[0]) && i < |run|
    requires p < |run[i].procs| && !Ended(run[i].procs[p].pc)
    ensures exists e :: Enabled(run[i], e)
  {
    RunKeepsInv(run, events, i);
    var s := run[i];
    var pr := s.procs[p];
    assert Shape(pr);
    if pr.pc == Acquire && !CanLock(s.kernel, Locker(p), Lk(pr)) {
      var q := s.kernel.locks[Lk(pr)].shell;
      assert Uses(s)[q].holding;
      NextStepEnabled(s, q);
    } else {
      NextStepEnabled(s, p);
    }
  }

  /** A run that cannot be extended has brought every shell to its end. */
  lemma StuckRunsAreDone(run: seq<State>, events: seq<Event>)
    requires IsRun(run, events) && Init(run[0])
    requires forall e :: !Enabled(run[|events|], e)
    ensures forall p :: 0 <= p < |run[|events|].procs| ==> Ended(run[|events|].procs[p].pc)
  {
    forall p | 0 <= p < |run[|events|].procs| ensures Ended(run[|events|].procs[p].pc) {
      if !Ended(run[|events|].procs[p].pc) {
        NoDeadlock(run, events, |events|, p);
      }
    }
  }

  // ---------------------------------------------------------------- the script of sysdep-system

  /** The protected steps of sysdep-system, in their order, without the Ada part.
      The commands under `sd-cpuidx86.lock` are shell scripts, most of which execute
      sd-cpuidx86: sd-cpufeat, sd-cpunum, sd-cpumodel, sd-cpufreq, sd-cpul1icache,
      sd-cpul1dcache, sd-cpul2cache, sd-cpul3cache, sd-cpuclinesz. */
  const SYSDEP_SCRIPT: Script := [
    Compile("sd-arch"),
    Compile("sd-cctype"),
    Compile("sd-os"),
    Compile("sd-ccversion"),
    Exec("sd-arch.lock", Some("sd-arch"), false),
    Exec("sd-cctype.lock", Some("sd-cctype"), false),
    Exec("sd-cpuidx86.h.lock", None, true),
    Compile("sd-cpuidx86"),
    Exec("sd-os.lock", Some("sd-os"), false),
    Exec("sd-osversion.lock", None, false),
    Exec("sd-ccversion.lock", Some("sd-ccversion"), false),
    Exec("sd-cpuidx86.lock", Some("sd-cpuidx86"), false),
    Exec("sd-cpuidx86.lock", None, false),
    Exec("sd-cpuidx86.lock", Some("sd-cpuidx86"), false),
    Exec("sd-cpuidx86.lock", None, false),
    Exec("sd-cpuidx86.lock", Some("sd-cpuidx86"), false),
    Exec("sd-cpuidx86.lock", Some("sd-cpuidx86"), false),
    Exec("sd-cpuidx86.lock", Some("sd-cpuidx86"), false),
    Exec("sd-cpuidx86.lock", Some("sd-cpuidx86"), false),
    Exec("sd-cpuidx86.lock", Some("sd-cpuidx86"), false)]

  /** The script executes every support program under another lock than it compiles it under. */
  lemma SysdepUsesOtherLocks(i: nat)
    requires i < |SYSDEP_SCRIPT| && SYSDEP_SCRIPT[i].Exec? && SYSDEP_SCRIPT[i].uses.Some?
    ensures var r := SYSDEP_SCRIPT[i].uses.value;
            LockOf(SYSDEP_SCRIPT[i]) == r + ".lock" && LockOf(Compile(r)) == r + ".o.lock" &&
            LockOf(SYSDEP_SCRIPT[i]) != LockOf(Compile(r))
  {
    var r := SYSDEP_SCRIPT[i].uses.value;
    assert r + ".lock" == SYSDEP_SCRIPT[i].lockFile;
    assert |r + ".lock"| != |r + ".o.lock"|;
  }

  lemma SysdepScriptIsWellFormed()
    ensures WellFormed(SYSDEP_SCRIPT)
  {
    assert SYSDEP_SCRIPT[0] == Compile("sd-arch") && SYSDEP_SCRIPT[1] == Compile("sd-cctype");
    assert SYSDEP_SCRIPT[2] == Compile("sd-os") && SYSDEP_SCRIPT[3] == Compile("sd-ccversion");
    assert SYSDEP_SCRIPT[7] == Compile("sd-cpuidx86");
  }
}
