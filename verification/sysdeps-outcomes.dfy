/** What becomes of the outcomes of single steps: a shell goes past an operation whose
    failure is fatal if and only if its command has ended well and so has the close of
    the lock file, and it stops nowhere else. */
module Outcomes {
  import opened Kernel
  import opened Protocol
  import opened Safety
  import opened Runs

  /** SYSDEP_FATAL follows a failure of the operation, outside any subshell. */
  predicate MustSucceed(op: Op) { op.Compile? || op.fatal }

  /** Event `j` ends the command of operation `k` of shell `p`, with this outcome and
      the exit code that belongs to it. */
  ghost predicate CommandEnds(run: seq<State>, events: seq<Event>, j: nat, p: nat, k: nat, good: bool) {
    && j < |events| && |run| == |events| + 1 && events[j] == ChildStep(p, good)
    && p < |run[j].procs| && p < |run[j + 1].procs|
    && run[j].procs[p].ip == k && Live(run[j].procs[p]) && run[j + 1].procs[p].child == Exited(good)
  }

  /** Event `j` is the close of the lock file by the sd-locker of operation `k` of shell `p`. */
  ghost predicate LockFileCloses(run: seq<State>, events: seq<Event>, j: nat, p: nat, k: nat, good: bool) {
    && j < |events| && |run| == |events| + 1 && events[j] == ShellStep(p, good)
    && p < |run[j].procs| && run[j].procs[p].ip == k && run[j].procs[p].pc == CloseLock
  }

  /** Event `j` is a failed call or command of operation `k` of shell `p`. */
  ghost predicate CallFails(run: seq<State>, events: seq<Event>, j: nat, p: nat, k: nat) {
    || CommandEnds(run, events, j, p, k, false)
    || (&& j < |events| && |run| == |events| + 1 && events[j] == ShellStep(p, false)
        && p < |run[j].procs| && run[j].procs[p].ip == k
        && run[j].procs[p].pc in {BuildObject, BuildLink, CheckLocker, OpenLock, ForkChild, CloseLock})
  }

  /** Every call of the shell and of sd-locker may fail, apart from the calls that wait,
      and so may every command. */
  lemma AnyCallMayFail(s: State, p: nat)
    requires p < |s.procs| && Active(s.procs[p])
    ensures var pr := s.procs[p];
            && (pr.pc in {BuildObject, BuildLink, Publish, OpenLock, ForkChild, CloseLock} ==>
                 Enabled(s, ShellStep(p, false)))
            && (pr.pc == Wait && pr.child in {ChildClose, ChildExec, Running} ==> Enabled(s, ChildStep(p, false)))
            && (pr.pc == Wait && pr.child in {CompileObject, Linking} && OpOf(pr).Compile? ==>
                 Enabled(s, ChildStep(p, false)))
  {
  }

  // ---------------------------------------------------------------- one step

  /** The exit code is on its way to the shell. */
  predicate Passing(pr: Proc, code: bool) {
    pr.child == Exited(code) || ((pr.pc == Release || pr.pc == CloseLock || pr.pc == Reap) && pr.code == code)
  }

  /** How the process of a shell changes by event `e` of its own. */
  ghost predicate Follows(pr: Proc, pr': Proc, e: Event) {
    && pr'.script == pr.script && pr.ip <= pr'.ip <= pr.ip + 1
    && (pr'.ip > pr.ip ==>
         pr'.pc == Idle && pr'.child == NoChild && pr.ip < |pr.script| &&
         (MustSucceed(pr.script[pr.ip]) ==> pr.pc == Reap && pr.code))
    && (pr'.ip == pr.ip ==>
         && (Passing(pr', true) ==>
              || (Passing(pr, true) && pr.pc != CloseLock && pr'.pc != Reap)
              || (pr'.child == Exited(true) && pr'.pc == Wait && e == ChildStep(e.p, true) && Live(pr))
              || (pr'.pc == Reap && pr.pc == CloseLock && pr.code && e == ShellStep(e.p, true)))
         && (Passing(pr', false) || pr'.pc == Halted ==>
              || Passing(pr, false)
              || (pr'.child == Exited(false) && e == ChildStep(e.p, false) && Live(pr))
              || (e == ShellStep(e.p, false) &&
                   pr.pc in {BuildObject, BuildLink, CheckLocker, OpenLock, ForkChild, CloseLock}))
         && (pr'.pc == Halted ==> pr.ip < |pr.script| && MustSucceed(pr.script[pr.ip]))
         && (Passing(pr, false) ==> Passing(pr', false) || pr'.pc == Halted))
    && pr.pc != Halted
  }

  /** A step before sd-locker brings the shell to a place before it, or the operation has failed. */
  lemma PreparingMoves(s: State, p: nat, good: bool)
    requires Enabled(s, ShellStep(p, good)) && Shape(s.procs[p]) && Preparing(s.procs[p].pc)
    ensures var pr, pr' := s.procs[p], ApplyPreparing(s, p, good).procs[p];
            if !good && pr.pc in {BuildObject, BuildLink, CheckLocker} then Active(pr) && pr' == OpFailed(pr)
            else pr' == pr.(pc := pr'.pc, code := pr'.code) &&
                 (Preparing(pr'.pc) || pr'.pc == OpenLock || pr'.pc == Finished)
  {
    hide MaySee, LockOf, TempOf, OpFailed;
  }

  lemma PreparingFollows(s: State, p: nat, good: bool)
    requires Enabled(s, ShellStep(p, good)) && Shape(s.procs[p]) && Preparing(s.procs[p].pc)
    ensures Follows(s.procs[p], ApplyPreparing(s, p, good).procs[p], ShellStep(p, good))
  {
    PreparingMoves(s, p, good);
    hide ApplyPreparing, Enabled;
  }

  lemma CallFollows(s: State, p: nat, good: bool)
    requires Enabled(s, ShellStep(p, good)) && Shape(s.procs[p])
    requires var pc := s.procs[p].pc; !Preparing(pc) && pc != Reap
    ensures Follows(s.procs[p], ApplyLocking(s, p, good).procs[p], ShellStep(p, good))
  {
    hide Open, Lock, Unlock, Close, Fork, Exit, CanLock, LockOf;
  }

  lemma ReapFollows(s: State, p: nat, good: bool)
    requires Enabled(s, ShellStep(p, good)) && Shape(s.procs[p]) && s.procs[p].pc == Reap
    ensures Follows(s.procs[p], ApplyLocking(s, p, good).procs[p], ShellStep(p, good))
  {
    hide LockOf;
  }

  /** A step of the child changes nothing else of the shell, and the exit code that the
      child leaves is the outcome of the step. */
  lemma ExitCodeIsOutcome(s: State, p: nat, good: bool)
    requires Enabled(s, ChildStep(p, good)) && Shape(s.procs[p])
    ensures var pr, pr' := s.procs[p], Apply(s, ChildStep(p, good)).procs[p];
            && Live(pr) && pr.pc == Wait && pr' == pr.(child := pr'.child)
            && (Live(pr') || pr'.child == Exited(good))
  {
    hide Close, Exit, LockOf, MaySee, ResultOf;
  }

  lemma ChildFollows(s: State, p: nat, good: bool)
    requires Enabled(s, ChildStep(p, good)) && Shape(s.procs[p])
    ensures Follows(s.procs[p], Apply(s, ChildStep(p, good)).procs[p], ChildStep(p, good))
  {
    ExitCodeIsOutcome(s, p, good);
    hide Apply, Enabled, MustSucceed;
  }

  /** A step of one shell, seen from any shell. */
  lemma StepFollows(s: State, e: Event, p: nat)
    requires Shapes(s) && Enabled(s, e) && p < |s.procs|
    ensures |Apply(s, e).procs| == |s.procs|
    ensures if e.p == p then Follows(s.procs[p], Apply(s, e).procs[p], e) else Apply(s, e).procs[p] == s.procs[p]
  {
    StepFrame(s, e);
    hide Enabled, Shape, ApplyPreparing, ApplyLocking, ApplyChild, Follows;
    if e.p == p {
      match e
      case ShellStep(_, good) =>
        if Preparing(s.procs[p].pc) {
          PreparingFollows(s, p, good);
        } else if s.procs[p].pc == Reap {
          ReapFollows(s, p, good);
        } else {
          CallFollows(s, p, good);
        }
      case ChildStep(_, good) => ChildFollows(s, p, good);
    }
  }

  // ---------------------------------------------------------------- whole runs

  ghost predicate EndedWell(run: seq<State>, events: seq<Event>, i: nat, p: nat, k: nat) {
    exists j :: 0 <= j < i && CommandEnds(run, events, j, p, k, true)
  }

  ghost predicate ClosedWell(run: seq<State>, events: seq<Event>, i: nat, p: nat, k: nat) {
    exists j :: 0 <= j < i && LockFileCloses(run, events, j, p, k, true)
  }

  ghost predicate HasFailedAt(run: seq<State>, events: seq<Event>, i: nat, p: nat, k: nat) {
    exists j :: 0 <= j < i && CallFails(run, events, j, p, k)
  }

  /** What the first `i` events account for of the state of shell `p`. */
  ghost predicate Accounted(run: seq<State>, events: seq<Event>, i: nat, p: nat)
    requires i < |run| && p < |run[i].procs|
  {
    var pr := run[i].procs[p];
    && (forall k :: 0 <= k < pr.ip && k < |pr.script| && MustSucceed(pr.script[k]) ==>
         EndedWell(run, events, i, p, k) && ClosedWell(run, events, i, p, k))
    && (Passing(pr, true) ==> EndedWell(run, events, i, p, pr.ip))
    && (Passing(pr, true) && pr.pc == Reap ==> ClosedWell(run, events, i, p, pr.ip))
    && (Passing(pr, false) || pr.pc == Halted ==> HasFailedAt(run, events, i, p, pr.ip))
    && (pr.pc == Halted ==> pr.ip < |pr.script| && MustSucceed(pr.script[pr.ip]))
  }

  lemma Longer(run: seq<State>, events: seq<Event>, i: nat, p: nat, k: nat)
    ensures EndedWell(run, events, i, p, k) ==> EndedWell(run, events, i + 1, p, k)
    ensures ClosedWell(run, events, i, p, k) ==> ClosedWell(run, events, i + 1, p, k)
    ensures HasFailedAt(run, events, i, p, k) ==> HasFailedAt(run, events, i + 1, p, k)
    ensures CommandEnds(run, events, i, p, k, true) ==> EndedWell(run, events, i + 1, p, k)
    ensures LockFileCloses(run, events, i, p, k, true) ==> ClosedWell(run, events, i + 1, p, k)
    ensures CallFails(run, events, i, p, k) ==> HasFailedAt(run, events, i + 1, p, k)
  {
  }

  lemma OneMore(run: seq<State>, events: seq<Event>, i: nat, p: nat)
    requires |run| == |events| + 1 && i < |events| && p < |run[i].procs| && p < |run[i + 1].procs|
    requires var pr, pr' := run[i].procs[p], run[i + 1].procs[p];
             if events[i].p == p then Follows(pr, pr', events[i]) else pr' == pr
    requires Accounted(run, events, i, p)
    ensures Accounted(run, events, i + 1, p)
  {
    hide EndedWell, ClosedWell, HasFailedAt, MustSucceed;
    var pr, pr' := run[i].procs[p], run[i + 1].procs[p];
    Longer(run, events, i, p, pr.ip);
    forall k: nat | k < pr'.ip && k < |pr'.script| && MustSucceed(pr'.script[k])
      ensures EndedWell(run, events, i + 1, p, k) && ClosedWell(run, events, i + 1, p, k)
    {
      Longer(run, events, i, p, k);
    }
  }

  lemma {:induction false} RunAccounts(run: seq<State>, events: seq<Event>, i: nat, p: nat)
    requires IsRun(run, events) && Init(run[0]) && i < |run| && p < |run[0].procs|
    ensures p < |run[i].procs| && Accounted(run, events, i, p)
  {
    hide Apply, Enabled, EndedWell, ClosedWell, HasFailedAt, MustSucceed;
    if i > 0 {
      RunAccounts(run, events, i - 1, p);
      RunKeepsInv(run, events, i - 1);
      StepInto(run, events, i);
      StepFollows(run[i - 1], events[i - 1], p);
      OneMore(run, events, i - 1, p);
    }
  }

  /** A shell is past an operation that must succeed only if its command has ended with
      success and the lock file has been closed; while it stands at an operation that has
      failed, or has stopped there, some call or the command of that operation has failed,
      and it stops only at operations that must succeed. */
  lemma PassedMeansSucceeded(run: seq<State>, events: seq<Event>, i: nat, p: nat)
    requires IsRun(run, events) && Init(run[0]) && i < |run| && p < |run[0].procs|
    ensures p < |run[i].procs|
    ensures var pr := run[i].procs[p];
            && (forall k :: 0 <= k < pr.ip && k < |pr.script| && MustSucceed(pr.script[k]) ==>
                 EndedWell(run, events, i, p, k) && ClosedWell(run, events, i, p, k))
            && (pr.pc == Halted ==>
                 && pr.ip < |pr.script| && MustSucceed(pr.script[pr.ip])
                 && HasFailedAt(run, events, i, p, pr.ip))
  {
    hide IsRun, Init, EndedWell, ClosedWell, HasFailedAt;
    RunAccounts(run, events, i, p);
  }

  // ---------------------------------------------------------------- failures are final

  /** The shell stands at operation `k`, which has failed, or is past it. */
  predicate Failing(pr: Proc, k: nat) {
    && (pr.ip == k ==> Passing(pr, false) || pr.pc == Halted) && pr.ip >= k
    && k < |pr.script| && (MustSucceed(pr.script[k]) ==> pr.ip == k)
  }

  lemma FailingStays(s: State, e: Event, p: nat, k: nat)
    requires Shapes(s) && Enabled(s, e) && p < |s.procs| && Failing(s.procs[p], k)
    ensures |Apply(s, e).procs| == |s.procs| && Failing(Apply(s, e).procs[p], k)
  {
    assert Shape(s.procs[p]);
    StepFollows(s, e, p);
    hide Apply, Enabled, MustSucceed;
  }

  lemma {:induction false} FailingForGood(run: seq<State>, events: seq<Event>, i: nat, n: nat, p: nat, k: nat)
    requires IsRun(run, events) && Init(run[0]) && i <= n < |run| && p < |run[i].procs| && Failing(run[i].procs[p], k)
    ensures p < |run[n].procs| && Failing(run[n].procs[p], k)
  {
    hide Init, Apply, Enabled, Failing;
    if i < n {
      FailingForGood(run, events, i, n - 1, p, k);
      RunKeepsInv(run, events, n - 1);
      StepInto(run, events, n);
      FailingStays(run[n - 1], events[n - 1], p, k);
    }
  }

  lemma CallLeavesFailing(s: State, p: nat)
    requires Enabled(s, ShellStep(p, false)) && Shapes(s) && p < |s.procs|
    requires s.procs[p].pc in {BuildObject, BuildLink, CheckLocker, OpenLock, ForkChild, CloseLock}
    ensures Failing(Apply(s, ShellStep(p, false)).procs[p], s.procs[p].ip)
  {
    assert Shape(s.procs[p]);
    StepFollows(s, ShellStep(p, false), p);
    if Preparing(s.procs[p].pc) {
      PreparingMoves(s, p, false);
      hide Enabled, ApplyPreparing, Follows;
      assert Apply(s, ShellStep(p, false)) == ApplyPreparing(s, p, false);
    } else {
      CallEndsLocker(s, p);
      hide Enabled, ApplyLocking, Follows;
    }
  }

  lemma CallEndsLocker(s: State, p: nat)
    requires Enabled(s, ShellStep(p, false)) && s.procs[p].pc in {OpenLock, ForkChild, CloseLock}
    ensures Apply(s, ShellStep(p, false)).procs[p] == s.procs[p].(pc := Reap, code := false)
    ensures s.procs[p].ip < |s.procs[p].script|
  {
    hide Open, Lock, Unlock, Close, Fork, Exit, CanLock, LockOf, MaySee, TempOf;
  }

  /** Once a call or the command of an operation has failed, the operation starts no command
      and its shell never gets past it, unless the failure ends a subshell only. */
  lemma FailedMeansStopped(run: seq<State>, events: seq<Event>, j: nat, n: nat, p: nat, k: nat)
    requires IsRun(run, events) && Init(run[0]) && j < n < |run| && CallFails(run, events, j, p, k)
    ensures p < |run[n].procs| && k < |run[n].procs[p].script|
    ensures var pr := run[n].procs[p];
            && k <= pr.ip && (MustSucceed(pr.script[k]) ==> pr.ip == k)
            && (pr.ip == k ==> !Live(pr) && (pr.pc == Halted || pr.pc in {Wait, Release, CloseLock, Reap}))
  {
    hide IsRun, Init, CallFails, Failing, Live, MustSucceed;
    FailureIsSeen(run, events, j, p, k);
    FailingForGood(run, events, j + 1, n, p, k);
    RunKeepsInv(run, events, n);
    FailingIsStopped(run[n].procs[p], k);
  }

  lemma FailureIsSeen(run: seq<State>, events: seq<Event>, j: nat, p: nat, k: nat)
    requires IsRun(run, events) && Init(run[0]) && CallFails(run, events, j, p, k)
    ensures j + 1 < |run| && p < |run[j + 1].procs| && Failing(run[j + 1].procs[p], k)
  {
    hide Init, Enabled, Apply, Inv, MustSucceed;
    RunKeepsInv(run, events, j);
    RunKeepsInv(run, events, j + 1);
    StepInto(run, events, j + 1);
    ShapeAt(run[j], p);
    if CommandEnds(run, events, j, p, k, false) {
      ExitCodeIsOutcome(run[j], p, false);
    } else {
      CallLeavesFailing(run[j], p);
    }
  }

  lemma ShapeAt(s: State, p: nat)
    requires Inv(s) && p < |s.procs|
    ensures Shapes(s) && Shape(s.procs[p])
  {
  }

  lemma FailingIsStopped(pr: Proc, k: nat)
    requires Shape(pr) && Failing(pr, k)
    ensures k < |pr.script| && k <= pr.ip && (MustSucceed(pr.script[k]) ==> pr.ip == k)
    ensures pr.ip == k ==> !Live(pr) && (pr.pc == Halted || pr.pc in {Wait, Release, CloseLock, Reap})
  {
    hide MustSucceed;
  }
}
