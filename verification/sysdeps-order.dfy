/** Why the order of the script matters: with the locks alone a support program can be
    executed while it is written, for every script that executes it under another lock
    before its own compilation of it. */
module Order {
  import opened Wrappers
  import opened Kernel
  import opened Protocol
  import opened Runs

  ghost predicate StartedRun(run: seq<State>, events: seq<Event>) {
    IsRun(run, events) && Init(run[0])
  }

  /** The two runs begin alike. */
  ghost predicate Continues(run: seq<State>, run': seq<State>) {
    run != [] && run' != [] && run'[0] == run[0]
  }

  lemma Extend(run: seq<State>, events: seq<Event>, e: Event) returns (run': seq<State>, events': seq<Event>)
    requires StartedRun(run, events) && Enabled(run[|run| - 1], e)
    ensures StartedRun(run', events') && Continues(run, run')
    ensures run'[|run'| - 1] == Apply(run[|run| - 1], e)
  {
    hide Enabled, Apply, Init;
    run', events' := run + [Apply(run[|run| - 1], e)], events + [e];
  }

  /** Shell `p` is between two operations, and no command is live under the next lock. */
  ghost predicate Ready(s: State, p: nat) {
    && p < |s.procs| && !s.locker.Writing?
    && s.procs[p].pc == Idle && s.procs[p].ip < |s.procs[p].script| && s.procs[p].child == NoChild
    && LockOf(s.procs[p].script[s.procs[p].ip]) !in s.kernel.locks
  }

  /** What a step leaves alone; sd-locker may appear. */
  ghost predicate Same(s: State, s': State, p: nat) {
    && p < |s.procs| == |s'.procs| && s'.procs == s.procs[p := s'.procs[p]]
    && (s'.locker == s.locker || (s.locker == Absent && s'.locker == Complete(BuiltBy(p))))
  }

  /** A shell that finds no sd-locker builds one and moves it into place. */
  lemma Builds(run: seq<State>, events: seq<Event>, p: nat) returns (run': seq<State>, events': seq<Event>)
    requires StartedRun(run, events)
    requires var s := run[|run| - 1]; s.locker == Absent && p < |s.procs| && At(s.procs[p], TestLocker)
    ensures StartedRun(run', events') && Continues(run, run')
    ensures var s, s', pr := run[|run| - 1], run'[|run'| - 1], run[|run| - 1].procs[p];
            Same(s, s', p) && s'.procs[p] == pr.(pc := CheckLocker) && s'.locker == Complete(BuiltBy(p)) &&
            s'.results == s.results && s'.kernel == s.kernel
  {
    hide StartedRun;
    run', events' := Extend(run, events, ShellStep(p, false));
    run', events' := Extend(run', events', ShellStep(p, true));
    run', events' := Extend(run', events', ShellStep(p, true));
    run', events' := Extend(run', events', ShellStep(p, true));
  }

  /** A shell comes to the test before use, with sd-locker in place. */
  lemma Prepares(run: seq<State>, events: seq<Event>, p: nat) returns (run': seq<State>, events': seq<Event>)
    requires StartedRun(run, events) && Ready(run[|run| - 1], p)
    ensures StartedRun(run', events') && Continues(run, run')
    ensures var s, s', pr := run[|run| - 1], run'[|run'| - 1], run[|run| - 1].procs[p];
            Same(s, s', p) && s'.procs[p] == pr.(pc := CheckLocker) && s'.locker.Complete? &&
            s'.results == s.results && s'.kernel == s.kernel
  {
    hide StartedRun;
    run', events' := Extend(run, events, ShellStep(p, true));
    if run[|run| - 1].locker == Absent {
      run', events' := Builds(run', events', p);
    } else {
      run', events' := Extend(run', events', ShellStep(p, true));
    }
  }

  /** A shell that is ready starts sd-locker. */
  lemma Starts(run: seq<State>, events: seq<Event>, p: nat) returns (run': seq<State>, events': seq<Event>)
    requires StartedRun(run, events) && Ready(run[|run| - 1], p)
    ensures StartedRun(run', events') && Continues(run, run')
    ensures var s, s', pr := run[|run| - 1], run'[|run'| - 1], run[|run| - 1].procs[p];
            Same(s, s', p) && s'.procs[p] == pr.(pc := OpenLock, code := true) && s'.locker.Complete? &&
            s'.results == s.results && s'.kernel == s.kernel
  {
    hide StartedRun;
    run', events' := Prepares(run, events, p);
    run', events' := Extend(run', events', ShellStep(p, true));
    run', events' := Extend(run', events', ShellStep(p, true));
  }

  /** A shell that finds its lock free comes to hold it. */
  lemma Acquires(run: seq<State>, events: seq<Event>, p: nat) returns (run': seq<State>, events': seq<Event>)
    requires StartedRun(run, events) && Ready(run[|run| - 1], p)
    ensures StartedRun(run', events') && Continues(run, run')
    ensures var s, s', pr := run[|run| - 1], run'[|run'| - 1], run[|run| - 1].procs[p];
            && Same(s, s', p) && s'.procs[p] == pr.(pc := ForkChild, code := true) && s'.results == s.results
            && s'.locker.Complete?
            && s'.kernel.locks == s.kernel.locks[LockOf(pr.script[pr.ip]) := Locker(p)]
  {
    hide StartedRun, LockOf;
    run', events' := Starts(run, events, p);
    run', events' := Extend(run', events', ShellStep(p, true));
    run', events' := Extend(run', events', ShellStep(p, true));
  }

  predicate OnlyLockers(k: Kernel) { forall f :: f in k.locks ==> k.locks[f].Locker? }

  /** A locker that holds its lock forks, and the child comes to its program. */
  lemma Forks(run: seq<State>, events: seq<Event>, p: nat) returns (run': seq<State>, events': seq<Event>)
    requires StartedRun(run, events)
    requires var s := run[|run| - 1];
             p < |s.procs| && s.procs[p].pc == ForkChild && Active(s.procs[p]) && OnlyLockers(s.kernel)
    ensures StartedRun(run', events') && Continues(run, run')
    ensures var s, s', pr := run[|run| - 1], run'[|run'| - 1], run[|run| - 1].procs[p];
            && Same(s, s', p) && s'.results == s.results && s'.kernel.locks == s.kernel.locks
            && s'.procs[p] == pr.(pc := Wait, child := if OpOf(pr).Compile? then TestResult else Running)
  {
    hide StartedRun, LockOf;
    run', events' := Extend(run, events, ShellStep(p, true));
    run', events' := Extend(run', events', ChildStep(p, true));
    run', events' := Extend(run', events', ChildStep(p, true));
  }

  /** sd-compile finds no result, compiles, and starts to link. */
  lemma StartsToLink(run: seq<State>, events: seq<Event>, p: nat) returns (run': seq<State>, events': seq<Event>)
    requires StartedRun(run, events)
    requires var s := run[|run| - 1];
             && p < |s.procs| && s.procs[p].pc == Wait && s.procs[p].child == TestResult && Active(s.procs[p])
             && OpOf(s.procs[p]).Compile? && OpOf(s.procs[p]).result !in s.results
    ensures StartedRun(run', events') && Continues(run, run')
    ensures var s, s', pr := run[|run| - 1], run'[|run'| - 1], run[|run| - 1].procs[p];
            && Same(s, s', p) && s'.procs[p] == pr.(child := Linking) && s'.kernel == s.kernel
            && s'.results == s.results[OpOf(pr).result := Writing(p)]
  {
    hide StartedRun;
    run', events' := Extend(run, events, ChildStep(p, false));
    run', events' := Extend(run', events', ChildStep(p, true));
  }

  // ---------------------------------------------------------------- whole operations

  /** Every result that is there is whole. */
  ghost predicate Whole(results: map<string, File>) {
    forall r :: r in results ==> results[r].Complete?
  }

  /** A child ends its program with success, and a compiled result is there. */
  lemma ChildSucceeds(run: seq<State>, events: seq<Event>, p: nat) returns (run': seq<State>, events': seq<Event>)
    requires StartedRun(run, events)
    requires var s := run[|run| - 1];
             && p < |s.procs| && s.procs[p].pc == Wait && Active(s.procs[p])
             && OnlyLockers(s.kernel) && Whole(s.results)
             && s.procs[p].child == if OpOf(s.procs[p]).Compile? then TestResult else Running
    ensures StartedRun(run', events') && Continues(run, run')
    ensures var s, s', pr := run[|run| - 1], run'[|run'| - 1], run[|run| - 1].procs[p];
            && Same(s, s', p) && s'.procs[p] == pr.(child := Exited(true)) && s'.kernel.locks == s.kernel.locks
            && Whole(s'.results)
            && s'.results.Keys == s.results.Keys + if OpOf(pr).Compile? then {OpOf(pr).result} else {}
  {
    var s := run[|run| - 1];
    hide StartedRun;
    var op := OpOf(s.procs[p]);
    if op.Exec? || op.result in s.results {
      run', events' := Extend(run, events, ChildStep(p, true));
    } else {
      run', events' := StartsToLink(run, events, p);
      run', events' := Extend(run', events', ChildStep(p, true));
    }
  }

  /** The locker sees the success of its child and gives up its lock. */
  lemma GivesUp(run: seq<State>, events: seq<Event>, p: nat) returns (run': seq<State>, events': seq<Event>)
    requires StartedRun(run, events)
    requires var s := run[|run| - 1];
             && p < |s.procs| && s.procs[p].pc == Wait && s.procs[p].child == Exited(true) && Active(s.procs[p])
             && s.kernel.locks == map[Lk(s.procs[p]) := Locker(p)]
    ensures StartedRun(run', events') && Continues(run, run')
    ensures var s, s', pr := run[|run| - 1], run'[|run'| - 1], run[|run| - 1].procs[p];
            && Same(s, s', p) && s'.procs[p] == pr.(pc := CloseLock, child := NoChild, code := true)
            && s'.results == s.results && s'.kernel.locks == map[]
  {
    hide StartedRun, LockOf;
    run', events' := Extend(run, events, ShellStep(p, true));
    run', events' := Extend(run', events', ShellStep(p, true));
  }

  /** It closes the lock file and ends, and its shell goes on. */
  lemma Ends(run: seq<State>, events: seq<Event>, p: nat) returns (run': seq<State>, events': seq<Event>)
    requires StartedRun(run, events)
    requires var s := run[|run| - 1];
             && p < |s.procs| && At(s.procs[p], CloseLock) && s.procs[p].code && s.kernel.locks == map[]
    ensures StartedRun(run', events') && Continues(run, run')
    ensures var s, s', pr := run[|run| - 1], run'[|run'| - 1], run[|run| - 1].procs[p];
            && Same(s, s', p) && s'.procs[p] == pr.(pc := Idle, ip := pr.ip + 1)
            && s'.results == s.results && s'.kernel.locks == map[]
  {
    hide StartedRun, LockOf;
    run', events' := Extend(run, events, ShellStep(p, true));
    run', events' := Extend(run', events', ShellStep(p, true));
  }

  /** A shell is alone, between two operations. */
  ghost predicate Alone(s: State, p: nat) {
    && p < |s.procs| && !s.locker.Writing? && s.procs[p].pc == Idle && s.procs[p].child == NoChild
    && s.procs[p].ip < |s.procs[p].script| && s.kernel.locks == map[] && Whole(s.results)
  }

  /** The results after an operation. */
  predicate Adds(a: map<string, File>, b: map<string, File>, op: Op) {
    b.Keys == a.Keys + if op.Compile? then {op.result} else {}
  }

  /** A shell that is alone gets its next command done. */
  lemma Commands(run: seq<State>, events: seq<Event>, p: nat) returns (run': seq<State>, events': seq<Event>)
    requires StartedRun(run, events) && Alone(run[|run| - 1], p)
    ensures StartedRun(run', events') && Continues(run, run')
    ensures var s, s', pr := run[|run| - 1], run'[|run'| - 1], run[|run| - 1].procs[p];
            && Same(s, s', p) && s'.procs[p] == pr.(pc := Wait, child := Exited(true), code := true)
            && s'.kernel.locks == map[LockOf(pr.script[pr.ip]) := Locker(p)] && s'.locker.Complete?
            && Whole(s'.results) && Adds(s.results, s'.results, pr.script[pr.ip])
  {
    hide StartedRun, LockOf, Whole, Apply, Enabled;
    run', events' := Acquires(run, events, p);
    run', events' := Forks(run', events', p);
    run', events' := ChildSucceeds(run', events', p);
  }

  /** A shell that is alone can finish its next operation with success, building sd-locker
      first if there is none. */
  lemma Finishes(run: seq<State>, events: seq<Event>, p: nat) returns (run': seq<State>, events': seq<Event>)
    requires StartedRun(run, events) && Alone(run[|run| - 1], p)
    ensures StartedRun(run', events') && Continues(run, run')
    ensures var s, s', pr := run[|run| - 1], run'[|run'| - 1], run[|run| - 1].procs[p];
            && Same(s, s', p) && s'.procs[p] == pr.(ip := pr.ip + 1, code := true) && s'.locker.Complete?
            && s'.kernel.locks == map[] && Whole(s'.results) && Adds(s.results, s'.results, pr.script[pr.ip])
  {
    hide StartedRun, LockOf, Whole, Adds, Apply, Enabled;
    run', events' := Commands(run, events, p);
    run', events' := GivesUp(run', events', p);
    run', events' := Ends(run', events', p);
  }

  /** Shell 0 has come to operation `i` of its script, alone. */
  ghost predicate HasCome(s: State, script: Script, other: Script, i: nat) {
    && |s.procs| == 2 && s.procs[0] == Proc(0, script, i, Idle, NoChild, true)
    && s.procs[1] == Proc(1, other, 0, Idle, NoChild, true)
    && s.locker == Complete(Prebuilt) && s.kernel.locks == map[] && Whole(s.results)
    && forall r :: r in s.results ==> i <= |script| && Compile(r) in script[..i]
  }

  lemma {:induction false} ComesTo(script: Script, other: Script, i: nat) returns (run: seq<State>, events: seq<Event>)
    requires i <= |script|
    ensures StartedRun(run, events) && |run[0].procs| == 2 && run[0].procs[0].script == script
    ensures HasCome(run[|run| - 1], script, other, i)
  {
    if i == 0 {
      var s := State([Proc(0, script, 0, Idle, NoChild, true), Proc(1, other, 0, Idle, NoChild, true)],
                     map[], map[], Complete(Prebuilt), EMPTY);
      run, events := [s], [];
      assert IsRun(run, events);
    } else {
      run, events := ComesTo(script, other, i - 1);
      var s := run[|run| - 1];
      var run', events' := Finishes(run, events, 0);
      var s' := run'[|run'| - 1];
      hide StartedRun;
      assert forall r :: r in s'.results ==> r in s'.results.Keys;
      assert forall r :: Compile(r) in script[..i - 1] ==> Compile(r) in script[..i];
      assert script[i - 1] in script[..i];
      run, events := run', events';
    }
  }

  // ---------------------------------------------------------------- the theorem

  /** At the end of the run shell `p`, which has this script, executes `r` while shell `q` writes it. */
  ghost predicate Clash(run: seq<State>, events: seq<Event>, script: Script, p: nat, q: nat, r: string) {
    && StartedRun(run, events)
    && var s := run[|run| - 1];
       && p < |s.procs| && q < |s.procs| && s.procs[p].script == script
       && Executes(s.procs[p], r) && Writes(s.procs[q], r)
  }

  /** A script that executes a program before it has compiled it clashes with any shell
      that compiles it, though all keep to the locks. */
  lemma LocksAreNotEnough(script: Script, i: nat, r: string) returns (run: seq<State>, events: seq<Event>)
    requires i < |script| && script[i].Exec? && script[i].uses == Some(r) && Compile(r) !in script[..i]
    requires script[i].lockFile != LockOf(Compile(r))
    ensures Clash(run, events, script, 0, 1, r)
  {
    hide StartedRun, LockOf, Whole, Apply, Enabled;
    run, events := ComesTo(script, [Compile(r)], i);
    LockIs(script[i]);
    run, events := Acquires(run, events, 0);
    run, events := Acquires(run, events, 1);
    run, events := Forks(run, events, 0);
    run, events := Forks(run, events, 1);
    run, events := StartsToLink(run, events, 1);
  }

  lemma LockIs(op: Op)
    requires op.Exec?
    ensures LockOf(op) == op.lockFile
  {
  }

  /** Every command that executes a support program comes after its compilation, or
      runs under the lock that compiles it. */
  ghost predicate Guarded(script: Script) {
    forall i :: 0 <= i < |script| && script[i].Exec? && script[i].uses.Some? ==>
      var compile := Compile(script[i].uses.value);
      compile in script[..i] || script[i].lockFile == LockOf(compile)
  }

  /** A guarded script does not clash. */
  lemma GuardedIsSafe(run: seq<State>, events: seq<Event>, script: Script, p: nat, q: nat, r: string)
    requires Guarded(script)
    ensures !Clash(run, events, script, p, q, r)
  {
    hide Init;
    if Clash(run, events, script, p, q, r) {
      var pr := run[|run| - 1].procs[p];
      if Compile(r) in script[..pr.ip] {
        NoWriteAfterCompilation(run, events, |run| - 1, p, r);
      } else {
        LockIs(script[pr.ip]);
        NoWriteUnderItsLock(run, events, |run| - 1, p, r);
      }
    }
  }

  /** A script is safe in every run with any other shells if and only if it is guarded. */
  lemma SafeIffGuarded(script: Script)
    ensures Guarded(script) <==> !(exists run, events, p, q, r :: Clash(run, events, script, p, q, r))
  {
    hide Clash;
    if Guarded(script) {
      forall run, events, p: nat, q: nat, r ensures !Clash(run, events, script, p, q, r) {
        GuardedIsSafe(run, events, script, p, q, r);
      }
    } else {
      hide LockOf;
      var i :| 0 <= i < |script| && script[i].Exec? && script[i].uses.Some? &&
               Compile(script[i].uses.value) !in script[..i] &&
               script[i].lockFile != LockOf(Compile(script[i].uses.value));
      var run, events := LocksAreNotEnough(script, i, script[i].uses.value);
    }
  }
}
