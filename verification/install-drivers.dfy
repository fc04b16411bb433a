/** installer.c and deinstaller.c: the loops over the installation table, and
    install() and deinstall() of install-core.c that they call for each item. */
module InstallDrivers {
  import opened Bytes
  import opened Wrappers
  import opened Strings
  import opened Paths
  import opened OsModel
  import opened InstallCore
  import opened InstallItems
  import opened InstallPlans
  import opened InstallOps

  function LineOf(item: Item): Line
    reads item, item.src, item.dst, item.dir
  {
    Line(item.op, NamesOf(item), item.owner, item.group, item.perm)
  }

  /** The item is still as the program text has it. */
  ghost predicate Ready(b: Buffers, item: Item, line: Line)
    reads item, item.src, item.dst, item.dir
  {
    && b.Valid() && Sound(item) && Apart(b, item)
    && LineOf(item) == line
    && (item.op.InstMkdir? ==> item.dir != null)
  }

  /** A directory whose name install_rmkdir refuses. */
  predicate TooLong(line: Line) {
    line.op.InstMkdir? && line.names.dir.Some? && |line.names.dir.value| >= MAX_PATHLEN
  }

  ghost predicate Distinct(items: seq<Item>) { forall i, j :: 0 <= i < j < |items| ==> items[i] != items[j] }

  /** install(): translate the names, then call the operator. */
  method Install(os: Os, b: Buffers, item: Item, dry: bool, buf: array<byte>, ghost line: Line) returns (status: Status)
    requires Ready(b, item, line) && buf.Length > 0
    modifies item`src, item`dst, b.All(), os`tree, os`history, os`failures, os`cwd, buf
    ensures Stepped(PlanFor(old(os.Current()), line, b.naming), dry, old(os.tree), os.tree, status)
    ensures !status.Fatal? ==> os.cwd == old(os.cwd)
    ensures status.Ok? && item.op.InstCopy? ==> item.dst == b.copyDst
    ensures os.failures >= old(os.failures)
    ensures !TooLong(line) ==>
              FailsFor(PlanFor(old(os.Current()), line, b.naming), status, old(os.failures), os.failures)
  {
    hide Stepped, Translated, OpPlan, Chars;
    status := Translate(b, item, false);
    if !status.Ok? {
      NoPlan(os.tree, dry, status);
      return;
    }
    TranslatedNames(line.op, line.names, b.naming);
    match item.op
    case InstCopy => status := CopyItem(os, item, dry, buf);
    case InstCopyExec => status := CopyItem(os, item, dry, buf);
    case InstSymlink => status := LinkItem(os, item, dry);
    case InstMkdir => status := MkdirItem(os, item, dry);
    case InstLiblink => status := LinkItem(os, item, dry);
  }

  lemma NoPlan(t: Tree, dry: bool, status: Status)
    requires !status.Ok?
    ensures Stepped(None, dry, t, t, status)
    ensures Undone(None, true, dry, t, t, status) && Undone(None, false, dry, t, t, status)
  {
  }

  /** Which names a translation leaves. */
  lemma TranslatedNames(op: Op, n: Names, naming: Naming)
    ensures var m := Translated(op, false, n, naming);
            m.Some? ==> m.value.dir == n.dir && (!op.InstMkdir? ==> m.value.src.Some? && m.value.dst.Some?)
                        && (!op.InstMkdir? ==> m.value.dir.Some?)
  {
  }

  /** The items up to the first fatal status have been gone through in order. */
  ghost predicate Installation(e: Setting, lines: seq<Line>, naming: Naming, dry: bool,
                               t: Tree, trees: seq<Tree>, statuses: seq<Status>) {
    && |trees| == |statuses| <= |lines|
    && (forall i :: 0 <= i < |statuses| - 1 ==> !statuses[i].Fatal?)
    && forall i :: 0 <= i < |statuses| ==>
         Stepped(PlanFor(e, lines[i], naming), dry, Before(t, trees, i), trees[i], statuses[i])
  }

  /** The items from `lo` up to `hi` are still as the program text has them. */
  ghost predicate Untouched(b: Buffers, items: seq<Item>, lines: seq<Line>, lo: int, hi: int)
    reads *
  {
    |items| == |lines| && Distinct(items) && b.Valid() &&
    forall j :: 0 <= lo <= j < hi <= |items| ==> Ready(b, items[j], lines[j])
  }

  /** The copies made so far share the buffer for their destination. */
  ghost predicate Shared(b: Buffers, items: seq<Item>, statuses: seq<Status>)
    reads items
  {
    forall j :: 0 <= j < |statuses| <= |items| && statuses[j].Ok? && items[j].op.InstCopy? ==> items[j].dst == b.copyDst
  }

  method InstallNext(os: Os, b: Buffers, items: seq<Item>, i: nat, dry: bool, buf: array<byte>, ghost lines: seq<Line>,
                     ghost t: Tree, ghost trees: seq<Tree>, ghost statuses: seq<Status>) returns (status: Status)
    requires i < |items| && Untouched(b, items, lines, i, |items|) && buf.Length > 0 && |statuses| == |trees| == i
    requires Installation(os.Current(), lines, b.naming, dry, t, trees, statuses)
    requires (forall s :: s in statuses ==> !s.Fatal?) && os.tree == Before(t, trees, i) && Shared(b, items, statuses)
    modifies items[i], b.All(), os, buf
    ensures Untouched(b, items, lines, i + 1, |items|) && Shared(b, items, statuses + [status])
    ensures Installation(old(os.Current()), lines, b.naming, dry, t, trees + [os.tree],
            statuses + [status])
    ensures os.tree == Before(t, trees + [os.tree], i + 1)
    ensures !status.Fatal? ==> os.Current() == old(os.Current())
    ensures os.failures >= old(os.failures)
    ensures !TooLong(lines[i]) ==>
              FailsFor(PlanFor(old(os.Current()), lines[i], b.naming), status, old(os.failures), os.failures)
  {
    hide Stepped, PlanFor, Installation, Chars;
    ghost var e := os.Current();
    status := Install(os, b, items[i], dry, buf, lines[i]);
    GoesOn(e, lines, b.naming, dry, t, trees, statuses, os.tree, status);
  }

  /** The loop of installer.c. */
  method Installer(os: Os, b: Buffers, items: seq<Item>, dry: bool, buf: array<byte>, ghost lines: seq<Line>)
    returns (code: int, ghost trees: seq<Tree>, ghost statuses: seq<Status>)
    requires Untouched(b, items, lines, 0, |items|) && buf.Length > 0
    modifies items, b.All(), os, buf
    ensures Installation(old(os.Current()), lines, b.naming, dry, old(os.tree), trees, statuses)
    ensures os.tree == Before(old(os.tree), trees, |trees|)
    ensures code == 0 || code == 112
    ensures code == 0 ==> |statuses| == |items| && os.cwd == old(os.cwd) && forall s :: s in statuses ==> !s.Fatal?
    ensures code == 112 ==> statuses != [] && statuses[|statuses| - 1].Fatal?
    ensures Shared(b, items, statuses)
    ensures os.failures == old(os.failures) && AllAsked(old(os.Current()), lines, b.naming) ==>
              code == 0 && forall s :: s in statuses ==> s.Ok?
  {
    trees, statuses := [], [];
    ghost var e := os.Current();
    NotStarted(e, lines, b.naming, dry, os.tree);
    hide Installation, Untouched, Shared, Before, AllAsked, PlanFor, TooLong;
    SameLines(b, items, lines);
    assert Shared(b, items, []) by { NoneShared(b, items); }
    var i := 0;
    while i < |items|
      invariant i <= |items| && |statuses| == |trees| == i && os.Current() == e
      invariant forall s :: s in statuses ==> !s.Fatal?
      invariant Installation(e, lines, b.naming, dry, old(os.tree), trees, statuses)
      invariant os.tree == Before(old(os.tree), trees, i)
      invariant Untouched(b, items, lines, i, |items|) && Shared(b, items, statuses)
      invariant os.failures >= old(os.failures)
      invariant os.failures == old(os.failures) && AllAsked(e, lines, b.naming) ==> forall s :: s in statuses ==> s.Ok?
    {
      AskedAt(e, lines, b.naming, i);
      var status := InstallNext(os, b, items, i, dry, buf, lines, old(os.tree), trees, statuses);
      trees, statuses := trees + [os.tree], statuses + [status];
      if status.Fatal? {
        return 112, trees, statuses;
      }
      i := i + 1;
    }
    return 0, trees, statuses;
  }

  /** Every line asks for something that can be named. */
  ghost predicate AllAsked(e: Setting, lines: seq<Line>, naming: Naming) {
    forall i :: 0 <= i < |lines| ==> PlanFor(e, lines[i], naming).Some? && !TooLong(lines[i])
  }

  lemma SameLines(b: Buffers, items: seq<Item>, lines: seq<Line>)
    requires Untouched(b, items, lines, 0, |items|)
    ensures |items| == |lines|
  {
  }

  lemma AskedAt(e: Setting, lines: seq<Line>, naming: Naming, i: nat)
    requires i < |lines|
    ensures AllAsked(e, lines, naming) ==> PlanFor(e, lines[i], naming).Some? && !TooLong(lines[i])
  {
  }

  lemma NoneShared(b: Buffers, items: seq<Item>)
    ensures Shared(b, items, [])
  {
  }

  lemma NotStarted(e: Setting, lines: seq<Line>, naming: Naming, dry: bool, t: Tree)
    ensures Installation(e, lines, naming, dry, t, [], []) && Before(t, [], 0) == t
  {
  }

  lemma GoesOn(e: Setting, lines: seq<Line>, naming: Naming, dry: bool,
               t: Tree, trees: seq<Tree>, statuses: seq<Status>, after: Tree, status: Status)
    requires Installation(e, lines, naming, dry, t, trees, statuses)
    requires (forall s :: s in statuses ==> !s.Fatal?) && |trees| < |lines|
    requires Stepped(PlanFor(e, lines[|trees|], naming), dry, Before(t, trees, |trees|), after, status)
    ensures Installation(e, lines, naming, dry, t, trees + [after], statuses + [status])
    ensures Before(t, trees + [after], |trees| + 1) == after
  {
    hide Stepped, PlanFor;
    var trees', statuses' := trees + [after], statuses + [status];
    forall i | 0 <= i < |statuses'|
      ensures Stepped(PlanFor(e, lines[i], naming), dry, Before(t, trees', i), trees'[i], statuses'[i])
    {
      assert Before(t, trees', i) == Before(t, trees, i);
    }
  }

  // ---------------------------------------------------------------- deinstaller.c

  /** deinstall(). */
  method Deinstall(os: Os, b: Buffers, item: Item, dry: bool, ghost line: Line) returns (status: Status)
    requires Ready(b, item, line)
    modifies item`src, item`dst, b.All(), os`tree, os`history, os`failures
    ensures Undone(UndoFor(os.cwd, line, b.naming), line.op.InstMkdir?, dry, old(os.tree), os.tree,
            status)
    ensures FailsFor(UndoFor(os.cwd, line, b.naming), status, old(os.failures), os.failures)
  {
    hide Undone, Translated, OpUndo, Chars;
    status := Translate(b, item, false);
    if !status.Ok? {
      NoPlan(os.tree, dry, status);
      return;
    }
    TranslatedNames(line.op, line.names, b.naming);
    match item.op
    case InstCopy => status := DeinstCopy(os, item, dry);
    case InstCopyExec => status := DeinstCopy(os, item, dry);
    case InstSymlink => status := DeinstLink(os, item, dry);
    case InstMkdir => status := DeinstMkdir(os, item, dry);
    case InstLiblink => status := DeinstLink(os, item, dry);
  }

  /** The items down to the first fatal status have been gone through, last one first. */
  ghost predicate Deinstallation(cwd: Key, lines: seq<Line>, naming: Naming, dry: bool,
                                 t: Tree, trees: seq<Tree>, statuses: seq<Status>) {
    && |trees| == |statuses| <= |lines|
    && (forall i :: 0 <= i < |statuses| - 1 ==> !statuses[i].Fatal?)
    && forall k :: 0 <= k < |statuses| ==>
         var line := lines[|lines| - 1 - k];
         Undone(UndoFor(cwd, line, naming), line.op.InstMkdir?, dry, Before(t, trees, k), trees[k],
             statuses[k])
  }

  method DeinstallNext(os: Os, b: Buffers, items: seq<Item>, i: nat, dry: bool, ghost lines: seq<Line>,
                       ghost t: Tree, ghost trees: seq<Tree>, ghost statuses: seq<Status>) returns (status: Status)
    requires i < |items| && Untouched(b, items, lines, 0, i + 1) && |statuses| == |trees| == |items| - 1 - i
    requires Deinstallation(os.cwd, lines, b.naming, dry, t, trees, statuses)
    requires (forall s :: s in statuses ==> !s.Fatal?) && os.tree == Before(t, trees, |trees|)
    modifies items[i], b.All(), os`tree, os`history, os`failures
    ensures Untouched(b, items, lines, 0, i)
    ensures Deinstallation(os.cwd, lines, b.naming, dry, t, trees + [os.tree], statuses + [status])
    ensures os.tree == Before(t, trees + [os.tree], |trees| + 1)
    ensures FailsFor(UndoFor(os.cwd, lines[i], b.naming), status, old(os.failures), os.failures)
  {
    hide Undone, UndoFor, Deinstallation, Chars;
    status := Deinstall(os, b, items[i], dry, lines[i]);
    GoesBack(os.cwd, lines, b.naming, dry, t, trees, statuses, os.tree, status);
  }

  /** The loop of deinstaller.c, which does not expect an empty table. */
  method Deinstaller(os: Os, b: Buffers, items: seq<Item>, dry: bool, ghost lines: seq<Line>)
    returns (code: int, ghost trees: seq<Tree>, ghost statuses: seq<Status>)
    requires |items| > 0 && Untouched(b, items, lines, 0, |items|)
    modifies items, b.All(), os`tree, os`history, os`failures
    ensures Deinstallation(os.cwd, lines, b.naming, dry, old(os.tree), trees, statuses)
    ensures os.tree == Before(old(os.tree), trees, |trees|)
    ensures code == 0 || code == 112
    ensures code == 0 ==> |statuses| == |items| && forall s :: s in statuses ==> !s.Fatal?
    ensures code == 112 ==> statuses != [] && statuses[|statuses| - 1].Fatal?
    ensures os.failures == old(os.failures) && AllUndoable(os.cwd, lines, b.naming) ==>
              code == 0 && forall s :: s in statuses ==> s.Ok?
  {
    trees, statuses := [], [];
    NotStartedBack(os.cwd, lines, b.naming, dry, os.tree);
    SameLines(b, items, lines);
    hide Deinstallation, Untouched, Before, UndoFor, AllUndoable;
    var i := |items| - 1;
    while true
      invariant 0 <= i < |items| && |statuses| == |trees| == |items| - 1 - i
      invariant forall s :: s in statuses ==> !s.Fatal?
      invariant Deinstallation(os.cwd, lines, b.naming, dry, old(os.tree), trees, statuses)
      invariant os.tree == Before(old(os.tree), trees, |trees|)
      invariant Untouched(b, items, lines, 0, i + 1) && os.failures >= old(os.failures)
      invariant os.failures == old(os.failures) && AllUndoable(os.cwd, lines, b.naming) ==>
                  forall s :: s in statuses ==> s.Ok?
      decreases i
    {
      UndoableAt(os.cwd, lines, b.naming, i);
      var status := DeinstallNext(os, b, items, i, dry, lines, old(os.tree), trees, statuses);
      trees, statuses := trees + [os.tree], statuses + [status];
      if status.Fatal? {
        return 112, trees, statuses;
      }
      if i == 0 {
        return 0, trees, statuses;
      }
      i := i - 1;
    }
  }

  ghost predicate AllUndoable(cwd: Key, lines: seq<Line>, naming: Naming) {
    forall i :: 0 <= i < |lines| ==> UndoFor(cwd, lines[i], naming).Some?
  }

  lemma UndoableAt(cwd: Key, lines: seq<Line>, naming: Naming, i: nat)
    requires i < |lines|
    ensures AllUndoable(cwd, lines, naming) ==> UndoFor(cwd, lines[i], naming).Some?
  {
  }

  lemma NotStartedBack(cwd: Key, lines: seq<Line>, naming: Naming, dry: bool, t: Tree)
    ensures Deinstallation(cwd, lines, naming, dry, t, [], []) && Before(t, [], 0) == t
  {
  }

  lemma GoesBack(cwd: Key, lines: seq<Line>, naming: Naming, dry: bool,
                 t: Tree, trees: seq<Tree>, statuses: seq<Status>, after: Tree, status: Status)
    requires Deinstallation(cwd, lines, naming, dry, t, trees, statuses)
    requires (forall s :: s in statuses ==> !s.Fatal?) && |trees| < |lines|
    requires var line := lines[|lines| - 1 - |trees|];
             Undone(UndoFor(cwd, line, naming), line.op.InstMkdir?, dry, Before(t, trees, |trees|),
                 after, status)
    ensures Deinstallation(cwd, lines, naming, dry, t, trees + [after], statuses + [status])
    ensures Before(t, trees + [after], |trees| + 1) == after
  {
    hide Undone, UndoFor;
    var trees', statuses' := trees + [after], statuses + [status];
    forall k | 0 <= k < |statuses'|
      ensures var line := lines[|lines| - 1 - k];
              Undone(UndoFor(cwd, line, naming), line.op.InstMkdir?, dry,
                     Before(t, trees', k), trees'[k], statuses'[k])
    {
      assert Before(t, trees', k) == Before(t, trees, k);
    }
  }
}
