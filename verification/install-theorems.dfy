/** What the runs of the installer and of the deinstaller over one table do together. */
module InstallTheorems {
  import opened Wrappers
  import opened Paths
  import opened OsModel
  import opened InstallCore
  import opened InstallItems
  import opened InstallPlans
  import opened InstallDrivers
  import opened RoundTrip

  ghost predicate AllOk(statuses: seq<Status>) { forall i :: 0 <= i < |statuses| ==> statuses[i].Ok? }

  ghost predicate Plans(e: Setting, lines: seq<Line>, naming: Naming, ps: seq<Plan>) {
    |ps| == |lines| && forall i :: 0 <= i < |lines| ==> PlanFor(e, lines[i], naming) == Some(ps[i])
  }

  /** Links have a directory and relative names, of which the deinstaller's buffer loses nothing. */
  ghost predicate WellNamed(line: Line, naming: Naming) {
    line.op.InstSymlink? || line.op.InstLiblink? ==>
      match Translated(line.op, false, line.names, naming)
      case None => true
      case Some(n) =>
        n.dir.Some? && n.dst.Some? ==>
          n.dir.value != "" && !Absolute(n.dst.value) && CutHarmless(n.dir.value + "/" + n.dst.value)
  }

  lemma InstallationIsRun(e: Setting, lines: seq<Line>, naming: Naming,
                          t: Tree, trees: seq<Tree>, statuses: seq<Status>)
    returns (ps: seq<Plan>)
    requires Installation(e, lines, naming, false, t, trees, statuses)
    requires |statuses| == |lines| && AllOk(statuses)
    ensures Plans(e, lines, naming, ps) && Run(ps, [t] + trees)
  {
    hide PlanFor, Done, Failed;
    forall i | 0 <= i < |lines|
      ensures PlanFor(e, lines[i], naming).Some?
      ensures Done(PlanFor(e, lines[i], naming).value, ([t] + trees)[i], ([t] + trees)[i + 1])
    {
      assert Stepped(PlanFor(e, lines[i], naming), false, Before(t, trees, i), trees[i], statuses[i]);
    }
    ps := seq(|lines|, i requires 0 <= i < |lines| => PlanFor(e, lines[i], naming).value);
  }

  lemma UndoIsForKey(e: Setting, line: Line, naming: Naming)
    requires PlanFor(e, line, naming).Some? && WellNamed(line, naming)
    ensures UndoFor(e.cwd, line, naming) == Some(PlanFor(e, line, naming).value.key)
    ensures PlanFor(e, line, naming).value.DirPlan? <==> line.op.InstMkdir?
  {
    hide Translated, Resolve, TmpName, Fit;
    var n := Translated(line.op, false, line.names, naming).value;
    if line.op.InstSymlink? || line.op.InstLiblink? {
      LinkIsUndone(e.cwd, n.dir.value, n.dst.value);
    } else {
      UndoIsPlanned(e, line, naming);
    }
  }

  lemma DeinstallationIsReverse(e: Setting, lines: seq<Line>, naming: Naming, ps: seq<Plan>,
                                t: Tree, trees: seq<Tree>, statuses: seq<Status>)
    returns (us: seq<Tree>)
    requires Plans(e, lines, naming, ps)
    requires forall i :: 0 <= i < |lines| ==> WellNamed(lines[i], naming)
    requires Deinstallation(e.cwd, lines, naming, false, t, trees, statuses)
    requires |statuses| == |lines| && AllOk(statuses)
    ensures Reverse(ps, us) && us[|ps|] == t && us[0] == Before(t, trees, |trees|)
  {
    hide PlanFor, UndoFor, Removable, WellNamed, Undone, Plans, Deinstallation;
    SameLength(e, lines, naming, ps, t, trees, statuses);
    var n := |lines|;
    us := seq(n + 1, i requires 0 <= i <= n => Before(t, trees, n - i));
    forall i | 0 <= i < n
      ensures Removable(us[i + 1], ps[i].key, ps[i].DirPlan?) && us[i] == us[i + 1] - {ps[i].key}
    {
      UndoneAt(e, lines, naming, ps, t, trees, statuses, i);
    }
  }

  lemma SameLength(e: Setting, lines: seq<Line>, naming: Naming, ps: seq<Plan>,
                   t: Tree, trees: seq<Tree>, statuses: seq<Status>)
    requires Plans(e, lines, naming, ps)
    requires Deinstallation(e.cwd, lines, naming, false, t, trees, statuses)
    ensures |ps| == |lines| && |trees| == |statuses|
  {
  }

  lemma UndoneAt(e: Setting, lines: seq<Line>, naming: Naming, ps: seq<Plan>,
                 t: Tree, trees: seq<Tree>, statuses: seq<Status>, i: nat)
    requires Plans(e, lines, naming, ps) && i < |lines| && WellNamed(lines[i], naming)
    requires Deinstallation(e.cwd, lines, naming, false, t, trees, statuses)
    requires |statuses| == |lines| && AllOk(statuses)
    ensures var before, after := Before(t, trees, |lines| - i - 1), Before(t, trees, |lines| - i);
            Removable(before, ps[i].key, ps[i].DirPlan?) && after == before - {ps[i].key}
  {
    hide PlanFor, UndoFor, Removable, WellNamed;
    UndoIsForKey(e, lines[i], naming);
    var k := |lines| - 1 - i;
    assert Undone(UndoFor(e.cwd, lines[|lines| - 1 - k], naming),
            lines[|lines| - 1 - k].op.InstMkdir?, false,
                  Before(t, trees, k), trees[k], statuses[k]);
  }

  /** The round trip: the installer and then the deinstaller run over the table
      without errors.  What is left are the old nodes, and unlisted directories above
      listed ones; and all the old nodes are back if and only if none of them had the
      name of a temporary file. */
  lemma TableRoundTrip(e: Setting, lines: seq<Line>, naming: Naming,
                       t: Tree, trees: seq<Tree>, statuses: seq<Status>, untrees: seq<Tree>, unstatuses: seq<Status>)
    returns (ps: seq<Plan>)
    requires Installation(e, lines, naming, false, t, trees, statuses)
    requires Deinstallation(e.cwd, lines, naming, false, Before(t, trees, |trees|), untrees, unstatuses)
    requires |statuses| == |unstatuses| == |lines| && AllOk(statuses) && AllOk(unstatuses) && Valid(t)
    requires forall i :: 0 <= i < |lines| ==> WellNamed(lines[i], naming)
    ensures Plans(e, lines, naming, ps)
    ensures Fresh(ps, t) ==>
              var last := Before(Before(t, trees, |trees|), untrees, |untrees|);
              && (forall x :: x in last ==>
                   || (x in t && last[x] == t[x])
                   || (last[x].Dir? && Above(ps, |ps|, x) && !Listed(ps, |ps|, x)))
              && ((forall x :: x in t ==> x in last && last[x] == t[x]) <==>
                      (forall x :: x in t ==> !Temporary(ps, |ps|, x)))
  {
    hide WellNamed, Installation, Deinstallation, Fresh, Valid, Above, Temporary, Listed, Run, Reverse;
    ps := InstallationIsRun(e, lines, naming, t, trees, statuses);
    var us := DeinstallationIsReverse(e, lines, naming, ps, Before(t, trees, |trees|), untrees,
        unstatuses);
    if Fresh(ps, t) {
      Lengths(e, lines, naming, t, trees, statuses);
      assert ([t] + trees)[|ps|] == Before(t, trees, |trees|);
      InstallThenDeinstall(ps, [t] + trees, us);
    }
  }

  lemma Lengths(e: Setting, lines: seq<Line>, naming: Naming,
                t: Tree, trees: seq<Tree>, statuses: seq<Status>)
    requires Installation(e, lines, naming, false, t, trees, statuses)
    ensures |trees| == |statuses|
  {
  }
}
