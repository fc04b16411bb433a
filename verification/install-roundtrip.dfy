/** Installing and deinstalling whole tables: what an installation without errors
    leaves in the tree, when a deinstallation can take it all back, and what the
    two together leave. */
module RoundTrip {
  import opened Paths
  import opened OsModel
  import opened InstallCore
  import opened InstallPlans

  /** An installation without errors: the tree before it, and after each item. */
  ghost predicate Run(ps: seq<Plan>, ts: seq<Tree>) {
    |ts| == |ps| + 1 && forall i :: 0 <= i < |ps| ==> Done(ps[i], ts[i], ts[i + 1])
  }

  /** Every item has a node of its own, which is new, and no copy is the temporary
      file of another. */
  ghost predicate Fresh(ps: seq<Plan>, t: Tree) {
    && (forall i :: 0 <= i < |ps| ==> ps[i].key !in t)
    && (forall i, j :: 0 <= i < j < |ps| ==> ps[i].key != ps[j].key)
    && (forall i, j :: 0 <= i < |ps| && 0 <= j < |ps| && i != j && ps[i].CopyPlan? && ps[j].CopyPlan? ==>
         ps[j].key != ps[i].tmp)
  }

  ghost predicate Listed(ps: seq<Plan>, n: nat, x: Key)
    requires n <= |ps|
  {
    exists j :: 0 <= j < n && ps[j].key == x
  }

  /** A directory above one of the first `n` listed directories. */
  ghost predicate Above(ps: seq<Plan>, n: nat, x: Key)
    requires n <= |ps|
  {
    exists j :: 0 <= j < n && ps[j].DirPlan? && x < ps[j].key
  }

  ghost predicate Temporary(ps: seq<Plan>, n: nat, x: Key)
    requires n <= |ps|
  {
    exists j :: 0 <= j < n && ps[j].CopyPlan? && ps[j].tmp == x
  }

  predicate Kind(p: Plan, node: Node) {
    match p
    case CopyPlan(_, _, _, _, _, _) => node.File?
    case DirPlan(_, _, _, _, _) => node.Dir?
    case LinkPlan(_, _) => node.Link?
  }

  // ---------------------------------------------------------------- what has been built

  /** Old nodes stay, but for files with the name of a temporary file. */
  ghost predicate OldStay(ps: seq<Plan>, n: nat, t0: Tree, t: Tree)
    requires n <= |ps|
  {
    && (forall x :: x in t0 && !Temporary(ps, n, x) ==> x in t && t[x] == t0[x])
    && (forall x :: x in t0 && Temporary(ps, n, x) ==> t0[x].File? && (x in t ==> t[x].Dir?))
  }

  /** Nothing is there but old nodes, listed ones and directories above those. */
  ghost predicate NewAreListed(ps: seq<Plan>, n: nat, t0: Tree, t: Tree)
    requires n <= |ps|
  {
    forall x :: x in t ==> (x in t0 && t[x] == t0[x]) || Listed(ps, n, x) || (t[x].Dir? && Above(ps, n, x))
  }

  ghost predicate ListedAreThere(ps: seq<Plan>, n: nat, t: Tree)
    requires n <= |ps|
  {
    forall j :: 0 <= j < n ==> ps[j].key in t && Kind(ps[j], t[ps[j].key])
  }

  ghost predicate Built(ps: seq<Plan>, n: nat, t0: Tree, t: Tree)
    requires n <= |ps|
  {
    Valid(t) && OldStay(ps, n, t0, t) && NewAreListed(ps, n, t0, t) && ListedAreThere(ps, n, t)
  }

  lemma Wider(ps: seq<Plan>, n: nat, x: Key)
    requires n < |ps|
    ensures Listed(ps, n, x) ==> Listed(ps, n + 1, x)
    ensures Above(ps, n, x) ==> Above(ps, n + 1, x)
    ensures Temporary(ps, n, x) ==> Temporary(ps, n + 1, x)
    ensures Listed(ps, n + 1, ps[n].key)
    ensures ps[n].DirPlan? && x < ps[n].key ==> Above(ps, n + 1, x)
    ensures Temporary(ps, n + 1, x) ==> Temporary(ps, n, x) || (ps[n].CopyPlan? && ps[n].tmp == x)
  {
  }

  /** The node of the next item is not there yet, except as a directory above an earlier one. */
  lemma NextIsNew(ps: seq<Plan>, n: nat, t0: Tree, t: Tree)
    requires n < |ps| && Fresh(ps, t0) && Built(ps, n, t0, t)
    ensures ps[n].key in t ==> t[ps[n].key].Dir? && Above(ps, n, ps[n].key)
  {
  }

  /** One item without an error, seen from the other nodes. */
  ghost predicate Grew(p: Plan, t: Tree, t': Tree) {
    && p.key in t' && Kind(p, t'[p.key]) && Valid(t')
    && (forall x :: x in t && x != p.key && !(p.CopyPlan? && x == p.tmp) ==> x in t' && t'[x] == t[x])
    && (forall x :: x in t' && x != p.key ==>
         || (x in t && t'[x] == t[x] && !(p.CopyPlan? && x == p.tmp))
         || (p.DirPlan? && x < p.key && t'[x].Dir? && x !in t))
    && (p.CopyPlan? && p.tmp in t ==> t[p.tmp].File?)
  }

  lemma CopyIsValid(p: Plan, t: Tree, t': Tree)
    requires p.CopyPlan? && Done(p, t, t') && Valid(t)
    requires p.key in t ==> t[p.key].Dir?
    ensures Valid(t') && p.key !in t
  {
    hide OwnedFrom;
  }

  lemma CopyGrows(p: Plan, t: Tree, t': Tree)
    requires p.CopyPlan? && Done(p, t, t') && Valid(t)
    requires p.key in t ==> t[p.key].Dir?
    ensures Grew(p, t, t')
  {
    CopyIsValid(p, t, t');
    hide OwnedFrom, Valid;
  }

  lemma DirGrows(p: Plan, t: Tree, t': Tree)
    requires p.DirPlan? && Done(p, t, t') && Valid(t)
    requires p.key in t ==> t[p.key].Dir?
    ensures Grew(p, t, t')
  {
    hide OwnedFrom, Permissions;
  }

  lemma LinkGrows(p: Plan, t: Tree, t': Tree)
    requires p.LinkPlan? && Done(p, t, t') && Valid(t)
    ensures Grew(p, t, t')
  {
  }

  lemma OldStayOn(ps: seq<Plan>, n: nat, t0: Tree, t: Tree, t': Tree)
    requires n < |ps| && Fresh(ps, t0) && OldStay(ps, n, t0, t) && Grew(ps[n], t, t')
    ensures OldStay(ps, n + 1, t0, t')
  {
    hide Temporary, Valid;
    forall x | x in t0
      ensures !Temporary(ps, n + 1, x) ==> x in t' && t'[x] == t0[x]
      ensures Temporary(ps, n + 1, x) ==> t0[x].File? && (x in t' ==> t'[x].Dir?)
    {
      Wider(ps, n, x);
      TmpIsTemporary(ps, n);
    }
  }

  lemma TmpIsTemporary(ps: seq<Plan>, n: nat)
    requires n < |ps|
    ensures ps[n].CopyPlan? ==> Temporary(ps, n + 1, ps[n].tmp)
  {
  }

  lemma NewStayListed(ps: seq<Plan>, n: nat, t0: Tree, t: Tree, t': Tree)
    requires n < |ps| && NewAreListed(ps, n, t0, t) && Grew(ps[n], t, t')
    ensures NewAreListed(ps, n + 1, t0, t')
  {
    hide Listed, Above, Valid;
    forall x | x in t'
      ensures (x in t0 && t'[x] == t0[x]) || Listed(ps, n + 1, x) || (t'[x].Dir? && Above(ps, n + 1, x))
    {
      Wider(ps, n, x);
    }
  }

  lemma ListedStay(ps: seq<Plan>, n: nat, t0: Tree, t: Tree, t': Tree)
    requires n < |ps| && Fresh(ps, t0) && ListedAreThere(ps, n, t) && Grew(ps[n], t, t')
    ensures ListedAreThere(ps, n + 1, t')
  {
    hide Valid;
  }

  lemma NextGrows(ps: seq<Plan>, n: nat, t0: Tree, t: Tree, t': Tree)
    requires n < |ps| && Fresh(ps, t0) && Built(ps, n, t0, t) && Done(ps[n], t, t')
    ensures Grew(ps[n], t, t')
  {
    NextIsNew(ps, n, t0, t);
    hide Fresh, OldStay, NewAreListed, ListedAreThere, Valid, Done;
    match ps[n]
    case CopyPlan(_, _, _, _, _, _) => CopyGrows(ps[n], t, t');
    case DirPlan(_, _, _, _, _) => DirGrows(ps[n], t, t');
    case LinkPlan(_, _) => LinkGrows(ps[n], t, t');
  }

  lemma NextBuilds(ps: seq<Plan>, n: nat, t0: Tree, t: Tree, t': Tree)
    requires n < |ps| && Fresh(ps, t0) && Built(ps, n, t0, t) && Done(ps[n], t, t')
    ensures Built(ps, n + 1, t0, t')
  {
    NextGrows(ps, n, t0, t, t');
    assert Valid(t') by { hide Valid; }
    hide Fresh, OldStay, NewAreListed, ListedAreThere, Valid, Done, Grew;
    OldStayOn(ps, n, t0, t, t');
    NewStayListed(ps, n, t0, t, t');
    ListedStay(ps, n, t0, t, t');
  }

  lemma {:induction false} RunBuilds(ps: seq<Plan>, ts: seq<Tree>, n: nat)
    requires Run(ps, ts) && Valid(ts[0]) && Fresh(ps, ts[0]) && n <= |ps|
    ensures Built(ps, n, ts[0], ts[n])
  {
    hide Fresh, Valid, Built, Done;
    if n == 0 {
      NothingYet(ps, ts[0]);
    } else {
      RunBuilds(ps, ts, n - 1);
      assert Done(ps[n - 1], ts[n - 1], ts[n - 1 + 1]);
      NextBuilds(ps, n - 1, ts[0], ts[n - 1], ts[n]);
    }
  }

  lemma NothingYet(ps: seq<Plan>, t0: Tree)
    requires Valid(t0)
    ensures Built(ps, 0, t0, t0)
  {
  }

  // ---------------------------------------------------------------- the deinstallation

  /** A deinstallation without errors: us[i] is the tree when the items from the
      last down to item i have been removed. */
  ghost predicate Reverse(ps: seq<Plan>, us: seq<Tree>) {
    && |us| == |ps| + 1
    && forall i :: 0 <= i < |ps| ==> Removable(us[i + 1], ps[i].key, ps[i].DirPlan?) && us[i] == us[i + 1] - {ps[i].key}
  }

  ghost predicate ListedFrom(ps: seq<Plan>, i: nat, x: Key) {
    exists j :: i <= j < |ps| && ps[j].key == x
  }

  /** The tree without the nodes of the items from `i` on. */
  function Left(ps: seq<Plan>, i: nat, t: Tree): Tree
    requires i <= |ps|
    decreases |ps| - i
  {
    if i == |ps| then t else Left(ps, i + 1, t) - {ps[i].key}
  }

  lemma {:induction false} LeftIs(ps: seq<Plan>, i: nat, t: Tree, x: Key)
    requires i <= |ps|
    ensures x in Left(ps, i, t) <==> x in t && !ListedFrom(ps, i, x)
    ensures x in Left(ps, i, t) ==> Left(ps, i, t)[x] == t[x]
    decreases |ps| - i
  {
    if i < |ps| {
      LeftIs(ps, i + 1, t, x);
      assert ListedFrom(ps, i, x) <==> ps[i].key == x || ListedFrom(ps, i + 1, x);
    }
  }

  lemma {:induction false} ReverseLeaves(ps: seq<Plan>, us: seq<Tree>, i: nat)
    requires Reverse(ps, us) && i <= |ps|
    ensures us[i] == Left(ps, i, us[|ps|])
    decreases |ps| - i
  {
    if i < |ps| {
      ReverseLeaves(ps, us, i + 1);
    }
  }

  /** Install, then deinstall in reverse order, both without errors: what is left
      are the old nodes and the unlisted directories above listed ones, and every
      old node is back unless it had the name of a temporary file. */
  lemma InstallThenDeinstall(ps: seq<Plan>, ts: seq<Tree>, us: seq<Tree>)
    requires Run(ps, ts) && Valid(ts[0]) && Fresh(ps, ts[0])
    requires Reverse(ps, us) && us[|ps|] == ts[|ps|]
    ensures forall x :: x in us[0] ==>
              || (x in ts[0] && us[0][x] == ts[0][x])
              || (us[0][x].Dir? && Above(ps, |ps|, x) && !Listed(ps, |ps|, x))
    ensures (forall x :: x in ts[0] ==> x in us[0] && us[0][x] == ts[0][x]) <==>
            (forall x :: x in ts[0] ==> !Temporary(ps, |ps|, x))
  {
    var t0, t := ts[0], ts[|ps|];
    RunBuilds(ps, ts, |ps|);
    ReverseLeaves(ps, us, 0);
    hide Run, Reverse, Left, Valid, Above, Temporary;
    forall x
      ensures x in us[0] <==> x in t && !Listed(ps, |ps|, x)
      ensures x in us[0] ==> us[0][x] == t[x]
    {
      LeftIs(ps, 0, t, x);
    }
    assert forall x :: x in t0 ==> !Listed(ps, |ps|, x);
  }

  // ---------------------------------------------------------------- when it can be undone

  /** What is listed below a listed directory comes after it, and so do all the
      directories between the two. */
  ghost predicate Nested(ps: seq<Plan>) {
    forall i, j :: 0 <= i < |ps| && 0 <= j < |ps| && ps[i].DirPlan? && ps[i].key < ps[j].key ==>
      && i < j
      && (ps[j].DirPlan? ==> forall m :: |ps[i].key| < m < |ps[j].key| ==> Listed(ps, |ps|, ps[j].key[..m]))
  }

  /** Every call of the deinstaller finds what it can remove. */
  ghost predicate CanUndo(ps: seq<Plan>, t: Tree) {
    forall i :: 0 <= i < |ps| ==> Removable(Left(ps, i + 1, t), ps[i].key, ps[i].DirPlan?)
  }

  lemma {:induction false} PrefixesExist(t: Tree, x: Key, m: nat)
    requires Valid(t) && x in t && m <= |x|
    ensures x[..m] in t && (m < |x| ==> t[x[..m]].Dir?)
    decreases |x|
  {
    if m < |x| {
      assert Parent(x)[..m] == x[..m];
      PrefixesExist(t, Parent(x), m);
    } else {
      assert x[..m] == x;
    }
  }

  lemma {:induction false} LeftIsValid(ps: seq<Plan>, t: Tree, i: nat)
    requires Valid(t) && CanUndo(ps, t) && i <= |ps|
    ensures Valid(Left(ps, i, t))
    decreases |ps| - i
  {
    if i < |ps| {
      LeftIsValid(ps, t, i + 1);
      RemovalIsValid(Left(ps, i + 1, t), ps[i].key, ps[i].DirPlan?);
    }
  }

  lemma RemovalIsValid(t: Tree, k: Key, isDir: bool)
    requires Valid(t) && Removable(t, k, isDir)
    ensures Valid(t - {k})
  {
  }

  /** A directory with something below it cannot be removed. */
  lemma NotEmpty(t: Tree, k: Key, x: Key)
    requires Valid(t) && x in t && k < x
    ensures !Empty(t, k)
  {
    var c := x[..|k| + 1];
    PrefixesExist(t, x, |k| + 1);
    assert Parent(c) == k;
  }

  /** If directory `i` can be removed, then everything below it is listed and comes later. */
  lemma BelowIsLater(ps: seq<Plan>, t: Tree, i: nat, x: Key)
    requires Valid(t) && CanUndo(ps, t) && i < |ps| && ps[i].DirPlan? && x in t && ps[i].key < x
    ensures ListedFrom(ps, i + 1, x)
  {
    LeftIsValid(ps, t, i + 1);
    LeftIs(ps, i + 1, t, x);
    var u := Left(ps, i + 1, t);
    assert Empty(u, ps[i].key);
    hide Left, Empty, Valid, ListedFrom, CanUndo;
    if x in u {
      NotEmpty(u, ps[i].key, x);
    }
  }

  ghost predicate DistinctKeys(ps: seq<Plan>) { forall i, j :: 0 <= i < j < |ps| ==> ps[i].key != ps[j].key }

  lemma LaterIsAfter(ps: seq<Plan>, i: nat, j: nat)
    requires DistinctKeys(ps) && i < |ps| && j < |ps| && ListedFrom(ps, i + 1, ps[j].key)
    ensures i < j
  {
  }

  lemma UndoneIsNested(ps: seq<Plan>, t: Tree)
    requires Valid(t) && CanUndo(ps, t) && ListedAreThere(ps, |ps|, t) && DistinctKeys(ps)
    ensures Nested(ps)
  {
    hide Valid, Empty, CanUndo, Kind, DistinctKeys;
    forall i, j | 0 <= i < |ps| && 0 <= j < |ps| && ps[i].DirPlan? && ps[i].key < ps[j].key
      ensures i < j
      ensures forall m :: |ps[i].key| < m < |ps[j].key| ==> Listed(ps, |ps|, ps[j].key[..m])
    {
      BelowIsLater(ps, t, i, ps[j].key);
      LaterIsAfter(ps, i, j);
      forall m | |ps[i].key| < m < |ps[j].key|
        ensures Listed(ps, |ps|, ps[j].key[..m])
      {
        PrefixesExist(t, ps[j].key, m);
        BelowIsLater(ps, t, i, ps[j].key[..m]);
      }
    }
  }

  lemma NestedIsUndone(ps: seq<Plan>, t0: Tree, t: Tree)
    requires Valid(t0) && Fresh(ps, t0) && Nested(ps)
    requires NewAreListed(ps, |ps|, t0, t) && ListedAreThere(ps, |ps|, t)
    ensures CanUndo(ps, t)
  {
    hide Nested, NewAreListed, Listed, Left;
    forall i | 0 <= i < |ps|
      ensures Removable(Left(ps, i + 1, t), ps[i].key, ps[i].DirPlan?)
    {
      LeftIs(ps, i + 1, t, ps[i].key);
      if ps[i].DirPlan? {
        NothingIsBelow(ps, t0, t, i);
      }
    }
  }

  lemma NothingIsBelow(ps: seq<Plan>, t0: Tree, t: Tree, i: nat)
    requires Valid(t0) && Fresh(ps, t0) && Nested(ps) && NewAreListed(ps, |ps|, t0, t) && i < |ps| && ps[i].DirPlan?
    ensures Empty(Left(ps, i + 1, t), ps[i].key) && ps[i].key != []
  {
    hide Nested, NewAreListed, Listed, Left;
    forall c | c in Left(ps, i + 1, t) && c != []
      ensures Parent(c) != ps[i].key
    {
      LeftIs(ps, i + 1, t, c);
      if Parent(c) == ps[i].key {
        BelowAreListed(ps, t0, t, i, c);
      }
    }
  }

  lemma BetweenIsListed(ps: seq<Plan>, i: nat, j: nat, c: Key)
    requires Nested(ps) && i < |ps| && j < |ps| && ps[i].DirPlan? && ps[j].DirPlan? && ps[i].key < c < ps[j].key
    ensures Listed(ps, |ps|, c)
  {
    assert ps[j].key[..|c|] == c;
  }

  lemma BelowAreListed(ps: seq<Plan>, t0: Tree, t: Tree, i: nat, c: Key)
    requires Valid(t0) && Fresh(ps, t0) && Nested(ps) && NewAreListed(ps, |ps|, t0, t) && i < |ps| && ps[i].DirPlan?
    requires c in t && c != [] && Parent(c) == ps[i].key
    ensures ListedFrom(ps, i + 1, c)
  {
    assert c !in t0 && ps[i].key < c;
    if Above(ps, |ps|, c) {
      var j :| 0 <= j < |ps| && ps[j].DirPlan? && c < ps[j].key;
      BetweenIsListed(ps, i, j, c);
    }
  }

  /** After an installation without errors, the deinstaller can remove everything if
      and only if the listed directories are properly nested. */
  lemma UndoableIffNested(ps: seq<Plan>, ts: seq<Tree>)
    requires Run(ps, ts) && Valid(ts[0]) && Fresh(ps, ts[0])
    ensures CanUndo(ps, ts[|ps|]) <==> Nested(ps)
  {
    RunBuilds(ps, ts, |ps|);
    hide Run, Nested, CanUndo;
    if CanUndo(ps, ts[|ps|]) {
      UndoneIsNested(ps, ts[|ps|]);
    }
    if Nested(ps) {
      NestedIsUndone(ps, ts[0], ts[|ps|]);
    }
  }

  /** With "a" and "a/b/c" listed but not "a/b", every directory is made and "a" can
      never be removed, because "a/b" stays. */
  lemma UnlistedDirectoryStays() returns (ps: seq<Plan>, ts: seq<Tree>)
    ensures Run(ps, ts) && Valid(ts[0]) && Fresh(ps, ts[0]) && |ps| == 2
    ensures !Removable(Left(ps, 1, ts[2]), ps[0].key, true)
  {
    var a, ab, abc := ["a"], ["a", "b"], ["a", "b", "c"];
    var d := Dir(0, 0, 0);
    ps := [DirPlan(a, 0, 0, 0, 0), DirPlan(abc, 0, 0, 0, 0)];
    var t0: Tree, t1: Tree, t2: Tree := map[[] := d], map[[] := d, a := d], map[[] := d, a := d, ab := d, abc := d];
    ts := [t0, t1, t2];
    assert Parent(a) == [] && Parent(ab) == a && Parent(abc) == ab;
    assert DirDone(t0, t1, a, 0, 0, Masked(0, 0)) && DirDone(t1, t2, abc, 0, 0, Masked(0, 0)) by {
      hide Masked, Permissions, OwnedFrom;
      assert OwnedFrom(0, 0) by { NothingLost(); }
    }
    hide DirDone;
    assert ab in Left(ps, 1, t2);
  }

  lemma NothingLost()
    ensures OwnedFrom(0, 0)
  {
  }

  /** A file that has the name of a temporary file does not survive the round trip. */
  lemma OldFileIsLost() returns (ps: seq<Plan>, ts: seq<Tree>, us: seq<Tree>)
    ensures Run(ps, ts) && Valid(ts[0]) && Fresh(ps, ts[0]) && Reverse(ps, us) && us[|ps|] == ts[|ps|]
    ensures ["d.tmp"] in ts[0] && ["d.tmp"] !in us[0]
  {
    var src, dst, tmp := ["s"], ["d"], ["d.tmp"];
    var d, f, g := Dir(0, 0, 0), File([], 0, 0, 0), File([1], 0, 0, 0);
    ps := [CopyPlan(src, dst, tmp, 0, 0, 0)];
    var t0: Tree, t1: Tree, u: Tree := map[[] := d, src := f, tmp := g], map[[] := d, src := f, dst := f],
        map[[] := d, src := f];
    ts, us := [t0, t1], [u, t1];
    assert Parent(src) == [] && Parent(dst) == [] && Parent(tmp) == [];
    assert t0 - {tmp} == u && u[dst := f] == t1;
    assert Copied(t0, t1, src, dst, tmp, 0, 0, 0);
    assert t1 - {dst} == u;
  }
}
