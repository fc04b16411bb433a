/** What the audit says after an installation without errors. */
module InstallAudited {
  import opened Wrappers
  import opened Paths
  import opened OsModel
  import opened InstallCore
  import opened InstallItems
  import opened InstallPlans
  import opened InstallOps
  import opened InstallAudit
  import opened InstallTheorems
  import opened RoundTrip

  // ---------------------------------------------------------------- the exact condition

  /** The first listed directory that is `key` or below it, from number `from` on. */
  function Maker(ps: seq<Plan>, key: Key, from: nat, i: nat): (m: nat)
    requires from <= i < |ps| && ps[i].DirPlan? && ps[i].key == key
    ensures from <= m <= i && ps[m].DirPlan? && key <= ps[m].key
    ensures forall j :: from <= j < m && ps[j].DirPlan? ==> !(key <= ps[j].key)
    decreases i - from
  {
    if ps[from].DirPlan? && key <= ps[from].key then from else Maker(ps, key, from + 1, i)
  }

  /** What a copy takes over from the tree before it. */
  function SizeCopied(p: Plan, t: Tree): nat
    requires p.CopyPlan?
  {
    if p.src != p.tmp && p.src in t && t[p.src].File? then |t[p.src].content| else 0
  }

  /** A copy is accepted if its permissions survive the mask of the audit and its source
      still has the size that has been copied; a directory, if the permissions that it has
      got from the item that made it are its own. */
  ghost predicate Accepted(dirSizes: map<Key, nat>, ps: seq<Plan>, ts: seq<Tree>, i: nat)
    requires i < |ps| && |ts| == |ps| + 1
  {
    match ps[i]
    case CopyPlan(src, _, _, _, _, perm) =>
      Checked(perm) == perm &&
      SizeAt(dirSizes, ts[|ps|], src) == SizeCopied(ps[i], ts[i])
    case DirPlan(key, _, _, perm, _) =>
      var m := Maker(ps, key, 0, i);
      Checked(Masked(ps[m].perm, ps[m].umask)) == perm
    case LinkPlan(_, _) => true
  }

  // ---------------------------------------------------------------- what stays

  lemma {:induction false} NodeStays(ps: seq<Plan>, ts: seq<Tree>, i: nat, n: nat, x: Key)
    requires Run(ps, ts) && Valid(ts[0]) && Fresh(ps, ts[0]) && i <= n <= |ps| && x in ts[i]
    requires forall j :: i <= j < n ==> x != ps[j].key && !(ps[j].CopyPlan? && ps[j].tmp == x && ts[i][x].File?)
    ensures x in ts[n] && ts[n][x] == ts[i][x]
  {
    SameCount(ps, ts);
    hide Run, Valid, Fresh;
    if i < n {
      NodeStays(ps, ts, i, n - 1, x);
      NextKeeps(ps, ts, n - 1, x);
    }
  }

  lemma SameCount(ps: seq<Plan>, ts: seq<Tree>)
    requires Run(ps, ts)
    ensures |ts| == |ps| + 1
  {
  }

  lemma NextKeeps(ps: seq<Plan>, ts: seq<Tree>, n: nat, x: Key)
    requires Run(ps, ts) && Valid(ts[0]) && Fresh(ps, ts[0]) && n < |ps| && x in ts[n]
    requires x != ps[n].key && !(ps[n].CopyPlan? && ps[n].tmp == x && ts[n][x].File?)
    ensures x in ts[n + 1] && ts[n + 1][x] == ts[n][x]
  {
    RunBuilds(ps, ts, n);
    assert Done(ps[n], ts[n], ts[n + 1]);
    hide Run, Fresh, Built, Done, Valid, Kind;
    NextGrows(ps, n, ts[0], ts[n], ts[n + 1]);
  }

  /** The node of item `i` at the end is the one that the item has made. */
  lemma KeyStays(ps: seq<Plan>, ts: seq<Tree>, i: nat)
    requires Run(ps, ts) && Valid(ts[0]) && Fresh(ps, ts[0]) && i < |ps|
    ensures ps[i].key in ts[i + 1] && Kind(ps[i], ts[i + 1][ps[i].key])
    ensures ps[i].key in ts[|ps|] && ts[|ps|][ps[i].key] == ts[i + 1][ps[i].key]
  {
    RunBuilds(ps, ts, i + 1);
    assert Kind(ps[i], ts[i + 1][ps[i].key]) by { hide Valid, OldStay, NewAreListed; }
    hide Run, Built, Valid;
    NodeStays(ps, ts, i + 1, |ps|, ps[i].key);
  }

  // ---------------------------------------------------------------- modes

  lemma CheckedOfOwned(a: bv32, b: bv32)
    requires OwnedFrom(a, AllModes(b))
    ensures Checked(a) == Checked(b)
  {
    assert a & CHECKED == (a & STICKY) & CHECKED;
    assert b & CHECKED == (b & ALL_MODES & STICKY) & CHECKED;
  }

  lemma CheckedOfPermissions(a: bv32, b: bv32)
    requires Permissions(a) == Permissions(b)
    ensures Checked(a) == Checked(b)
  {
    assert a & CHECKED == (a & PERMISSIONS) & CHECKED;
    assert b & CHECKED == (b & PERMISSIONS) & CHECKED;
  }

  /** A umask that takes nothing from the permissions does not matter. */
  lemma DisjointMask(perm: bv32, umask: bv32)
    requires perm & umask == 0
    ensures Masked(perm, umask) == perm
  {
    assert perm == (perm & umask) | (perm & !umask);
  }

  // ---------------------------------------------------------------- verdicts

  lemma CopyVerdict(ps: seq<Plan>, ts: seq<Tree>, i: nat, e: Setting, src: string, dst: string)
    requires Run(ps, ts) && Valid(ts[0]) && Fresh(ps, ts[0]) && i < |ps| && ps[i].CopyPlan?
    requires src != "" && dst != "" && Resolve(e.cwd, src) == ps[i].src && Resolve(e.cwd, dst) == ps[i].key
    ensures Passes(e, ts[|ps|], src, ps[i].perm, true, ps[i].uid, ps[i].gid, dst) <==> Accepted(e.dirSizes, ps, ts, i)
  {
    hide Resolve, OwnedFrom, Valid;
    KeyStays(ps, ts, i);
    assert Done(ps[i], ts[i], ts[i + 1]);
    hide Run, Fresh;
    CheckedOfOwned(ts[i + 1][ps[i].key].mode, ps[i].perm);
    hide Checked;
  }

  /** A directory is not there before the item that makes it. */
  lemma NotMadeBefore(ps: seq<Plan>, ts: seq<Tree>, i: nat, m: nat)
    requires Run(ps, ts) && Valid(ts[0]) && Fresh(ps, ts[0]) && i < |ps| && ps[i].DirPlan?
    requires m == Maker(ps, ps[i].key, 0, i)
    ensures ps[i].key !in ts[m]
  {
    RunBuilds(ps, ts, m);
    hide Run, Valid, OldStay, ListedAreThere;
  }

  /** The item that makes a directory gives it its permissions. */
  lemma MadeWith(ps: seq<Plan>, ts: seq<Tree>, i: nat, m: nat)
    requires Run(ps, ts) && Valid(ts[0]) && Fresh(ps, ts[0]) && i < |ps| && ps[i].DirPlan?
    requires m == Maker(ps, ps[i].key, 0, i)
    ensures var k, t := ps[i].key, ts[m + 1];
            k in t && t[k].Dir? && Permissions(t[k].mode) == Permissions(Masked(ps[m].perm, ps[m].umask))
  {
    var k := ps[i].key;
    NotMadeBefore(ps, ts, i, m);
    RunBuilds(ps, ts, m + 1);
    assert ps[m].key in ts[m + 1];
    PrefixesExist(ts[m + 1], ps[m].key, |k|);
    assert ps[m].key[..|k|] == k;
    assert Done(ps[m], ts[m], ts[m + 1]);
    assert Kind(ps[m], ts[m + 1][ps[m].key]);
    hide Run, Fresh, Valid, OldStay, NewAreListed, ListedAreThere, Permissions, Masked, OwnedFrom, Maker;
    assert k != ps[m].key ==> k < ps[m].key;
  }

  /** From then on the directory keeps these permissions, also when it is given to its owner. */
  lemma KeptPermissions(ps: seq<Plan>, ts: seq<Tree>, i: nat)
    requires Run(ps, ts) && Valid(ts[0]) && Fresh(ps, ts[0]) && i < |ps| && ps[i].DirPlan?
    ensures var k, t, m := ps[i].key, ts[i + 1], Maker(ps, ps[i].key, 0, i);
            k in t && t[k].Dir? && Permissions(t[k].mode) == Permissions(Masked(ps[m].perm, ps[m].umask))
  {
    var k, m := ps[i].key, Maker(ps, ps[i].key, 0, i);
    hide Maker, Masked, Permissions, Valid;
    MadeWith(ps, ts, i, m);
    if m < i {
      assert forall j :: m + 1 <= j < i ==> k != ps[j].key;
      NodeStays(ps, ts, m + 1, i, k);
      OwnerKeepsPermissions(ps, ts, i);
    }
  }

  lemma OwnerKeepsPermissions(ps: seq<Plan>, ts: seq<Tree>, i: nat)
    requires Run(ps, ts) && i < |ps| && ps[i].DirPlan? && ps[i].key in ts[i] && ts[i][ps[i].key].Dir?
    ensures var k := ps[i].key;
            k in ts[i + 1] && ts[i + 1][k].Dir? && Permissions(ts[i + 1][k].mode) == Permissions(ts[i][k].mode)
  {
    var k := ps[i].key;
    assert Done(ps[i], ts[i], ts[i + 1]);
    hide Run, Permissions, Masked, OwnedFrom, Valid;
    PermissionsOfOwned(ts[i + 1][k].mode, ts[i][k].mode);
  }

  lemma DirVerdict(ps: seq<Plan>, ts: seq<Tree>, i: nat, e: Setting, dir: string)
    requires Run(ps, ts) && Valid(ts[0]) && Fresh(ps, ts[0]) && i < |ps| && ps[i].DirPlan?
    requires dir != "" && Resolve(e.cwd, dir) == ps[i].key
    ensures Passes(e, ts[|ps|], dir, ps[i].perm, false, ps[i].uid, ps[i].gid, dir) <==> Accepted(e.dirSizes, ps, ts, i)
  {
    hide Resolve, Permissions, OwnedFrom, Valid, Masked;
    KeyStays(ps, ts, i);
    KeptPermissions(ps, ts, i);
    assert Done(ps[i], ts[i], ts[i + 1]);
    hide Run, Fresh;
    var m := Maker(ps, ps[i].key, 0, i);
    CheckedOfPermissions(ts[i + 1][ps[i].key].mode, Masked(ps[m].perm, ps[m].umask));
    hide Checked, Maker;
  }

  /** The working directory is neither a new node nor a file that could be copied. */
  lemma CwdIsOld(ps: seq<Plan>, ts: seq<Tree>, i: nat, cwd: Key)
    requires Run(ps, ts) && Valid(ts[0]) && Fresh(ps, ts[0]) && i < |ps| && IsDir(ts[0], cwd)
    ensures ps[i].key != cwd && (ps[i].CopyPlan? ==> ps[i].src != cwd)
  {
    if ps[i].CopyPlan? {
      RunBuilds(ps, ts, i);
      assert Done(ps[i], ts[i], ts[i + 1]);
      hide Valid, NewAreListed, ListedAreThere, Run, OwnedFrom;
    }
  }

  /** What the audit finds for a copied file or a directory. */
  lemma ItemVerdict(e: Setting, lines: seq<Line>, naming: Naming, ps: seq<Plan>,
          ts: seq<Tree>, i: nat)
    requires Plans(e, lines, naming, ps) && Run(ps, ts) && Valid(ts[0]) && Fresh(ps, ts[0])
    requires IsDir(ts[0], e.cwd) && i < |lines| && !IsLink(lines[i].op)
    ensures var line := lines[i];
            var n := Translated(line.op, true, line.names, naming);
            && n.Some?
            && VerdictOf(e, ts[|ps|], line.op, n.value, line.owner, line.group, line.perm)
               == if Accepted(e.dirSizes, ps, ts, i) then Passed else Failed
  {
    var line := lines[i];
    AuditedNames(line.op, line.names, naming);
    CwdIsOld(ps, ts, i, e.cwd);
    EmptyIsCwd(e.cwd);
    assert PlanFor(e, line, naming) == Some(ps[i]);
    hide Translated, Resolve, Passes, Accepted, Run, Fresh, Valid, TmpName;
    var n := Translated(line.op, true, line.names, naming).value;
    if line.op.InstMkdir? {
      DirVerdict(ps, ts, i, e, n.dir.value);
    } else {
      CopyVerdict(ps, ts, i, e, n.src.value, n.dst.value);
    }
  }

  lemma EmptyIsCwd(cwd: Key)
    ensures Resolve(cwd, "") == cwd
  {
    assert cwd + [] == cwd;
  }

  lemma {:induction false} NoneFailed(verdicts: seq<Verdict>)
    ensures CountFailed(verdicts) == 0 <==> forall i :: 0 <= i < |verdicts| ==> !verdicts[i].Failed?
  {
    if verdicts != [] {
      NoneFailed(verdicts[..|verdicts| - 1]);
    }
  }

  /** After an installation without errors of copies and directories, the audit fails
      exactly the items that are not accepted. */
  lemma AuditAfterInstall(e: Setting, lines: seq<Line>, naming: Naming,
                          ps: seq<Plan>, ts: seq<Tree>, statuses: seq<Status>, verdicts: seq<Verdict>)
    requires Plans(e, lines, naming, ps) && Run(ps, ts) && Valid(ts[0]) && Fresh(ps, ts[0])
    requires IsDir(ts[0], e.cwd) && forall i :: 0 <= i < |lines| ==> !IsLink(lines[i].op)
    requires Audit(e, ts[|ps|], lines, naming, statuses, verdicts) && |verdicts| == |lines|
    ensures forall i :: 0 <= i < |lines| ==> verdicts[i] == if Accepted(e.dirSizes, ps, ts, i) then Passed else Failed
    ensures CountFailed(verdicts) == 0 <==> forall i :: 0 <= i < |lines| ==> Accepted(e.dirSizes, ps, ts, i)
  {
    SameCount(ps, ts);
    hide Run, Fresh, Valid, Accepted, VerdictOf, Translated, PlanFor;
    forall i | 0 <= i < |lines|
      ensures verdicts[i] == if Accepted(e.dirSizes, ps, ts, i) then Passed else Failed
    {
      ItemVerdict(e, lines, naming, ps, ts, i);
      assert Audited(e, ts[|ps|], lines[i], naming, statuses[i], verdicts[i]);
    }
    NoneFailed(verdicts);
  }

  // ---------------------------------------------------------------- well-ordered tables

  /** No copy overwrites the source of an earlier one, nor uses it as temporary file. */
  ghost predicate SourcesStay(ps: seq<Plan>) {
    forall i, j :: 0 <= i <= j < |ps| && ps[i].CopyPlan? && ps[j].CopyPlan? ==>
      ps[i].src != ps[j].key && ps[i].src != ps[j].tmp
  }

  /** No listed directory stands above one that is listed earlier. */
  ghost predicate UpperFirst(ps: seq<Plan>) {
    forall i, j :: 0 <= j < i < |ps| && ps[i].DirPlan? && ps[j].DirPlan? ==> !(ps[i].key < ps[j].key)
  }

  /** The source of copy `i` at the end is the one that has been copied. */
  lemma SourceStays(ps: seq<Plan>, ts: seq<Tree>, i: nat)
    requires Run(ps, ts) && Valid(ts[0]) && Fresh(ps, ts[0]) && SourcesStay(ps) && i < |ps| && ps[i].CopyPlan?
    ensures ps[i].src in ts[i] && ts[i][ps[i].src].File?
    ensures ps[i].src in ts[|ps|] && ts[|ps|][ps[i].src] == ts[i][ps[i].src]
  {
    var x := ps[i].src;
    assert Done(ps[i], ts[i], ts[i + 1]);
    hide Run, Valid, Done, OwnedFrom;
    forall j | i <= j < |ps|
      ensures x != ps[j].key
    {
      if !ps[j].CopyPlan? && x == ps[j].key {
        ForeignKey(ps, ts, i, j);
      }
    }
    NodeStays(ps, ts, i, |ps|, x);
  }

  /** A file that exists before item `j` is not what item `j` makes, unless that is a copy. */
  lemma ForeignKey(ps: seq<Plan>, ts: seq<Tree>, i: nat, j: nat)
    requires Run(ps, ts) && Valid(ts[0]) && Fresh(ps, ts[0]) && i <= j < |ps| && !ps[j].CopyPlan?
    ensures ps[j].key in ts[i] ==> ts[i][ps[j].key].Dir?
  {
    RunBuilds(ps, ts, i);
    hide Run, Valid, OldStay, ListedAreThere, Kind;
  }

  /** In such tables an item is accepted for its own permissions. */
  lemma OwnPermissions(dirSizes: map<Key, nat>, ps: seq<Plan>, ts: seq<Tree>, i: nat)
    requires Run(ps, ts) && Valid(ts[0]) && Fresh(ps, ts[0]) && SourcesStay(ps) && UpperFirst(ps) && i < |ps|
    ensures Accepted(dirSizes, ps, ts, i) <==>
            match ps[i]
            case CopyPlan(_, _, _, _, _, perm) => Checked(perm) == perm
            case DirPlan(_, _, _, perm, umask) => Checked(Masked(perm, umask)) == perm
            case LinkPlan(_, _) => true
  {
    hide Run, Valid, Checked, Masked;
    match ps[i]
    case CopyPlan(_, _, _, _, _, _) => SourceStays(ps, ts, i);
    case DirPlan(_, _, _, _, _) => OwnMaker(ps, i);
    case LinkPlan(_, _) =>
  }

  lemma OwnMaker(ps: seq<Plan>, i: nat)
    requires i < |ps| && ps[i].DirPlan? && UpperFirst(ps) && DistinctKeys(ps)
    ensures Maker(ps, ps[i].key, 0, i) == i
  {
    hide Maker;
  }

  /** Directories "a/b" with 0700 and then "a" with 0755: both modes survive the mask of
      the audit, nothing fails in the installation, and the audit rejects "a", which has got
      the mode of "a/b". */
  lemma LowerFirstFails() returns (ps: seq<Plan>, ts: seq<Tree>)
    ensures Run(ps, ts) && Valid(ts[0]) && Fresh(ps, ts[0]) && SourcesStay(ps) && |ps| == 2
    ensures forall i :: 0 <= i < |ps| ==>
              ps[i].DirPlan? && ps[i].umask == 0 && Checked(ps[i].perm) == ps[i].perm
    ensures forall dirSizes :: !Accepted(dirSizes, ps, ts, 1)
  {
    var a, b := ["a"], ["a", "b"];
    ps := [DirPlan(b, 0, 0, 0x1c0, 0), DirPlan(a, 0, 0, 0x1ed, 0)];
    var t0: Tree := map[[] := Dir(0x1ed, 0, 0)];
    var t: Tree := t0[a := Dir(0x1c0, 0, 0)][b := Dir(0x1c0, 0, 0)];
    ts := [t0, t, t];
    assert Parent(a) == [] && Parent(b) == a && a < b;
    assert Done(ps[0], ts[0], ts[1]);
    assert Done(ps[1], ts[1], ts[2]);
    assert Maker(ps, a, 0, 1) == 0;
  }

  /** With a umask that takes nothing from the listed permissions, the audit of such a
      table finds no failure if and only if they are all unchanged by masking with 0755. */
  lemma AuditIsClean(e: Setting, lines: seq<Line>, naming: Naming,
                     ps: seq<Plan>, ts: seq<Tree>, statuses: seq<Status>, verdicts: seq<Verdict>)
    requires Plans(e, lines, naming, ps) && Run(ps, ts) && Valid(ts[0]) && Fresh(ps, ts[0])
    requires IsDir(ts[0], e.cwd) && SourcesStay(ps) && UpperFirst(ps)
    requires forall i :: 0 <= i < |lines| ==> !IsLink(lines[i].op) && lines[i].perm & e.umask == 0
    requires Audit(e, ts[|ps|], lines, naming, statuses, verdicts) && |verdicts| == |lines|
    ensures CountFailed(verdicts) == 0 <==> forall i :: 0 <= i < |lines| ==> Checked(lines[i].perm) == lines[i].perm
  {
    SameCount(ps, ts);
    hide Run, Fresh, Valid, SourcesStay, UpperFirst, CountFailed, Audit, Accepted, Checked, PlanFor;
    AuditAfterInstall(e, lines, naming, ps, ts, statuses, verdicts);
    forall i | 0 <= i < |lines|
      ensures Accepted(e.dirSizes, ps, ts, i) <==> Checked(lines[i].perm) == lines[i].perm
    {
      OwnPermissions(e.dirSizes, ps, ts, i);
      LineAgrees(e, lines[i], naming, ps[i]);
    }
  }

  lemma LineAgrees(e: Setting, line: Line, naming: Naming, p: Plan)
    requires PlanFor(e, line, naming) == Some(p) && !IsLink(line.op) && line.perm & e.umask == 0
    ensures !p.LinkPlan? && p.perm == line.perm && (p.DirPlan? ==> Masked(p.perm, p.umask) == line.perm)
  {
    hide Resolve, Translated, TmpName, Masked;
    DisjointMask(line.perm, e.umask);
  }

  // ---------------------------------------------------------------- changed trees

  /** What the audit can see of the node of an item is as it was after the installation. */
  ghost predicate LooksInstalled(e: Setting, k: Key, t: Tree, t': Tree, isFile: bool) {
    && k in t && !t[k].Link? && k in t' && !t'[k].Link?
    && t'[k].uid == t[k].uid && t'[k].gid == t[k].gid && t'[k].mode & 0x1ed == t[k].mode & 0x1ed
    && (isFile && t[k].File? && t'[k].File? ==> |t'[k].content| == |t[k].content|)
    && (isFile && t[k].File? && t'[k].Dir? ==>
         (if k in e.dirSizes then e.dirSizes[k] else 0) == |t[k].content|)
    && (!e.haveSymlinks ==> t'[k].File? == t[k].File?)
  }

  /** The source of the item has the size that it had after the installation. */
  ghost predicate SourceAsInstalled(e: Setting, p: Plan, t: Tree, t': Tree) {
    p.CopyPlan? ==> SizeAt(e.dirSizes, t', p.src) == SizeAt(e.dirSizes, t, p.src)
  }

  lemma PassesAlike(e: Setting, t: Tree, t': Tree, src: string, perm: bv32, isFile: bool, uid: int, gid: int,
                    dst: string)
    requires Passes(e, t, src, perm, isFile, uid, gid, dst) && (isFile ==> t[Resolve(e.cwd, dst)].File?)
    requires isFile ==> SizeOf(e, t', src) == SizeOf(e, t, src)
    ensures Passes(e, t', src, perm, isFile, uid, gid, dst) <==> LooksInstalled(e, Resolve(e.cwd, dst), t, t', isFile)
  {
    hide Resolve;
  }

  /** Whatever has happened to the tree since an installation without errors, an item that
      was accepted passes the audit if and only if its node is there and has the owner, group,
      permissions and size, and where the type is compared the type, that it had then. */
  lemma ChangedItem(e: Setting, lines: seq<Line>, naming: Naming, ps: seq<Plan>, ts: seq<Tree>, t': Tree, i: nat)
    requires Plans(e, lines, naming, ps) && Run(ps, ts) && Valid(ts[0]) && Fresh(ps, ts[0])
    requires IsDir(ts[0], e.cwd) && i < |lines| && !IsLink(lines[i].op)
    requires Accepted(e.dirSizes, ps, ts, i) && SourceAsInstalled(e, ps[i], ts[|ps|], t')
    ensures var line := lines[i];
            var n := Translated(line.op, true, line.names, naming);
            && n.Some?
            && VerdictOf(e, t', line.op, n.value, line.owner, line.group, line.perm)
               == if LooksInstalled(e, ps[i].key, ts[|ps|], t', ps[i].CopyPlan?) then Passed else Failed
  {
    var line := lines[i];
    ItemVerdict(e, lines, naming, ps, ts, i);
    KeyStays(ps, ts, i);
    AuditedNames(line.op, line.names, naming);
    assert PlanFor(e, line, naming) == Some(ps[i]);
    hide Translated, Resolve, Passes, Accepted, Run, Fresh, Valid, TmpName, LooksInstalled, SizeAt, Plans;
    var n := Translated(line.op, true, line.names, naming).value;
    var uid, gid := IdOf(line.owner, e.users, e.uid).value, IdOf(line.group, e.groups, e.gid).value;
    if line.op.InstMkdir? {
      PassesAlike(e, ts[|ps|], t', n.dir.value, line.perm, false, uid, gid, n.dir.value);
    } else {
      PassesAlike(e, ts[|ps|], t', n.src.value, line.perm, true, uid, gid, n.dst.value);
    }
  }

  /** The audit of a changed tree fails exactly the items whose nodes have been changed in
      what it can see, and finds no failure if and only if there are none. */
  lemma AuditAfterChange(e: Setting, lines: seq<Line>, naming: Naming, ps: seq<Plan>, ts: seq<Tree>, t': Tree,
                         statuses: seq<Status>, verdicts: seq<Verdict>)
    requires Plans(e, lines, naming, ps) && Run(ps, ts) && Valid(ts[0]) && Fresh(ps, ts[0])
    requires IsDir(ts[0], e.cwd) && forall i :: 0 <= i < |lines| ==> !IsLink(lines[i].op)
    requires forall i :: 0 <= i < |lines| ==>
               Accepted(e.dirSizes, ps, ts, i) && SourceAsInstalled(e, ps[i], ts[|ps|], t')
    requires Audit(e, t', lines, naming, statuses, verdicts) && |verdicts| == |lines|
    ensures forall i :: 0 <= i < |lines| ==>
              verdicts[i] ==
              if LooksInstalled(e, ps[i].key, ts[|ps|], t', ps[i].CopyPlan?) then Passed else Failed
    ensures CountFailed(verdicts) == 0 <==>
            forall i :: 0 <= i < |lines| ==> LooksInstalled(e, ps[i].key, ts[|ps|], t', ps[i].CopyPlan?)
  {
    SameCount(ps, ts);
    hide Run, Fresh, Valid, Accepted, SourceAsInstalled, LooksInstalled, VerdictOf, Translated, PlanFor;
    forall i | 0 <= i < |lines|
      ensures verdicts[i] == if LooksInstalled(e, ps[i].key, ts[|ps|], t', ps[i].CopyPlan?) then Passed else Failed
    {
      ChangedItem(e, lines, naming, ps, ts, t', i);
      assert Audited(e, t', lines[i], naming, statuses[i], verdicts[i]);
    }
    NoneFailed(verdicts);
  }

  /** In any tree at all, an item whose node is gone, or has another owner or group than the
      line asks for, fails the audit. */
  lemma WrongOwnerFails(e: Setting, line: Line, naming: Naming, p: Plan, t: Tree, status: Status, verdict: Verdict)
    requires PlanFor(e, line, naming) == Some(p) && !IsLink(line.op)
    requires p.key !in t || t[p.key].Link? || t[p.key].uid != p.uid || t[p.key].gid != p.gid
    requires Audited(e, t, line, naming, status, verdict)
    ensures verdict == Failed
  {
    AuditedNames(line.op, line.names, naming);
    hide Translated, Resolve, SizeAt, TmpName;
  }
}
