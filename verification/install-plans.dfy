/** What a line of the installation table asks for, and what it is to have done or
    undone it: relations between two trees. */
module InstallPlans {
  import opened Wrappers
  import opened Strings
  import opened Paths
  import opened OsModel
  import opened InstallCore
  import opened Ancestors
  import opened InstallItems

  /** A line of the table, with the names that the program text gives it. */
  datatype Line = Line(op: Op, names: Names, owner: Option<string>, group: Option<string>, perm: bv32)

  datatype Plan =
    | CopyPlan(src: Key, key: Key, tmp: Key, uid: int, gid: int, perm: bv32)
    | DirPlan(key: Key, uid: int, gid: int, perm: bv32, umask: bv32)
    | LinkPlan(key: Key, target: string)

  /** What an operator does for an item whose names have been translated. */
  function OpPlan(e: Setting, op: Op, n: Names, owner: Option<string>, group: Option<string>, perm: bv32)
    : Option<Plan>
  {
    var uid, gid := IdOf(owner, e.users, e.uid), IdOf(group, e.groups, e.gid);
    match op
    case InstCopy | InstCopyExec =>
      if uid.None? || gid.None? || n.src.None? || n.dst.None? then None
      else Some(CopyPlan(Resolve(e.cwd, n.src.value), Resolve(e.cwd, n.dst.value),
                         Resolve(e.cwd, TmpName(n.dst.value)), uid.value, gid.value, perm))
    case InstMkdir =>
      if uid.None? || gid.None? || n.dir.None? then None
      else Some(DirPlan(Resolve(e.cwd, n.dir.value), uid.value, gid.value, perm, e.umask))
    case InstSymlink | InstLiblink =>
      if n.src.None? || n.dst.None? || n.dir.None? then None
      else Some(LinkPlan(Resolve(Resolve(e.cwd, n.dir.value), n.dst.value), n.src.value))
  }

  /** What the installer does for a line, or nothing if its names or its owner are no good. */
  function PlanFor(e: Setting, line: Line, naming: Naming): Option<Plan> {
    match Translated(line.op, false, line.names, naming)
    case None => None
    case Some(n) => OpPlan(e, line.op, n, line.owner, line.group, line.perm)
  }

  /** The node that the deinstaller removes for translated names. */
  function OpUndo(cwd: Key, op: Op, n: Names): Option<Key> {
    match op
    case InstCopy | InstCopyExec => if n.dst.None? then None else Some(Resolve(cwd, n.dst.value))
    case InstMkdir => if n.dir.None? then None else Some(Resolve(cwd, n.dir.value))
    case InstSymlink | InstLiblink =>
      if n.dir.None? || n.dst.None? then None else Some(Resolve(cwd, Fit(n.dir.value + "/" + n.dst.value)))
  }

  function UndoFor(cwd: Key, line: Line, naming: Naming): Option<Key> {
    match Translated(line.op, false, line.names, naming)
    case None => None
    case Some(n) => OpUndo(cwd, line.op, n)
  }

  // ---------------------------------------------------------------- done and undone

  /** A directory has been made, or found, and given to its owner. */
  ghost predicate DirDone(t: Tree, t': Tree, k: Key, uid: int, gid: int, mode: bv32) {
    && k in t' && !t'[k].Link? && t'[k].uid == uid && t'[k].gid == gid
    && (forall x :: x in t && x != k ==> x in t' && t'[x] == t[x])
    && (k in t ==> !t[k].Link? && t'[k] == t[k].(mode := t'[k].mode, uid := uid, gid := gid)
                   && OwnedFrom(t'[k].mode, t[k].mode))
    && (k !in t ==> k != [] && t'[k].Dir? && Permissions(t'[k].mode) == Permissions(mode))
    && (forall x :: x in t' && x !in t && x != k ==>
         x < k && x != [] && t'[x].Dir? && Permissions(t'[x].mode) == Permissions(mode))
    && (Valid(t) ==> Valid(t'))
  }

  /** The directories that are new have the permissions asked for without those of the umask. */
  lemma ModeOfNewDir(t: Tree, t': Tree, k: Key, uid: int, gid: int, perm: bv32, umask: bv32, x: Key)
    requires DirDone(t, t', k, uid, gid, Masked(perm, umask)) && x in t' && x !in t
    ensures t'[x].Dir? && t'[x].mode & 0x1ff == perm & !umask & 0x1ff
  {
    hide Valid, OwnedFrom, Masked, Permissions;
    BitsOfMasked(t'[x].mode, perm, umask);
  }

  lemma BitsOfMasked(m: bv32, perm: bv32, umask: bv32)
    requires Permissions(m) == Permissions(Masked(perm, umask))
    ensures m & 0x1ff == perm & !umask & 0x1ff
  {
  }

  ghost predicate LinkDone(t: Tree, t': Tree, k: Key, target: string) {
    k != [] && k !in t && IsDir(t, Parent(k)) && t' == t[k := Link(target)]
  }

  ghost predicate Done(p: Plan, t: Tree, t': Tree) {
    match p
    case CopyPlan(src, key, tmp, uid, gid, perm) => Copied(t, t', src, key, tmp, uid, gid, perm)
    case DirPlan(key, uid, gid, perm, umask) => DirDone(t, t', key, uid, gid, Masked(perm, umask))
    case LinkPlan(key, target) => LinkDone(t, t', key, target)
  }

  /** What an unsuccessful operator may leave behind. */
  ghost predicate Failed(p: Plan, t: Tree, t': Tree, status: Status) {
    match p
    case CopyPlan(src, key, tmp, uid, gid, perm) => status.Error? && AgreeBut(t, t', tmp)
    case DirPlan(key, uid, gid, perm, umask) => status.Error? && MadeAbove(t, t', key, Masked(perm, umask))
    case LinkPlan(key, target) => t' == t || (status.Fatal? && LinkDone(t, t', key, target))
  }

  /** One item of an installation. */
  ghost predicate Stepped(p: Option<Plan>, dry: bool, t: Tree, t': Tree, status: Status) {
    if p.None? then !status.Ok? && t' == t
    else if dry then t' == t
    else if status.Ok? then Done(p.value, t, t')
    else Failed(p.value, t, t', status)
  }

  /** The deinstaller's call for a node can succeed. */
  predicate Removable(t: Tree, k: Key, isDir: bool) {
    if isDir then k != [] && IsDir(t, k) && Empty(t, k) else k in t && !t[k].Dir?
  }

  /** One item of a deinstallation. */
  ghost predicate Undone(undo: Option<Key>, isDir: bool, dry: bool, t: Tree, t': Tree, status: Status) {
    if undo.None? then !status.Ok? && t' == t
    else if dry || !status.Ok? then t' == t
    else Removable(t, undo.value, isDir) && t' == t - {undo.value}
  }

  // ---------------------------------------------------------------- the two names of a link

  /** The link is made below its directory: its name is relative, or the directory the root. */
  predicate LeadsBelow(cwd: Key, dir: string, name: string) { !Absolute(name) || Resolve(cwd, dir) == [] }

  /** The deinstaller looks for a link where the installer has put it, unless the buffer
      for the joined name loses a component, or the link's name is absolute and its
      directory not the root. */
  lemma LinkIsUndone(cwd: Key, dir: string, name: string)
    requires dir != "" && (LeadsBelow(cwd, dir, name) || CutHarmless(dir + "/" + name))
    ensures Resolve(cwd, Fit(dir + "/" + name)) == Resolve(Resolve(cwd, dir), name) <==>
            LeadsBelow(cwd, dir, name) && CutHarmless(dir + "/" + name)
  {
    FitResolves(cwd, dir + "/" + name);
    hide Components, CutHarmless, Fit;
    ComponentsConcat(dir, name);
    assert (dir + "/" + name)[0] == dir[0];
    var base, rest := Resolve(cwd, dir), Components(name);
    assert Resolve(cwd, dir + "/" + name) == base + rest;
    assert |base + rest| == |base| + |rest|;
  }

  /** A link "/l" of directory "d" is looked for elsewhere than where it has been made. */
  lemma AbsoluteLinkStays()
    ensures Resolve([], Fit("d" + "/" + "/l")) != Resolve(Resolve([], "d"), "/l")
  {
    hide Fit, Components, LastOf;
    PlainComponents("d");
    assert |Resolve([], "d")| == 1;
    assert |"d" + "/" + "/l"| < MAX_PATHLEN && CutHarmless("d" + "/" + "/l");
    LinkIsUndone([], "d", "/l");
  }

  /** Of a link "l" in a directory of 1022 bytes the deinstaller sees the directory only. */
  lemma LongLinkStays() returns (dir: string)
    ensures |dir| == 1022 && '/' !in dir
    ensures Resolve([], Fit(dir + "/" + "l")) != Resolve(Resolve([], dir), "l")
  {
    hide Fit, Components, LastOf;
    dir := seq(1022, _ => 'a');
    var path := dir + "/" + "l";
    assert path[1023..] == "l" && path[1022] == '/' && |path| == MAX_PATHLEN;
    PlainComponents("l");
    assert !CutHarmless(path);
    LinkIsUndone([], dir, "l");
  }

  /** Otherwise the installer and the deinstaller act on the same node. */
  lemma UndoIsPlanned(e: Setting, line: Line, naming: Naming)
    requires PlanFor(e, line, naming).Some? && !line.op.InstSymlink? && !line.op.InstLiblink?
    ensures UndoFor(e.cwd, line, naming) == Some(PlanFor(e, line, naming).value.key)
  {
    hide Translated, Resolve, TmpName;
  }
}
