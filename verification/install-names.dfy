/** What the lines of the table ask for, told from the names that the lines give and not
    from their translation. */
module InstallNames {
  import opened Wrappers
  import opened Strings
  import opened Paths
  import opened OsModel
  import opened InstallItems
  import opened InstallPlans

  // ---------------------------------------------------------------- names

  /** A name stands for itself, or, if it ends in ".vlb", for the text up to the first
      blank or NUL of the file of that name. */
  ghost predicate StandsFor(naming: Naming, given: string, name: string) {
    if |given| >= 4 && given[|given| - 4..] == ".vlb" then
      given in naming.libs && IsFirstWord(naming.libs[given], name)
    else name == given
  }

  ghost predicate IsFirstWord(text: string, w: string) {
    && w <= text && (forall c :: c in w ==> c !in " \t\n\r\0")
    && (|w| < |text| ==> text[|w|] in " \t\n\r\0")
  }

  /** `base` is what stands behind the last slash that is not trailing. */
  ghost predicate IsLastPart(path: string, base: string, at: nat) {
    && base != "" && base != "." && '/' !in base
    && at + |base| <= |path| && path[at..at + |base|] == base && (at > 0 ==> path[at - 1] == '/')
    && forall i :: at + |base| <= i < |path| ==> path[i] == '/'
  }

  ghost predicate IsId(given: Option<string>, ids: map<string, int>, own: int, id: int) {
    match given
    case None => id == own
    case Some(name) => name in ids && ids[name] == id
  }

  /** The directory that a name of a directory means in front of a slash. */
  function DirName(dir: string): string { if dir == "" then "/" else dir }

  lemma {:induction false} WordIsFirst(text: string, w: string)
    requires IsFirstWord(text, w)
    ensures Chars(Word(text)) == w
  {
    if w != "" {
      assert text[0] == w[0] && w[0] in w;
      assert w[1..] <= text[1..];
      WordIsFirst(text[1..], w[1..]);
      assert w == [w[0]] + w[1..];
      assert Word(text) == [text[0]] + Word(text[1..]);
    } else if text != "" && !Blank(text[0]) {
      assert Word(text)[0] == '\0';
    }
  }

  lemma RealNameIs(naming: Naming, given: string, name: string)
    requires StandsFor(naming, given, name)
    ensures RealName(naming, given) == Some(name)
  {
    if EndsIn(given, ".vlb") {
      WordIsFirst(naming.libs[given], name);
    }
  }

  lemma BaseNameIs(path: string, base: string, at: nat)
    requires IsLastPart(path, base, at)
    ensures BaseName(path) == base
  {
    forall i | at <= i < at + |base| ensures path[i] != '/' {
      assert path[i] == path[at..at + |base|][i - at];
    }
    LastPartIs(path, at, at + |base| - 1);
  }

  /** A name below a directory is a node below the directory's. */
  lemma BelowIs(cwd: Key, dir: string, base: string)
    requires base != "" && base != "." && '/' !in base
    ensures Resolve(cwd, dir + "/" + base) == Resolve(cwd, DirName(dir)) + [base]
  {
    ComponentsJoin(dir, base);
    hide Components;
    if dir == "" {
      RootIs();
    } else {
      assert (dir + "/" + base)[0] == dir[0];
    }
  }

  lemma RootIs()
    ensures Components("/") == [] && Components("") == []
  {
    ComponentsJoin("", "");
    assert "" + "/" + "" == "/";
  }

  // ---------------------------------------------------------------- plans

  /** The source and the destination that the line's names stand for. */
  ghost predicate Copies(line: Line, naming: Naming, src: string, dst: string) {
    && line.names.src.Some? && line.names.dir.Some?
    && StandsFor(naming, line.names.src.value, src)
    && StandsFor(naming, if line.names.dst.Some? then line.names.dst.value else line.names.src.value, dst)
    && |dst| < 1024
  }

  lemma CopyNamesAre(line: Line, naming: Naming, src: string, dst: string, base: string, at: nat)
    requires Copies(line, naming, src, dst) && IsLastPart(dst, base, at)
    requires |line.names.dir.value| + |base| < 1023
    ensures var dir := line.names.dir.value;
            CopyNames(line.names, naming) == Some(Names(Some(src), Some(dir + "/" + base), Some(dir)))
  {
    hide BaseName, RealName, StandsFor, IsLastPart;
    RealNameIs(naming, line.names.src.value, src);
    RealNameIs(naming, if line.names.dst.Some? then line.names.dst.value else line.names.src.value, dst);
    BaseNameIs(dst, base, at);
  }

  lemma CopyPlanIs(e: Setting, line: Line, src: string, dir: string, name: string, uid: int, gid: int)
    requires line.op.InstCopy? || line.op.InstCopyExec?
    requires IsId(line.owner, e.users, e.uid, uid) && IsId(line.group, e.groups, e.gid, gid)
    requires name != "" && name != "." && '/' !in name && |dir| + |name| < 1019
    ensures var key := Resolve(e.cwd, DirName(dir));
            OpPlan(e, line.op, Names(Some(src), Some(dir + "/" + name), Some(dir)), line.owner, line.group, line.perm)
            == Some(CopyPlan(Resolve(e.cwd, src), key + [name], key + [name + ".tmp"], uid, gid, line.perm))
  {
    hide Resolve, DirName;
    BelowIs(e.cwd, dir, name);
    BelowIs(e.cwd, dir, name + ".tmp");
    assert dir + "/" + name + ".tmp" == dir + "/" + (name + ".tmp");
  }

  /** A file is copied into its directory under the last part of its destination's name, or
      of its source's if it has no destination, by way of that name with ".tmp". */
  lemma CopyIsNamed(e: Setting, line: Line, naming: Naming, src: string, dst: string, base: string, at: nat, uid: int,
                    gid: int)
    requires line.op.InstCopy? && Copies(line, naming, src, dst) && IsLastPart(dst, base, at)
    requires |line.names.dir.value| + |base| < 1019
    requires IsId(line.owner, e.users, e.uid, uid) && IsId(line.group, e.groups, e.gid, gid)
    ensures var dir := Resolve(e.cwd, DirName(line.names.dir.value));
            PlanFor(e, line, naming) ==
            Some(CopyPlan(Resolve(e.cwd, src), dir + [base], dir + [base + ".tmp"], uid, gid, line.perm))
  {
    hide Resolve, DirName, CopyNames, OpPlan, StandsFor, IsId;
    CopyNamesAre(line, naming, src, dst, base, at);
    CopyPlanIs(e, line, src, line.names.dir.value, base, uid, gid);
  }

  /** The same for an executable, whose source and destination have the suffix. */
  lemma ExecIsNamed(e: Setting, line: Line, naming: Naming, src: string, dst: string, base: string, at: nat, uid: int,
                    gid: int)
    requires line.op.InstCopyExec? && Copies(line, naming, src, dst) && IsLastPart(dst, base, at)
    requires '/' !in naming.execSuffix && |src| + |naming.execSuffix| < 1024
    requires |line.names.dir.value| + |base| + |naming.execSuffix| < 1019
    requires IsId(line.owner, e.users, e.uid, uid) && IsId(line.group, e.groups, e.gid, gid)
    ensures var dir, name := Resolve(e.cwd, DirName(line.names.dir.value)), base + naming.execSuffix;
            PlanFor(e, line, naming) ==
            Some(CopyPlan(Resolve(e.cwd, src + naming.execSuffix), dir + [name], dir + [name + ".tmp"], uid, gid,
                          line.perm))
  {
    hide Resolve, DirName, CopyNames, OpPlan, StandsFor, IsId;
    var dir, name := line.names.dir.value, base + naming.execSuffix;
    CopyNamesAre(line, naming, src, dst, base, at);
    assert dir + "/" + base + naming.execSuffix == dir + "/" + name;
    CopyPlanIs(e, line, src + naming.execSuffix, dir, name, uid, gid);
  }

  /** A line asks for nothing if a name that its operation needs is missing, or its owner
      or group is unknown, or a ".vlb" file cannot be read. */
  lemma NoPlanWithout(e: Setting, line: Line, naming: Naming)
    requires
      || (!line.op.InstMkdir? && (line.names.src.None? || line.names.dir.None?))
      || ((line.op.InstSymlink? || line.op.InstLiblink?) && line.names.dst.None?)
      || (line.op.InstMkdir? && line.names.dir.None?)
      || (!(line.op.InstSymlink? || line.op.InstLiblink?) &&
           ((line.owner.Some? && line.owner.value !in e.users) || (line.group.Some? && line.group.value !in e.groups)))
      || (!line.op.InstMkdir? && !line.op.InstSymlink? && line.names.src.Some? &&
           var given := line.names.src.value;
           |given| >= 4 && given[|given| - 4..] == ".vlb" && given !in naming.libs)
    ensures PlanFor(e, line, naming) == None
  {
    hide Resolve, TmpName, CopyName, Fit, BaseName;
  }

  /** A directory is made under its name. */
  lemma DirIsNamed(e: Setting, line: Line, naming: Naming, uid: int, gid: int)
    requires line.op.InstMkdir? && line.names.dir.Some?
    requires IsId(line.owner, e.users, e.uid, uid) && IsId(line.group, e.groups, e.gid, gid)
    ensures PlanFor(e, line, naming) ==
            Some(DirPlan(Resolve(e.cwd, line.names.dir.value), uid, gid, line.perm, e.umask))
  {
    hide Resolve;
  }

  /** A link is made in its directory, and points to what the line gives. */
  lemma LinkIsNamed(e: Setting, line: Line, naming: Naming)
    requires line.op.InstSymlink? && line.names.src.Some? && line.names.dst.Some? && line.names.dir.Some?
    requires var name := line.names.dst.value; name != "" && name != "." && '/' !in name
    ensures PlanFor(e, line, naming) ==
            Some(LinkPlan(Resolve(e.cwd, line.names.dir.value) + [line.names.dst.value], line.names.src.value))
  {
    PlainComponents(line.names.dst.value);
    hide Components;
  }

  /** The audit looks at a link below the name of its directory. */
  lemma AuditedLinkIs(n: Names, naming: Naming)
    requires n.src.Some? && n.dst.Some? && n.dir.Some? && |n.dir.value| + |n.dst.value| < 1023
    ensures Translated(InstSymlink, true, n, naming) ==
            Some(Names(n.src, Some(n.dir.value + "/" + n.dst.value), n.dir))
  {
  }

  /** A library link has the last part of its destination's name, with the suffix of dynamic
      libraries, and points to its source, or to the last part of what a ".vlb" file names. */
  lemma LibLinkIsNamed(e: Setting, line: Line, naming: Naming, base: string, at: nat, target: string, targetAt: nat)
    requires line.op.InstLiblink? && line.names.src.Some? && line.names.dst.Some? && line.names.dir.Some?
    requires IsLastPart(line.names.dst.value, base, at) && |line.names.dst.value| < 1024
    requires '/' !in naming.dlibSuffix && |base| + |naming.dlibSuffix| < 1024
    requires var given := line.names.src.value;
             if |given| >= 4 && given[|given| - 4..] == ".vlb" then
               exists word :: StandsFor(naming, given, word) && IsLastPart(word, target, targetAt) && |word| < 1024
             else target == given
    ensures PlanFor(e, line, naming) ==
            Some(LinkPlan(Resolve(e.cwd, line.names.dir.value) + [base + naming.dlibSuffix], target))
  {
    var given := line.names.src.value;
    assert LibTarget(naming, given) == Some(target) by {
      if EndsIn(given, ".vlb") {
        var word :| StandsFor(naming, given, word) && IsLastPart(word, target, targetAt) && |word| < 1024;
        RealNameIs(naming, given, word);
        BaseNameIs(word, target, targetAt);
      }
    }
    BaseNameIs(line.names.dst.value, base, at);
    PlainComponents(base + naming.dlibSuffix);
    hide Components, BaseName, LibTarget;
  }
}
