/** The operators of install-core.c on an item whose names have been translated. */
module InstallOps {
  import opened Bytes
  import opened Wrappers
  import opened Strings
  import opened Paths
  import opened OsModel
  import opened InstallCore
  import opened Ancestors
  import opened InstallItems
  import opened InstallPlans

  /** What the operator owes to the item. */
  ghost function ItemPlan(e: Setting, item: Item): Option<Plan>
    reads item, item.src, item.dst, item.dir
  {
    OpPlan(e, item.op, NamesOf(item), item.owner, item.group, item.perm)
  }

  /** install_uidgid_lookup. */
  method UidGidLookup(os: Os, item: Item) returns (status: Status, uid: int, gid: int)
    ensures status.Ok? || status.Error?
    ensures var e := os.Current();
            var u, g := IdOf(item.owner, e.users, e.uid), IdOf(item.group, e.groups, e.gid);
            if status.Ok? then u == Some(uid) && g == Some(gid) else u.None? || g.None?
  {
    var u, g := IdOf(item.owner, os.users, os.uid), IdOf(item.group, os.groups, os.gid);
    if u.None? {
      return Error("could not lookup user id"), 0, 0;
    }
    if g.None? {
      return Error("could not lookup group id"), 0, 0;
    }
    return Ok, u.value, g.value;
  }

  /** An operator that has something to do fails only if a call of the system fails. */
  ghost predicate FailsFor<T>(asked: Option<T>, status: Status, before: nat, after: nat) {
    after >= before && (asked.Some? && !status.Ok? ==> after > before)
  }

  /** inst_copy. */
  method CopyItem(os: Os, item: Item, dry: bool, buf: array<byte>) returns (status: Status)
    requires (item.op.InstCopy? || item.op.InstCopyExec?) && item.src != null && item.dst != null && buf.Length > 0
    modifies os`tree, os`history, os`failures, buf
    ensures Stepped(ItemPlan(os.Current(), item), dry, old(os.tree), os.tree, status)
    ensures status.Ok? || status.Error?
    ensures FailsFor(ItemPlan(os.Current(), item), status, old(os.failures), os.failures)
  {
    hide AgreeBut, OnlyTmp, Resolve, TmpName, Copied, Chars;
    var uid, gid;
    status, uid, gid := UidGidLookup(os, item);
    if !status.Ok? || dry {
      return;
    }
    status := FileCopy(os, Str(item.src), Str(item.dst), uid, gid, item.perm, buf);
  }

  /** inst_mkdir. */
  method MkdirItem(os: Os, item: Item, dry: bool) returns (status: Status)
    requires item.op.InstMkdir? && item.dir != null
    modifies os`tree, os`history, os`failures
    ensures Stepped(ItemPlan(os.Current(), item), dry, old(os.tree), os.tree, status)
    ensures status.Ok? || status.Error?
    ensures |Str(item.dir)| < MAX_PATHLEN || dry ==>
              FailsFor(ItemPlan(os.Current(), item), status, old(os.failures), os.failures)
    ensures os.failures >= old(os.failures)
  {
    hide Resolve, Chars, MkdirRun, MadeAbove, DirDone, OwnedFrom, Masked, Attempts, SlashPrefixes, OpenEnded;
    var uid, gid;
    status, uid, gid := UidGidLookup(os, item);
    if !status.Ok? || dry {
      return;
    }
    CharsAreFree(item.dir[..]);
    ghost var t, k := os.tree, os.At(Str(item.dir));
    ghost var mode := Masked(item.perm, os.umask);
    var r, attempts, trees := Rmkdir(os, Str(item.dir), item.perm);
    AttemptsMakeAbove(t, trees, os.cwd, Str(item.dir), attempts, mode);
    if r == 0 {
      return Error("could not create directory");
    }
    ghost var made := os.tree;
    var ok := os.Chown(Str(item.dir), uid, gid);
    if !ok {
      return Error("could not set ownership on directory");
    }
    OwnedIsDone(t, made, os.tree, k, uid, gid, mode);
    return Ok;
  }

  /** Whatever install_rmkdir tries, it makes directories on the way only. */
  lemma AttemptsMakeAbove(t: Tree, trees: seq<Tree>, cwd: Key, dir: string, attempts: seq<string>, mode: bv32)
    requires MkdirRun(t, trees, cwd, attempts, mode)
    requires attempts == [] || attempts == Attempts(dir) || attempts == SlashPrefixes(dir, |dir|)
    ensures MadeAbove(t, Before(t, trees, |trees|), Resolve(cwd, dir), mode)
  {
    hide Resolve, MadeAbove, SlashPrefixes, MkdirStep;
    forall i | 0 <= i < |attempts|
      ensures Resolve(cwd, attempts[i]) <= Resolve(cwd, dir)
    {
      assert attempts[i] in Attempts(dir);
      AttemptsAreAbove(cwd, dir, attempts[i]);
    }
    RunMakesAbove(t, trees, cwd, attempts, mode, Resolve(cwd, dir), |trees|);
  }

  lemma OwnedIsDone(t: Tree, made: Tree, t': Tree, k: Key, uid: int, gid: int, mode: bv32)
    requires MadeAbove(t, made, k, mode)
    requires k in made && !made[k].Link? && k in t' && !t'[k].Link?
    requires t' == made[k := made[k].(mode := t'[k].mode, uid := uid, gid := gid)]
    requires OwnedFrom(t'[k].mode, made[k].mode)
    ensures DirDone(t, t', k, uid, gid, mode)
  {
    hide Valid, OwnedFrom, Permissions;
    PermissionsOfOwned(t'[k].mode, made[k].mode);
    OwnedIsValid(made, t', k);
  }

  lemma PermissionsOfOwned(a: bv32, b: bv32)
    requires OwnedFrom(a, b)
    ensures Permissions(a) == Permissions(b)
  {
    assert a & PERMISSIONS == (a & STICKY) & PERMISSIONS;
    assert b & PERMISSIONS == (b & STICKY) & PERMISSIONS;
  }

  lemma OwnedIsValid(t: Tree, t': Tree, k: Key)
    requires k in t && k in t' && t' == t[k := t'[k]] && (t'[k].Dir? <==> t[k].Dir?)
    ensures Valid(t) ==> Valid(t')
  {
  }

  /** inst_link and inst_liblink. */
  method LinkItem(os: Os, item: Item, dry: bool) returns (status: Status)
    requires (item.op.InstSymlink? || item.op.InstLiblink?) && item.src != null && item.dst != null && item.dir != null
    modifies os`tree, os`history, os`failures, os`cwd
    ensures Stepped(ItemPlan(old(os.Current()), item), dry, old(os.tree), os.tree, status)
    ensures !status.Fatal? ==> os.cwd == old(os.cwd)
    ensures FailsFor(ItemPlan(old(os.Current()), item), status, old(os.failures), os.failures)
  {
    hide Resolve, Chars;
    var ok, saved := os.GetCwd();
    if !ok {
      return Error("could not get current working directory");
    }
    ok := os.Chdir(Str(item.dir));
    if !ok {
      return Error("could not change directory");
    }
    if !dry {
      ok := os.Symlink(Str(item.src), Str(item.dst));
      if !ok {
        ok := os.Return(saved);
        if !ok {
          return Fatal("could not restore current working directory");
        }
        return Error("could not make symbolic link");
      }
    }
    ok := os.Return(saved);
    if !ok {
      return Fatal("could not restore current working directory");
    }
    return Ok;
  }

  // ---------------------------------------------------------------- the deinstaller's operators

  ghost function ItemUndo(cwd: Key, item: Item): Option<Key>
    reads item, item.src, item.dst, item.dir
  {
    OpUndo(cwd, item.op, NamesOf(item))
  }

  /** deinst_copy. */
  method DeinstCopy(os: Os, item: Item, dry: bool) returns (status: Status)
    requires (item.op.InstCopy? || item.op.InstCopyExec?) && item.dst != null
    modifies os`tree, os`history, os`failures
    ensures Undone(ItemUndo(os.cwd, item), false, dry, old(os.tree), os.tree, status) && !status.Fatal?
    ensures FailsFor(ItemUndo(os.cwd, item), status, old(os.failures), os.failures)
  {
    hide Resolve, Chars;
    if !dry {
      var ok := os.Unlink(Str(item.dst));
      if !ok {
        return Error("could not unlink file");
      }
    }
    return Ok;
  }

  /** deinst_link and deinst_liblink. */
  method DeinstLink(os: Os, item: Item, dry: bool) returns (status: Status)
    requires (item.op.InstSymlink? || item.op.InstLiblink?) && item.dst != null && item.dir != null
    modifies os`tree, os`history, os`failures
    ensures Undone(ItemUndo(os.cwd, item), false, dry, old(os.tree), os.tree, status) && !status.Fatal?
    ensures FailsFor(ItemUndo(os.cwd, item), status, old(os.failures), os.failures)
  {
    hide Resolve, Chars, Fit;
    if !dry {
      var ok := os.Unlink(Fit(Str(item.dir) + "/" + Str(item.dst)));
      if !ok {
        return Error("could not unlink");
      }
    }
    return Ok;
  }

  /** deinst_mkdir. */
  method DeinstMkdir(os: Os, item: Item, dry: bool) returns (status: Status)
    requires item.op.InstMkdir? && item.dir != null
    modifies os`tree, os`history, os`failures
    ensures Undone(ItemUndo(os.cwd, item), true, dry, old(os.tree), os.tree, status) && !status.Fatal?
    ensures FailsFor(ItemUndo(os.cwd, item), status, old(os.failures), os.failures)
  {
    hide Resolve, Chars;
    if !dry {
      var ok := os.Rmdir(Str(item.dir));
      if !ok {
        return Error("could not remove directory");
      }
    }
    return Ok;
  }
}
