/** The file system that the installer works on: a map from keys to nodes, and the
    system calls of install-posix.c and of the C library that the installer makes.

    Every call may fail for a reason of the system's own and then changes
    nothing.  `history` keeps the tree after every call, `failures` counts the calls
    that have failed, but for mkdir(), whose failures the installer never sees. */
module OsModel {
  import opened Bytes
  import opened Wrappers
  import opened Paths

  datatype Node =
    | File(content: seq<byte>, mode: bv32, uid: int, gid: int)
    | Dir(mode: bv32, uid: int, gid: int)
    | Link(target: string)

  type Tree = map<Key, Node>

  const PERMISSIONS: bv32 := 0x1ff     // 0777
  const STICKY: bv32 := 0x3ff          // 01777: what chown() keeps of a mode
  const ALL_MODES: bv32 := 0xfff       // 07777

  predicate IsDir(t: Tree, k: Key) { k in t && t[k].Dir? }

  function Parent(k: Key): Key
    requires k != []
  {
    k[..|k| - 1]
  }

  /** The root is a directory, and so is the parent of every other node. */
  ghost predicate Valid(t: Tree) {
    IsDir(t, []) && forall k :: k in t && k != [] ==> IsDir(t, Parent(k))
  }

  predicate Empty(t: Tree, k: Key) { forall c :: c in t && c != [] ==> Parent(c) != k }

  function Masked(mode: bv32, umask: bv32): bv32 { mode & !umask }

  function Permissions(mode: bv32): bv32 { mode & PERMISSIONS }

  function Sticky(mode: bv32): bv32 { mode & STICKY }

  /** The mode of a new directory: the permissions asked for, with special bits of the system's own. */
  function NewMode(mode: bv32, special: bv32): (m: bv32)
    ensures Permissions(m) == Permissions(mode)
  {
    (mode & PERMISSIONS) | (special & !PERMISSIONS)
  }

  /** A new directory at `k`, and nothing else. */
  predicate MadeDir(t: Tree, t': Tree, k: Key, mode: bv32) {
    && k != [] && k !in t && IsDir(t, Parent(k)) && IsDir(t', k) && t' == t[k := t'[k]]
    && Permissions(t'[k].mode) == Permissions(mode)
  }

  function AllModes(mode: bv32): bv32 { mode & ALL_MODES }

  /** chown() may take the set-id bits from a mode, one or both, and does nothing else
      to it: the bits of STICKY stay, and the others do not appear. */
  predicate OwnedFrom(m: bv32, mode: bv32) { m == mode & (m | STICKY) }

  /** The mode that chown() leaves when it may keep these bits. */
  function OwnedMode(mode: bv32, kept: bv32): (m: bv32)
    ensures OwnedFrom(m, mode)
  {
    mode & (STICKY | kept)
  }

  /** chmod(): the new mode, and nothing else. */
  predicate ModeSet(t: Tree, t': Tree, k: Key, mode: bv32) {
    k in t && !t[k].Link? && t' == t[k := t[k].(mode := AllModes(mode))]
  }

  /** chown(): the new owner, a mode that may have lost set-id bits, and nothing else. */
  predicate OwnerSet(t: Tree, t': Tree, k: Key, uid: int, gid: int) {
    && k in t && !t[k].Link? && k in t' && !t'[k].Link?
    && t' == t[k := t[k].(mode := t'[k].mode, uid := uid, gid := gid)]
    && OwnedFrom(t'[k].mode, t[k].mode)
  }

  /** rename(), of anything but a directory. */
  predicate Renamed(t: Tree, t': Tree, from: Key, to: Key) {
    && from in t && !t[from].Dir? && to != [] && IsDir(t, Parent(to)) && (to in t ==> !t[to].Dir?)
    && t' == (t - {from})[to := t[from]]
  }

  /** `haveSymlinks` tells whether the programs have been compiled for symbolic links,
      `dirSizes` what stat() says of the size of directories. */
  datatype Setting = Setting(
    cwd: Key, umask: bv32, users: map<string, int>, groups: map<string, int>, uid: int, gid: int, haveSymlinks: bool,
    dirSizes: map<Key, nat>)

  /** iposix_uid_lookup and iposix_gid_lookup: without a name, the caller's own. */
  function IdOf(name: Option<string>, ids: map<string, int>, own: int): Option<int> {
    if name.None? then Some(own)
    else if name.value in ids then Some(ids[name.value])
    else None
  }

  class Os {
    var tree: Tree
    var cwd: Key
    var umask: bv32
    const users: map<string, int>
    const groups: map<string, int>
    const uid: int
    const gid: int
    const haveSymlinks: bool
    const dirSizes: map<Key, nat>
    ghost var history: seq<Tree>
    ghost var failures: nat

    constructor (tree: Tree, e: Setting)
      ensures this.tree == tree && Current() == e && history == [tree] && failures == 0
    {
      this.tree, cwd, umask, users, groups := tree, e.cwd, e.umask, e.users, e.groups;
      uid, gid, haveSymlinks, dirSizes := e.uid, e.gid, e.haveSymlinks, e.dirSizes;
      history, failures := [tree], 0;
    }

    function At(path: string): Key
      reads this`cwd
    {
      Resolve(cwd, path)
    }

    /** The outcome of a call that the system is free to refuse. */
    method MayFail() returns (refused: bool) {
      refused := *;
    }

    /** Whether a call has succeeded. */
    ghost method Count(ok: bool)
      modifies this`failures
      ensures failures == old(failures) + if ok then 0 else 1
    {
      failures := failures + if ok then 0 else 1;
    }

    /** The tree that a call has left, and whether it has succeeded. */
    ghost method Note(ok: bool)
      modifies this`history, this`failures
      ensures history == old(history) + [tree] && failures == old(failures) + if ok then 0 else 1
    {
      history := history + [tree];
      Count(ok);
    }

    // -------------------------------------------------------------- directories

    /** iposix_mkdir: one when mkdir() succeeds, zero when it fails, never -1. */
    method Mkdir(path: string, mode: bv32) returns (r: int)
      modifies this`tree, this`history, this`failures
      ensures history == old(history) + [tree] && failures == old(failures)
      ensures r == 0 || r == 1
      ensures r == 0 ==> tree == old(tree)
      ensures r == 1 ==> MadeDir(old(tree), tree, At(path), Masked(mode, umask))
    {
      var k := At(path);
      var refused := MayFail();
      var special: bv32 := *;
      r := 0;
      if !refused && path != "" && k != [] && k !in tree && IsDir(tree, Parent(k)) {
        tree := tree[k := Dir(NewMode(Masked(mode, umask), special), uid, gid)];
        r := 1;
      }
      Note(true);
    }

    method Rmdir(path: string) returns (ok: bool)
      modifies this`tree, this`history, this`failures
      ensures history == old(history) + [tree]
      ensures !ok ==> tree == old(tree)
      ensures failures == old(failures) + if ok then 0 else 1
      ensures ok ==> var k := At(path);
                     k != [] && IsDir(old(tree), k) && Empty(old(tree), k) && tree == old(tree) - {k}
    {
      var k := At(path);
      var refused := MayFail();
      ok := !refused && path != "" && k != [] && IsDir(tree, k) && Empty(tree, k);
      if ok {
        tree := tree - {k};
      }
      Note(ok);
    }

    // -------------------------------------------------------------- names

    method Unlink(path: string) returns (ok: bool)
      modifies this`tree, this`history, this`failures
      ensures history == old(history) + [tree]
      ensures !ok ==> tree == old(tree)
      ensures failures == old(failures) + if ok then 0 else 1
      ensures ok ==> var k := At(path); k in old(tree) && !old(tree)[k].Dir? && tree == old(tree) - {k}
    {
      var k := At(path);
      var refused := MayFail();
      ok := !refused && k in tree && !tree[k].Dir?;
      if ok {
        tree := tree - {k};
      }
      Note(ok);
    }

    method Rename(from: string, to: string) returns (ok: bool)
      modifies this`tree, this`history, this`failures
      ensures history == old(history) + [tree]
      ensures !ok ==> tree == old(tree)
      ensures failures == old(failures) + if ok then 0 else 1
      ensures ok ==> Renamed(old(tree), tree, At(from), At(to))
    {
      var a, b := At(from), At(to);
      var refused := MayFail();
      ok := a in tree && !tree[a].Dir? && b != [] && IsDir(tree, Parent(b)) && (b in tree ==> !tree[b].Dir?);
      ok := ok && !refused;
      if ok {
        tree := (tree - {a})[b := tree[a]];
      }
      Note(ok);
    }

    /** iposix_file_link: symlink(). */
    method Symlink(target: string, path: string) returns (ok: bool)
      modifies this`tree, this`history, this`failures
      ensures history == old(history) + [tree]
      ensures !ok ==> tree == old(tree)
      ensures failures == old(failures) + if ok then 0 else 1
      ensures ok ==> var k := At(path);
                     k != [] && k !in old(tree) && IsDir(old(tree), Parent(k)) && tree == old(tree)[k := Link(target)]
    {
      var k := At(path);
      var refused := MayFail();
      ok := !refused && k != [] && k !in tree && IsDir(tree, Parent(k));
      if ok {
        tree := tree[k := Link(target)];
      }
      Note(ok);
    }

    method GetCwd() returns (ok: bool, key: Key)
      modifies this`failures
      ensures ok ==> key == cwd
      ensures failures == old(failures) + if ok then 0 else 1
    {
      var refused := MayFail();
      Count(!refused);
      return !refused, cwd;
    }

    method Chdir(path: string) returns (ok: bool)
      modifies this`cwd, this`failures
      ensures !ok ==> cwd == old(cwd)
      ensures ok ==> path != "" && cwd == Resolve(old(cwd), path) && IsDir(tree, cwd)
      ensures failures == old(failures) + if ok then 0 else 1
    {
      var refused := MayFail();
      ok := !refused && path != "" && IsDir(tree, At(path));
      Count(ok);
      if ok {
        cwd := At(path);
      }
    }

    /** chdir() to a directory whose name getcwd() has given. */
    method Return(key: Key) returns (ok: bool)
      modifies this`cwd, this`failures
      ensures cwd == if ok then key else old(cwd)
      ensures failures == old(failures) + if ok then 0 else 1
    {
      var refused := MayFail();
      ok := !refused && IsDir(tree, key);
      Count(ok);
      if ok {
        cwd := key;
      }
    }

    // -------------------------------------------------------------- modes and owners

    method Chmod(path: string, mode: bv32) returns (ok: bool)
      modifies this`tree, this`history, this`failures
      ensures history == old(history) + [tree]
      ensures !ok ==> tree == old(tree)
      ensures failures == old(failures) + if ok then 0 else 1
      ensures ok ==> ModeSet(old(tree), tree, At(path), mode)
    {
      var k := At(path);
      var refused := MayFail();
      ok := !refused && path != "" && k in tree && !tree[k].Link?;
      if ok {
        tree := tree[k := tree[k].(mode := AllModes(mode))];
      }
      Note(ok);
    }

    method Chown(path: string, uid: int, gid: int) returns (ok: bool)
      modifies this`tree, this`history, this`failures
      ensures history == old(history) + [tree]
      ensures !ok ==> tree == old(tree)
      ensures failures == old(failures) + if ok then 0 else 1
      ensures ok ==> OwnerSet(old(tree), tree, At(path), uid, gid)
    {
      hide OwnedFrom, OwnedMode, Resolve;
      var k := At(path);
      var refused := MayFail();
      var kept: bv32 := *;
      ok := !refused && path != "" && k in tree && !tree[k].Link?;
      if ok {
        var m := OwnedMode(tree[k].mode, kept);
        tree := tree[k := tree[k].(mode := m, uid := uid, gid := gid)];
      }
      Note(ok);
    }

    /** What the planning of an installation depends on. */
    function Current(): Setting
      reads this`cwd, this`umask
    {
      Setting(cwd, umask, users, groups, uid, gid, haveSymlinks, dirSizes)
    }

    // -------------------------------------------------------------- streams

    method OpenRead(path: string) returns (ok: bool)
      modifies this`failures
      ensures ok ==> At(path) in tree && tree[At(path)].File?
      ensures failures == old(failures) + if ok then 0 else 1
    {
      var refused := MayFail();
      ok := !refused && At(path) in tree && tree[At(path)].File?;
      Count(ok);
    }

    /** fopen (path, "wb"): an existing file is emptied, a missing one is made. */
    method Create(path: string) returns (ok: bool)
      modifies this`tree, this`history, this`failures
      ensures history == old(history) + [tree]
      ensures !ok ==> tree == old(tree)
      ensures failures == old(failures) + if ok then 0 else 1
      ensures ok ==> var k := At(path);
                     && (k in old(tree) ==> old(tree)[k].File?)
                     && k != [] && IsDir(old(tree), Parent(k))
                     && k in tree && tree[k].File? && tree[k].content == []
                     && tree == old(tree)[k := tree[k]]
    {
      var k := At(path);
      var refused := MayFail();
      ok := !refused && k != [] && IsDir(tree, Parent(k)) && (k in tree ==> tree[k].File?);
      if ok {
        tree := tree[k := if k in tree then tree[k].(content := []) else File([], 0x1b6 & !umask, uid, gid)];
      }
      Note(ok);
    }

    /** fread(): up to the length of the buffer; nothing means the end or an error. */
    method Read(k: Key, pos: nat, buf: array<byte>) returns (r: nat, eof: bool)
      requires k in tree && tree[k].File? && pos <= |tree[k].content| && buf.Length > 0
      modifies buf, this`failures
      ensures failures == old(failures) + if r == 0 && !eof then 1 else 0
      ensures r <= buf.Length && pos + r <= |tree[k].content|
      ensures buf[..r] == tree[k].content[pos..pos + r]
      ensures r == 0 && eof ==> pos == |tree[k].content|
    {
      var content := tree[k].content;
      var refused := MayFail();
      var few: int := *;
      eof := pos == |content|;
      if refused || eof {
        Count(!refused);
        return 0, eof && !refused;
      }
      r := |content| - pos;
      if r > buf.Length {
        r := buf.Length;
      }
      if 0 < few < r {
        r := few;
      }
      forall i | 0 <= i < r {
        buf[i] := content[pos + i];
      }
      assert forall i :: 0 <= i < r ==> buf[..r][i] == content[pos..pos + r][i];
    }

    /** fwrite(): a part of the data; nothing means an error. */
    method Write(k: Key, buf: array<byte>, start: nat, count: nat) returns (w: nat)
      requires k in tree && tree[k].File? && start + count <= buf.Length
      modifies this`tree, this`history, this`failures
      ensures history == old(history) + [tree]
      ensures w <= count && failures == old(failures) + if w == 0 && count > 0 then 1 else 0
      ensures tree == old(tree)[k := old(tree)[k].(content := old(tree)[k].content + buf[start..start + w])]
    {
      var few: int := *;
      w := if 0 <= few < count then few else count;
      tree := tree[k := tree[k].(content := tree[k].content + buf[start..start + w])];
      Note(w > 0 || count == 0);
    }
  }
}
