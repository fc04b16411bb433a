/** The two workers of install-core.c that act on the tree in many steps:
    install_file_copy and install_rmkdir. */
module InstallCore {
  import opened Bytes
  import opened Strings
  import opened Paths
  import opened OsModel

  datatype Status = Ok | Error(message: string) | Fatal(message: string)

  // ---------------------------------------------------------------- install_file_copy

  /** The trees agree on everything but one node. */
  ghost predicate AgreeBut(a: Tree, b: Tree, except: Key) {
    forall k :: k != except ==> (k in a <==> k in b) && (k in a ==> a[k] == b[k])
  }

  /** A file has been copied: nothing has changed but its destination, and the
      temporary file is gone.  A source that is the temporary file itself has
      been emptied first. */
  ghost predicate Copied(t: Tree, t': Tree, src: Key, dst: Key, tmp: Key, uid: int, gid: int, mode: bv32) {
    && src in t && t[src].File?
    && (tmp in t ==> t[tmp].File?)
    && (tmp != dst ==> dst in t ==> !t[dst].Dir?)
    && dst != [] && IsDir(t, Parent(dst))
    && dst in t' && t'[dst].File? && t' == (t - {tmp})[dst := t'[dst]]
    && t'[dst].content == (if src == tmp then [] else t[src].content)
    && t'[dst].uid == uid && t'[dst].gid == gid && OwnedFrom(t'[dst].mode, AllModes(mode))
  }

  /** Every tree seen from call number `from` on agrees with `t` but for the temporary file. */
  ghost predicate OnlyTmp(history: seq<Tree>, from: nat, t: Tree, tmp: Key) {
    forall i :: from <= i < |history| ==> AgreeBut(t, history[i], tmp)
  }

  /** A call that touches the temporary file at most. */
  lemma TmpStep(t: Tree, tmp: Key, before: Tree, history: seq<Tree>, from: nat, after: Tree)
    requires AgreeBut(t, before, tmp) && from <= |history| && OnlyTmp(history, from, t, tmp)
    requires after == before || (tmp in after && after == before[tmp := after[tmp]]) || after == before - {tmp}
    ensures AgreeBut(t, after, tmp) && OnlyTmp(history + [after], from, t, tmp)
  {
  }

  /** The history goes on from `h`, and so far nothing but the temporary file differs from `t`. */
  ghost predicate TmpOnlySince(os: Os, h: seq<Tree>, t: Tree, tmp: Key)
    reads os`history, os`tree
  {
    && |os.history| >= |h| && os.history[..|h|] == h
    && AgreeBut(t, os.tree, tmp) && OnlyTmp(os.history, |h|, t, tmp)
  }

  /** The nested loops: whatever pieces fread() and fwrite() handle, the temporary
      file ends as a copy of the source. */
  method CopyData(os: Os, src: Key, tmpName: string, buf: array<byte>, ghost t: Tree, ghost h: seq<Tree>)
    returns (ok: bool)
    requires src in os.tree && os.tree[src].File? && buf.Length > 0
    requires var tmp := os.At(tmpName);
             tmp in os.tree && os.tree[tmp].File? && os.tree[tmp].content == [] && TmpOnlySince(os, h, t, tmp)
    modifies os`tree, os`history, os`failures, buf
    ensures TmpOnlySince(os, h, t, os.At(tmpName))
    ensures var tmp := os.At(tmpName);
            && tmp in os.tree && os.tree[tmp].File? && os.tree == old(os.tree)[tmp := os.tree[tmp]]
            && (ok ==> os.tree[tmp].content == old(os.tree)[src].content)
    ensures os.failures >= old(os.failures) && (!ok ==> os.failures > old(os.failures))
  {
    hide AgreeBut, OnlyTmp;
    var tmp := os.At(tmpName);
    ghost var content := os.tree[src].content;
    var pos: nat := 0;
    while true
      invariant pos <= |content| && TmpOnlySince(os, h, t, tmp)
      invariant tmp in os.tree && os.tree == old(os.tree)[tmp := os.tree[tmp]] && os.tree[tmp].File?
      invariant os.tree[tmp].content == content[..pos]
      invariant src in os.tree && os.tree[src].File? && os.tree[src].content == content
      invariant os.failures >= old(os.failures)
      decreases |content| - pos
    {
      var r, eof := os.Read(src, pos, buf);
      if r == 0 {
        return eof;
      }
      ok := WriteAll(os, tmp, buf, r, t, h);
      if !ok {
        return;
      }
      assert content[..pos] + content[pos..pos + r] == content[..pos + r];
      pos := pos + r;
    }
  }

  /** The inner loop: fwrite() until the buffer is empty. */
  method WriteAll(os: Os, tmp: Key, buf: array<byte>, count: nat, ghost t: Tree, ghost h: seq<Tree>) returns (ok: bool)
    requires tmp in os.tree && os.tree[tmp].File? && count <= buf.Length && TmpOnlySince(os, h, t, tmp)
    modifies os`tree, os`history, os`failures
    ensures TmpOnlySince(os, h, t, tmp)
    ensures tmp in os.tree && os.tree[tmp].File? && os.tree == old(os.tree)[tmp := os.tree[tmp]]
    ensures ok ==> os.tree[tmp].content == old(os.tree)[tmp].content + buf[..count]
    ensures os.failures >= old(os.failures) && (!ok ==> os.failures > old(os.failures))
  {
    hide AgreeBut, OnlyTmp;
    var r, start: nat := count, 0;
    while r > 0
      invariant start + r == count && TmpOnlySince(os, h, t, tmp)
      invariant tmp in os.tree && os.tree[tmp].File? && os.tree == old(os.tree)[tmp := os.tree[tmp]]
      invariant os.tree[tmp].content == old(os.tree)[tmp].content + buf[..start] && os.failures >= old(os.failures)
      decreases r
    {
      ghost var before, h1 := os.tree, os.history;
      var w := os.Write(tmp, buf, start, r);
      TmpStep(t, tmp, before, h1, |h|, os.tree);
      if w == 0 {
        return false;
      }
      assert buf[..start] + buf[start..start + w] == buf[..start + w];
      r := r - w;
      start := start + w;
    }
    return true;
  }

  /** install_file_copy: the destination is replaced by the last step or not at all. */
  method FileCopy(os: Os, src: string, dst: string, uid: int, gid: int, mode: bv32, buf: array<byte>)
    returns (status: Status)
    requires buf.Length > 0
    modifies os`tree, os`history, os`failures, buf
    ensures status.Ok? || status.Error?
    ensures status.Ok? ==>
              && Copied(old(os.tree), os.tree, os.At(src), os.At(dst), os.At(TmpName(dst)), uid, gid, mode)
              && |os.history| > |old(os.history)| && os.history[..|old(os.history)|] == old(os.history)
              && os.history[|os.history| - 1] == os.tree
              && OnlyTmp(os.history[..|os.history| - 1], |old(os.history)|, old(os.tree), os.At(TmpName(dst)))
    ensures status.Error? ==> TmpOnlySince(os, old(os.history), old(os.tree), os.At(TmpName(dst)))
    ensures status.Error? ==>
              os.tree == old(os.tree) || os.At(TmpName(dst)) !in os.tree || os.failures >= old(os.failures) + 2
    ensures os.failures >= old(os.failures) && (status.Error? ==> os.failures > old(os.failures))
  {
    hide AgreeBut, OnlyTmp, Copied, OwnedFrom, AllModes, Resolve, TmpName;
    var tmpName := TmpName(dst);
    ghost var t, h, tmp := os.tree, os.history, os.At(tmpName);
    AgreesWithItself(t, tmp, h);
    var ok := os.OpenRead(src);
    if !ok {
      return Error("could not open source file");
    }
    ok := os.Create(tmpName);
    TmpStep(t, tmp, t, h, |h|, os.tree);
    if ok {
      ghost var created := os.tree;
      ok := CopyData(os, os.At(src), tmpName, buf, t, h);
      if ok {
        ghost var full := os.tree;
        status := Publish(os, tmpName, dst, uid, gid, mode, t, h);
        if status.Ok? {
          CopyIsDone(t, created, full, os.tree, os.At(src), os.At(dst), tmp, uid, gid, mode);
          return;
        }
      } else {
        status := Error("read or write error");
      }
    } else {
      status := Error("could not open destination file");
    }
    ghost var before, h2 := os.tree, os.history;
    var _ := os.Unlink(tmpName);
    TmpStep(t, tmp, before, h2, |h|, os.tree);
  }

  lemma AgreesWithItself(t: Tree, tmp: Key, history: seq<Tree>)
    ensures AgreeBut(t, t, tmp) && OnlyTmp(history, |history|, t, tmp)
  {
  }

  /** Opening, copying and publishing add up to Copied. */
  lemma CopyIsDone(t: Tree, created: Tree, full: Tree, t': Tree, src: Key, dst: Key, tmp: Key, uid: int, gid: int,
          mode: bv32)
    requires src in t && t[src].File? && (tmp in t ==> t[tmp].File?)
    requires tmp in created && created[tmp].File? && created[tmp].content == [] && created == t[tmp := created[tmp]]
    requires tmp in full && full[tmp].File? && full == created[tmp := full[tmp]]
    requires src in created && created[src].File? && full[tmp].content == created[src].content
    requires dst != [] && IsDir(t, Parent(dst)) && (tmp != dst ==> dst in t ==> !t[dst].Dir?)
    requires dst in t' && t'[dst].File? && t' == (full - {tmp})[dst := t'[dst]] && t'[dst].content == full[tmp].content
    requires t'[dst].uid == uid && t'[dst].gid == gid && OwnedFrom(t'[dst].mode, AllModes(mode))
    ensures Copied(t, t', src, dst, tmp, uid, gid, mode)
  {
    assert full - {tmp} == t - {tmp};
  }

  /** The end of install_file_copy: mode, owner and name of the finished copy. */
  method Publish(os: Os, tmpName: string, dst: string, uid: int, gid: int, mode: bv32, ghost t: Tree,
          ghost h: seq<Tree>)
    returns (status: Status)
    requires os.At(tmpName) in os.tree && os.tree[os.At(tmpName)].File?
    requires TmpOnlySince(os, h, t, os.At(tmpName))
    modifies os`tree, os`history, os`failures
    ensures status.Ok? || status.Error?
    ensures status.Ok? ==>
              var tmp, k, file := os.At(tmpName), os.At(dst), old(os.tree)[os.At(tmpName)];
              && k != [] && IsDir(t, Parent(k)) && (tmp != k ==> k in t ==> !t[k].Dir?)
              && k in os.tree && os.tree[k].File? && os.tree == (old(os.tree) - {tmp})[k := os.tree[k]]
              && os.tree[k].content == file.content
              && os.tree[k].uid == uid && os.tree[k].gid == gid && OwnedFrom(os.tree[k].mode, AllModes(mode))
              && |os.history| > |h| && os.history[..|h|] == h && os.history[|os.history| - 1] == os.tree
              && OnlyTmp(os.history[..|os.history| - 1], |h|, t, tmp)
    ensures status.Error? ==> TmpOnlySince(os, h, t, os.At(tmpName))
    ensures os.failures >= old(os.failures) && (status.Error? ==> os.failures > old(os.failures))
  {
    hide AgreeBut, OnlyTmp;
    ghost var tmp, t0, h0 := os.At(tmpName), os.tree, os.history;
    var ok := os.Chmod(tmpName, mode);
    TmpStep(t, tmp, t0, h0, |h|, os.tree);
    if !ok {
      return Error("could not set file permissions");
    }
    ghost var t1, h1 := os.tree, os.history;
    ok := os.Chown(tmpName, uid, gid);
    TmpStep(t, tmp, t1, h1, |h|, os.tree);
    if !ok {
      return Error("could not set file ownership");
    }
    ghost var t2, h2 := os.tree, os.history;
    ok := os.Rename(tmpName, dst);
    if !ok {
      TmpStep(t, tmp, t2, h2, |h|, os.tree);
      return Error("could not rename temporary file");
    }
    assert os.history[..|os.history| - 1] == h2;
    RenameSeesOriginal(t, t2, tmp, os.At(dst));
    return Ok;
  }

  /** Up to the final rename the destination is as it was, if the temporary file is another. */
  lemma DestinationStays(history: seq<Tree>, from: nat, t: Tree, cwd: Key, dst: string, i: nat)
    requires |dst| <= 1021 || (|dst| == 1022 && dst[1021] != '/')
    requires from <= i < |history| && OnlyTmp(history, from, t, Resolve(cwd, TmpName(dst)))
    ensures var k := Resolve(cwd, dst); (k in history[i] <==> k in t) && (k in t ==> history[i][k] == t[k])
  {
    hide Resolve, TmpName;
    TmpIsAnother(cwd, dst);
  }

  lemma RenameSeesOriginal(t: Tree, full: Tree, tmp: Key, dst: Key)
    requires AgreeBut(t, full, tmp) && tmp in full && full[tmp].File?
    requires dst != [] && IsDir(full, Parent(dst)) && (dst in full ==> !full[dst].Dir?)
    ensures IsDir(t, Parent(dst)) && (tmp != dst ==> dst in t ==> !t[dst].Dir?)
  {
  }

  // ---------------------------------------------------------------- the mode of a copy

  const SET_IDS: bv32 := 0xc00     // 06000

  /** As the mode is set before the owner, the mode of a copy is the one asked for on
      every system if and only if no set-id bit is asked for. */
  lemma ModeIsAsked(mode: bv32)
    ensures (forall m :: OwnedFrom(m, AllModes(mode)) ==> m == AllModes(mode)) <==> mode & SET_IDS == 0
  {
    if mode & SET_IDS == 0 {
      forall m | OwnedFrom(m, AllModes(mode))
        ensures m == AllModes(mode)
      {
        NothingToLose(m, mode);
      }
    } else {
      SetIdsAreLost(mode);
    }
  }

  /** Of the mode asked for a copy has all permissions and the sticky bit, and no bit that
      was not asked for. */
  lemma ModeOfCopy(t: Tree, t': Tree, src: Key, dst: Key, tmp: Key, uid: int, gid: int, mode: bv32)
    requires Copied(t, t', src, dst, tmp, uid, gid, mode)
    ensures t'[dst].mode & 0x3ff == mode & 0x3ff
    ensures t'[dst].mode & (mode & 0xfff) == t'[dst].mode
  {
    BitsOfOwned(t'[dst].mode, mode);
  }

  lemma BitsOfOwned(m: bv32, mode: bv32)
    requires OwnedFrom(m, AllModes(mode))
    ensures m & 0x3ff == mode & 0x3ff && m & (mode & 0xfff) == m
  {
  }

  lemma NothingToLose(m: bv32, mode: bv32)
    requires mode & SET_IDS == 0 && OwnedFrom(m, AllModes(mode))
    ensures m == AllModes(mode)
  {
  }

  lemma SetIdsAreLost(mode: bv32)
    requires mode & SET_IDS != 0
    ensures OwnedFrom(Sticky(mode), AllModes(mode)) && Sticky(mode) != AllModes(mode)
  {
  }

  /** A copy asked for with 04755 may end with 0755, and nothing has failed: the trees
      before, with the whole temporary file, and after chmod(), chown() and rename(). */
  lemma SetIdsCanBeLost() returns (t: Tree, full: Tree, t1: Tree, t2: Tree, t': Tree)
    ensures var dst, tmp := ["b"], ["b.tmp"];
            && tmp !in t && AgreeBut(t, full, tmp)
            && ModeSet(full, t1, tmp, 0x9ed) && OwnerSet(t1, t2, tmp, 0, 0) && Renamed(t2, t', tmp, dst)
            && Copied(t, t', ["a"], dst, tmp, 0, 0, 0x9ed)
            && t1[tmp].mode == 0x9ed && t'[dst].mode == 0x1ed
  {
    var a, dst, tmp := ["a"], ["b"], ["b.tmp"];
    t := map[[] := Dir(0x1ed, 0, 0), a := File([], 0x1ed, 0, 0)];
    full := t[tmp := File([], 0x1a4, 0, 0)];
    t1 := full[tmp := File([], 0x9ed, 0, 0)];
    t2 := t1[tmp := File([], 0x1ed, 0, 0)];
    t' := t[dst := File([], 0x1ed, 0, 0)];
    assert Parent(dst) == [];
    assert t - {tmp} == t && t2 - {tmp} == t;
  }

  // ---------------------------------------------------------------- install_rmkdir

  /** The prefixes of the first `n` characters that end in a slash, shortest first. */
  function SlashPrefixes(dir: string, n: nat): seq<string>
    requires n <= |dir|
  {
    if n == 0 then [] else SlashPrefixes(dir, n - 1) + (if dir[n - 1] == '/' then [dir[..n]] else [])
  }

  predicate OpenEnded(dir: string) { dir != "" && dir[|dir| - 1] != '/' }

  /** What install_rmkdir should try to make: every ancestor, then the whole path. */
  function Attempts(dir: string): seq<string> {
    SlashPrefixes(dir, |dir|) + if OpenEnded(dir) then [dir + "/"] else []
  }

  lemma {:induction false} NoSlashBetween(dir: string, from: nat, to: nat)
    requires from <= to <= |dir| && forall i :: from <= i < to ==> dir[i] != '/'
    ensures SlashPrefixes(dir, to) == SlashPrefixes(dir, from)
  {
    if from < to {
      NoSlashBetween(dir, from, to - 1);
    }
  }

  /** One call of mkdir(): a new directory, or no change. */
  predicate MkdirStep(t: Tree, t': Tree, k: Key, mode: bv32) { t' == t || MadeDir(t, t', k, mode) }

  function Before(t: Tree, trees: seq<Tree>, i: nat): Tree
    requires i <= |trees|
  {
    if i == 0 then t else trees[i - 1]
  }

  /** The calls of one install_rmkdir, and the trees they leave. */
  ghost predicate MkdirRun(t: Tree, trees: seq<Tree>, cwd: Key, attempts: seq<string>, mode: bv32) {
    && |trees| == |attempts|
    && forall i :: 0 <= i < |trees| ==> MkdirStep(Before(t, trees, i), trees[i], Resolve(cwd, attempts[i]), mode)
  }

  /** The place of the first slash from `from` on, or the length: strchr(). */
  method FindSlash(dir: string, from: nat) returns (i: nat)
    requires from <= |dir|
    ensures from <= i <= |dir|
    ensures forall j :: from <= j < i ==> dir[j] != '/'
    ensures i < |dir| ==> dir[i] == '/'
  {
    i := from;
    while i < |dir| && dir[i] != '/'
      invariant from <= i <= |dir|
      invariant forall j :: from <= j < i ==> dir[j] != '/'
    {
      i := i + 1;
    }
  }

  /** memcpy() of the next part of the name, with a slash and a NUL after it. */
  method AppendPart(pathBuf: array<char>, dir: string, ptr: nat, slash: nat)
    requires ptr <= slash <= |dir| && slash + 1 < pathBuf.Length && '\0' !in dir
    requires pathBuf[..ptr] == dir[..ptr]
    modifies pathBuf
    ensures pathBuf[..slash + 1] == dir[..slash] + "/"
    ensures Chars(pathBuf[..]) == dir[..slash] + "/"
  {
    forall i | ptr <= i < slash {
      pathBuf[i] := dir[i];
    }
    pathBuf[slash] := '/';
    pathBuf[slash + 1] := '\0';
    assert pathBuf[..slash] == dir[..slash] by {
      assert forall i :: 0 <= i < ptr ==> pathBuf[i] == old(pathBuf[..ptr])[i];
    }
    assert pathBuf[..slash + 1] == dir[..slash] + "/";
    CharsUpTo(pathBuf[..], slash + 1);
    assert pathBuf[..][..slash + 1] == pathBuf[..slash + 1];
  }

  /** The system has gone through these attempts since `t` and `h`. */
  ghost predicate Ran(os: Os, t: Tree, h: seq<Tree>, attempts: seq<string>, trees: seq<Tree>, mode: bv32)
    reads os
  {
    MkdirRun(t, trees, os.cwd, attempts, mode) && os.history == h + trees && os.tree == Before(t, trees, |trees|)
  }

  method MkdirNoted(os: Os, path: string, perm: bv32, ghost t: Tree, ghost h: seq<Tree>,
                    ghost attempts: seq<string>, ghost trees: seq<Tree>)
    returns (r: int)
    requires Ran(os, t, h, attempts, trees, Masked(perm, os.umask))
    modifies os`tree, os`history, os`failures
    ensures (r == 0 || r == 1) && os.failures == old(os.failures)
    ensures Ran(os, t, h, attempts + [path], trees + [os.tree], Masked(perm, os.umask))
  {
    hide Masked, MkdirRun, MadeDir;
    r := os.Mkdir(path, perm);
    RunGoesOn(t, trees, os.cwd, attempts, Masked(perm, os.umask), path, os.tree);
    assert h + trees + [os.tree] == h + (trees + [os.tree]);
  }

  lemma RunGoesOn(t: Tree, trees: seq<Tree>, cwd: Key, attempts: seq<string>, mode: bv32, path: string, after: Tree)
    requires MkdirRun(t, trees, cwd, attempts, mode)
    requires MkdirStep(Before(t, trees, |trees|), after, Resolve(cwd, path), mode)
    ensures MkdirRun(t, trees + [after], cwd, attempts + [path], mode)
  {
    hide MadeDir, MkdirStep, Resolve;
    var trees', attempts' := trees + [after], attempts + [path];
    forall i | 0 <= i < |trees'|
      ensures MkdirStep(Before(t, trees', i), trees'[i], Resolve(cwd, attempts'[i]), mode)
    {
      assert Before(t, trees', i) == Before(t, trees, i);
    }
  }

  /** What remains of Attempts once the part up to `slash` is done. */
  lemma PartDone(dir: string, ptr: nat, slash: nat)
    requires ptr <= slash <= |dir| && ptr < |dir| && forall i :: ptr <= i < slash ==> dir[i] != '/'
    requires slash < |dir| ==> dir[slash] == '/'
    requires ptr == 0 || dir[ptr - 1] == '/'
    ensures slash < |dir| ==> SlashPrefixes(dir, slash + 1) == SlashPrefixes(dir, ptr) + [dir[..slash] + "/"]
    ensures slash == |dir| ==> OpenEnded(dir) && Attempts(dir) == SlashPrefixes(dir, ptr) + [dir[..slash] + "/"]
    ensures slash + 1 == |dir| ==> Attempts(dir) == SlashPrefixes(dir, ptr) + [dir[..slash] + "/"]
  {
    NoSlashBetween(dir, ptr, slash);
    if slash < |dir| {
      assert dir[..slash + 1] == dir[..slash] + "/";
    } else {
      assert dir[..slash] == dir;
    }
  }

  /** install_rmkdir.  A name of 1023 bytes without a trailing slash loses its last
      attempt, a longer one is refused.  Failures of mkdir() go unnoticed, as the
      test is for -1 and iposix_mkdir never returns it. */
  method Rmkdir(os: Os, dir: string, perm: bv32) returns (r: int, ghost attempts: seq<string>, ghost trees: seq<Tree>)
    requires '\0' !in dir
    modifies os`tree, os`history, os`failures
    ensures r == (if |dir| < MAX_PATHLEN then 1 else 0) && os.failures == old(os.failures)
    ensures attempts == if |dir| >= MAX_PATHLEN then []
                        else if |dir| == 1023 && OpenEnded(dir) then SlashPrefixes(dir, |dir|)
                        else Attempts(dir)
    ensures Ran(os, old(os.tree), old(os.history), attempts, trees, Masked(perm, os.umask))
  {
    hide Ran, SlashPrefixes, Chars, Masked;
    attempts, trees := [], [];
    EmptyRun(os, Masked(perm, os.umask), dir);
    if |dir| >= MAX_PATHLEN {
      return 0, attempts, trees;
    }
    var pathBuf := new char[MAX_PATHLEN];
    var len: nat, ptr: nat, bufPos: nat, bufLen: nat := |dir|, 0, 0, MAX_PATHLEN;
    while len > 0
      invariant len > 0 ==> ptr + len == |dir| && bufPos == ptr && bufLen == MAX_PATHLEN - bufPos
      invariant len > 0 ==> (ptr == 0 || dir[ptr - 1] == '/') && pathBuf[..bufPos] == dir[..ptr]
      invariant attempts == if len > 0 then SlashPrefixes(dir, ptr) else Attempts(dir)
      invariant len == 0 ==> !(|dir| == 1023 && OpenEnded(dir))
      invariant os.failures == old(os.failures)
      invariant Ran(os, old(os.tree), old(os.history), attempts, trees, Masked(perm, os.umask))
      decreases len
    {
      var slash := FindSlash(dir, ptr);
      var pos := slash - ptr;
      PartDone(dir, ptr, slash);
      if bufLen <= pos + 1 {
        NoSlashBetween(dir, ptr, slash);
        return 1, attempts, trees;
      }
      AppendPart(pathBuf, dir, bufPos, slash);
      bufPos := bufPos + pos + 1;
      bufLen := bufLen - pos - 1;
      var _ := MkdirNoted(os, Chars(pathBuf[..]), perm, old(os.tree), old(os.history), attempts, trees);
      attempts, trees := attempts + [dir[..slash] + "/"], trees + [os.tree];
      ptr := ptr + pos;
      len := len - pos;
      if len > 0 {
        ptr := ptr + 1;
        len := len - 1;
      }
    }
    return 1, attempts, trees;
  }

  lemma EmptyRun(os: Os, mode: bv32, dir: string)
    ensures Ran(os, os.tree, os.history, [], [], mode) && SlashPrefixes(dir, 0) == []
    ensures dir == "" ==> Attempts(dir) == []
  {
    assert os.history + [] == os.history;
  }
}
