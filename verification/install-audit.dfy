/** instchk.c: the audit of an installation, and what it finds after an
    installation without errors. */
module InstallAudit {
  import opened Wrappers
  import opened Strings
  import opened Paths
  import opened OsModel
  import opened InstallCore
  import opened InstallItems
  import opened InstallPlans
  import opened InstallOps
  import opened InstallDrivers

  const CHECKED: bv32 := 0x1ed     // 0755: what iposix_file_get_mode keeps of a mode

  function Checked(mode: bv32): bv32 { mode & CHECKED }

  /** install_failed, the number of failures so far. */
  class Failures {
    var count: nat

    constructor ()
      ensures count == 0
    {
      count := 0;
    }
  }

  /** stat(), for a path that does not end in a symbolic link. */
  function Stat(t: Tree, cwd: Key, path: string): Option<Node> {
    var k := Resolve(cwd, path);
    if path != "" && k in t && !t[k].Link? then Some(t[k]) else None
  }

  /** The size that stat() gives for a node, or zero for none. */
  function SizeAt(dirSizes: map<Key, nat>, t: Tree, k: Key): nat {
    if k !in t || t[k].Link? then 0
    else if t[k].File? then |t[k].content|
    else if k in dirSizes then dirSizes[k]
    else 0
  }

  function SizeOf(e: Setting, t: Tree, path: string): nat {
    if path == "" then 0 else SizeAt(e.dirSizes, t, Resolve(e.cwd, path))
  }

  /** What install_file_check accepts: the type is compared only where there are no
      symbolic links, and the size only for files. */
  predicate Passes(e: Setting, t: Tree, src: string, perm: bv32, isFile: bool, uid: int, gid: int, dst: string) {
    var n := Stat(t, e.cwd, dst);
    && n.Some? && !n.value.Link?
    && (!e.haveSymlinks ==> n.value.File? == isFile)
    && (isFile ==> SizeOf(e, t, dst) == SizeOf(e, t, src))
    && Checked(n.value.mode) == perm && n.value.uid == uid && n.value.gid == gid
  }

  /** What the audit accepts, in the words of the table: the destination is there, is no
      link, and has the owner, the group, the permissions but for 0022, and for files the
      size; and the type, where there are no symbolic links. */
  lemma PassesMeans(e: Setting, t: Tree, src: string, perm: bv32, isFile: bool, uid: int, gid: int, dst: string)
    ensures Passes(e, t, src, perm, isFile, uid, gid, dst) <==>
            var k := Resolve(e.cwd, dst);
            && dst != "" && k in t && !t[k].Link?
            && t[k].uid == uid && t[k].gid == gid && t[k].mode & 0x1ed == perm
            && (isFile ==> SizeOf(e, t, dst) == SizeOf(e, t, src))
            && (!e.haveSymlinks ==> t[k].File? == isFile)
  {
    hide SizeAt, Resolve;
  }

  /** install_file_check. */
  method FileCheck(os: Os, src: string, perm: bv32, isFile: bool, uid: int, gid: int, dst: string)
    returns (status: Status)
    ensures status.Ok? || status.Error?
    ensures status.Ok? <==> Passes(os.Current(), os.tree, src, perm, isFile, uid, gid, dst)
    ensures status.Ok? ==>
              var k := os.At(dst);
              && k in os.tree && !os.tree[k].Link?
              && os.tree[k].uid == uid && os.tree[k].gid == gid && Checked(os.tree[k].mode) == perm
              && (isFile ==> SizeOf(os.Current(), os.tree, dst) == SizeOf(os.Current(), os.tree, src))
              && (!os.haveSymlinks ==> os.tree[k].File? == isFile)
  {
    hide SizeAt, Resolve, Checked;
    var sizeWant := 0;
    if isFile {
      sizeWant := SizeOf(os.Current(), os.tree, src);
    }
    var got := Stat(os.tree, os.cwd, dst);
    if got.None? {
      return Error("could not determine destination file type");
    }
    if !os.haveSymlinks && got.value.File? != isFile {
      return Error("filetype");
    }
    if isFile {
      var sizeGot := SizeOf(os.Current(), os.tree, dst);
      if sizeWant != sizeGot {
        return Error("size");
      }
    }
    var modeGot := Checked(got.value.mode);
    if modeGot != perm {
      return Error("mode");
    }
    if uid != got.value.uid {
      return Error("uid");
    }
    if gid != got.value.gid {
      return Error("gid");
    }
    return Ok;
  }

  // ---------------------------------------------------------------- operators and loop

  datatype Verdict = NotChecked | Passed | Failed

  function VerdictOf(e: Setting, t: Tree, op: Op, n: Names, owner: Option<string>, group: Option<string>, perm: bv32)
    : Verdict
  {
    var uid, gid := IdOf(owner, e.users, e.uid), IdOf(group, e.groups, e.gid);
    var src, dst := if op.InstMkdir? then n.dir else n.src, if op.InstMkdir? then n.dir else n.dst;
    if uid.None? || gid.None? || src.None? || dst.None? then NotChecked
    else if Passes(e, t, src.value, perm, !op.InstMkdir?, uid.value, gid.value, dst.value) then Passed
    else Failed
  }

  predicate IsLink(op: Op) { op.InstSymlink? || op.InstLiblink? }

  /** The audit of one line; what it finds about a link depends on the link's target. */
  ghost predicate Audited(e: Setting, t: Tree, line: Line, naming: Naming,
                          status: Status, verdict: Verdict) {
    var n := Translated(line.op, true, line.names, naming);
    && (status.Ok? <==> verdict.Passed?) && (verdict.Failed? ==> status.Error?)
    && (status.Fatal? <==> n.None?)
    && (n.Some? && !IsLink(line.op) ==> verdict == VerdictOf(e, t, line.op, n.value, line.owner, line.group, line.perm))
  }

  /** instchk_copy and instchk_mkdir. */
  method CheckItem(os: Os, item: Item, failures: Failures) returns (status: Status, ghost verdict: Verdict)
    requires if item.op.InstMkdir? then item.dir != null else !IsLink(item.op) && item.src != null && item.dst != null
    modifies failures
    ensures verdict == VerdictOf(os.Current(), os.tree, item.op, NamesOf(item), item.owner, item.group, item.perm)
    ensures (status.Ok? <==> verdict.Passed?) && !status.Fatal?
    ensures failures.count == old(failures.count) + if verdict.Failed? then 1 else 0
  {
    hide Passes, Chars, SizeOf, Resolve, Checked;
    verdict := VerdictOf(os.Current(), os.tree, item.op, NamesOf(item), item.owner, item.group, item.perm);
    var uid, gid;
    status, uid, gid := UidGidLookup(os, item);
    if !status.Ok? {
      return;
    }
    if item.op.InstMkdir? {
      status := FileCheck(os, Str(item.dir), item.perm, false, uid, gid, Str(item.dir));
    } else {
      status := FileCheck(os, Str(item.src), item.perm, true, uid, gid, Str(item.dst));
    }
    if !status.Ok? {
      failures.count := failures.count + 1;
    }
  }

  /** instchk_link and instchk_liblink: the outcome is open. */
  method CheckLink(os: Os, item: Item, failures: Failures) returns (status: Status, ghost verdict: Verdict)
    modifies failures
    ensures (status.Ok? <==> verdict.Passed?) && !status.Fatal?
    ensures failures.count == old(failures.count) + if verdict.Failed? then 1 else 0
  {
    var uid, gid;
    status, uid, gid := UidGidLookup(os, item);
    if !status.Ok? {
      return status, NotChecked;
    }
    var passes: bool := *;
    if !passes {
      failures.count := failures.count + 1;
      return Error("check of a symbolic link"), Failed;
    }
    return Ok, Passed;
  }

  /** install_check(). */
  method InstallCheck(os: Os, b: Buffers, item: Item, failures: Failures, ghost line: Line)
    returns (status: Status, ghost verdict: Verdict)
    requires Ready(b, item, line)
    modifies item`src, item`dst, b.All(), failures
    ensures Audited(os.Current(), os.tree, line, b.naming, status, verdict)
    ensures failures.count == old(failures.count) + if verdict.Failed? then 1 else 0
  {
    hide Translated, VerdictOf, Chars;
    status := Translate(b, item, true);
    if !status.Ok? {
      return status, NotChecked;
    }
    AuditedNames(line.op, line.names, b.naming);
    if IsLink(item.op) {
      status, verdict := CheckLink(os, item, failures);
    } else {
      status, verdict := CheckItem(os, item, failures);
    }
  }

  lemma AuditedNames(op: Op, n: Names, naming: Naming)
    ensures var m := Translated(op, true, n, naming);
            && (!IsLink(op) ==> m == Translated(op, false, n, naming))
            && (m.Some? ==> m.value.dir == n.dir)
            && (m.Some? && !IsLink(op) && !op.InstMkdir? ==> m.value.src.Some? && m.value.dst.Some?)
  {
  }

  function CountFailed(verdicts: seq<Verdict>): nat {
    if verdicts == [] then 0
    else CountFailed(verdicts[..|verdicts| - 1]) + if verdicts[|verdicts| - 1].Failed? then 1 else 0
  }

  ghost predicate Audit(e: Setting, t: Tree, lines: seq<Line>, naming: Naming,
                        statuses: seq<Status>, verdicts: seq<Verdict>) {
    && |verdicts| == |statuses| <= |lines|
    && forall i :: 0 <= i < |verdicts| ==> Audited(e, t, lines[i], naming, statuses[i], verdicts[i])
  }

  method CheckNext(os: Os, b: Buffers, items: seq<Item>, i: nat, failures: Failures, ghost lines: seq<Line>,
                   ghost statuses: seq<Status>, ghost verdicts: seq<Verdict>)
    returns (status: Status, ghost verdict: Verdict)
    requires i < |items| && Untouched(b, items, lines, i, |items|) && |statuses| == |verdicts| == i
    requires Audit(os.Current(), os.tree, lines, b.naming, statuses, verdicts)
    requires failures.count == CountFailed(verdicts)
    modifies items[i], b.All(), failures
    ensures Untouched(b, items, lines, i + 1, |items|)
    ensures Audit(os.Current(), os.tree, lines, b.naming, statuses + [status], verdicts + [verdict])
    ensures failures.count == CountFailed(verdicts + [verdict])
  {
    hide Audited, Chars;
    status, verdict := InstallCheck(os, b, items[i], failures, lines[i]);
    assert (verdicts + [verdict])[..i] == verdicts;
  }

  /** The loop of instchk.c. */
  method Instchk(os: Os, b: Buffers, items: seq<Item>, failures: Failures, ghost lines: seq<Line>)
    returns (code: int, ghost statuses: seq<Status>, ghost verdicts: seq<Verdict>)
    requires Untouched(b, items, lines, 0, |items|) && failures.count == 0
    modifies items, b.All(), failures
    ensures Audit(os.Current(), os.tree, lines, b.naming, statuses, verdicts)
    ensures failures.count == CountFailed(verdicts)
    ensures code == 112 ==> exists s :: s in statuses && s.Fatal?
    ensures code != 112 ==> |verdicts| == |items| && code == if failures.count == 0 then 0 else 1
  {
    statuses, verdicts := [], [];
    assert Audit(os.Current(), os.tree, lines, b.naming, statuses, verdicts);
    assert CountFailed([]) == 0;
    hide Audit, Untouched, CountFailed;
    var i := 0;
    while i < |items|
      invariant i <= |items| && |statuses| == |verdicts| == i
      invariant Audit(os.Current(), os.tree, lines, b.naming, statuses, verdicts)
      invariant Untouched(b, items, lines, i, |items|) && failures.count == CountFailed(verdicts)
    {
      var status, verdict := CheckNext(os, b, items, i, failures, lines, statuses, verdicts);
      statuses, verdicts := statuses + [status], verdicts + [verdict];
      if status.Fatal? {
        assert statuses[i] == status;
        return 112, statuses, verdicts;
      }
      i := i + 1;
    }
    return if failures.count > 0 then 1 else 0, statuses, verdicts;
  }
}
