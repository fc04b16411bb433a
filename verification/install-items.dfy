/** The items of the installation table and the translation of their names, which
    rewrites the items in place through buffers that all items share. */
module InstallItems {
  import opened Wrappers
  import opened Strings
  import opened Paths
  import opened InstallCore

  datatype Op = InstCopy | InstCopyExec | InstSymlink | InstMkdir | InstLiblink

  /** The fields that hold names are pointers; a null pointer is a missing name. */
  class Item {
    const op: Op
    var src: array?<char>
    var dst: array?<char>
    var dir: array?<char>
    const owner: Option<string>
    const group: Option<string>
    const perm: bv32

    constructor (op: Op, src: array?<char>, dst: array?<char>, dir: array?<char>,
                 owner: Option<string>, group: Option<string>, perm: bv32)
      ensures this.op == op && this.src == src && this.dst == dst && this.dir == dir
      ensures this.owner == owner && this.group == group && this.perm == perm
    {
      this.op, this.src, this.dst, this.dir := op, src, dst, dir;
      this.owner, this.group, this.perm := owner, group, perm;
    }
  }

  /** A C string: the array holds a NUL. */
  predicate Terminated(a: array?<char>)
    reads a
  {
    a != null ==> '\0' in a[..]
  }

  function Str(a: array<char>): string
    reads a
  {
    Chars(a[..])
  }

  function Name(a: array?<char>): Option<string>
    reads a
  {
    if a == null then None else Some(Str(a))
  }

  lemma {:induction false} CharsAreFree(s: seq<char>)
    ensures '\0' !in Chars(s)
  {
    if s != [] && s[0] != '\0' {
      CharsAreFree(s[1..]);
    }
  }

  /** What names depend on besides the items: the suffixes of executables and of dynamic
      libraries, and what fread() delivers of each ".vlb" file that can be read. */
  datatype Naming = Naming(execSuffix: string, dlibSuffix: string, libs: map<string, string>)
  {
    /** A text that fills the buffer of libname has a blank, or its NUL would not fit. */
    ghost predicate Valid() {
      && '\0' !in execSuffix && '\0' !in dlibSuffix
      && forall name :: name in libs ==> |libs[name]| <= MAX_PATHLEN && |Word(libs[name])| < MAX_PATHLEN
    }
  }

  predicate Blank(c: char) { c == ' ' || c == '\t' || c == '\n' || c == '\r' }

  /** The text up to its first blank. */
  function Word(s: string): (w: string)
    ensures w <= s && forall c :: c in w ==> !Blank(c)
    ensures |w| < |s| ==> Blank(s[|w|])
  {
    if s == "" || Blank(s[0]) then "" else [s[0]] + Word(s[1..])
  }

  /** The static buffers: read_buf of libname, path_buf of base_name, src_name, dst_name
      and dst_tmp of ntran_copy, src_name and dst_name of ntran_copy_exec, src_tmp,
      src_name and dst_tmp of ntran_liblink, dst_name of ntran_chk_link and of
      ntran_chk_liblink. */
  class Buffers {
    const readBuf: array<char>
    const baseName: array<char>
    const copySrcName: array<char>
    const copyDstName: array<char>
    const copyDst: array<char>
    const execSrc: array<char>
    const execDst: array<char>
    const libSrcName: array<char>
    const libSrc: array<char>
    const libDst: array<char>
    const checkLink: array<char>
    const checkLib: array<char>
    const naming: Naming

    constructor (naming: Naming)
      requires naming.Valid()
      ensures Valid() && fresh(All())
      ensures this.naming == naming
    {
      readBuf := new char[MAX_PATHLEN];
      baseName := new char[MAX_PATHLEN];
      copySrcName := new char[MAX_PATHLEN];
      copyDstName := new char[MAX_PATHLEN];
      copyDst := new char[MAX_PATHLEN];
      execSrc := new char[MAX_PATHLEN];
      execDst := new char[MAX_PATHLEN];
      libSrcName := new char[MAX_PATHLEN];
      libSrc := new char[MAX_PATHLEN];
      libDst := new char[MAX_PATHLEN];
      checkLink := new char[MAX_PATHLEN];
      checkLib := new char[MAX_PATHLEN];
      this.naming := naming;
    }

    function ForCopies(): set<array<char>> { {readBuf, baseName, copySrcName, copyDstName, copyDst} }

    function ForLibs(): set<array<char>> { {readBuf, baseName, libSrcName, libSrc, libDst} }

    function All(): set<array<char>> { ForCopies() + ForLibs() + {execSrc, execDst, checkLink, checkLib} }

    ghost predicate Valid() {
      && (forall a :: a in All() ==> a.Length == MAX_PATHLEN)
      && readBuf !in {baseName, copySrcName, copyDstName, copyDst, libSrcName, libSrc, libDst}
      && baseName !in {copySrcName, copyDstName, copyDst, libSrcName, libSrc, libDst}
      && copySrcName !in {copyDstName, copyDst, execSrc, execDst}
      && copyDstName !in {copyDst}
      && copyDst !in {execSrc, execDst}
      && execSrc != execDst
      && libSrcName !in {libSrc, libDst, checkLib}
      && libSrc !in {libDst, checkLib}
      && libDst != checkLib
      && naming.Valid()
    }
  }

  // ---------------------------------------------------------------- the string functions

  /** snprintf (buf, INSTALL_MAX_PATHLEN, ...) for the text `s`. */
  method Format(buf: array<char>, s: string)
    requires buf.Length == MAX_PATHLEN && '\0' !in s
    modifies buf
    ensures Terminated(buf) && Str(buf) == Fit(s)
  {
    var t := Fit(s);
    forall i | 0 <= i < |t| {
      buf[i] := t[i];
    }
    buf[|t|] := '\0';
    assert buf[..][|t|] == '\0';
    assert buf[..][..|t|] == t;
    CharsUpTo(buf[..], |t|);
  }

  method StrLen(a: array<char>) returns (len: nat)
    requires Terminated(a)
    ensures len < a.Length && a[len] == '\0' && a[..len] == Str(a) && '\0' !in a[..len]
  {
    len := 0;
    var i :| 0 <= i < a.Length && a[i] == '\0';
    while a[len] != '\0'
      invariant len <= i && '\0' !in a[..len]
      decreases i - len
    {
      assert a[..len + 1] == a[..len] + [a[len]];
      len := len + 1;
    }
    assert a[..][..len] == a[..len];
    CharsUpTo(a[..], len);
  }

  lemma NoSlashesIs(path: string, n: nat)
    requires n <= |path| && (n > 0 ==> path[n - 1] != '/') && forall i :: n <= i < |path| ==> path[i] == '/'
    ensures NoSlashes(path) == path[..n]
  {
    var p := NoSlashes(path);
    assert p == path[..|p|];
  }

  lemma LastPartIs(path: string, u: nat, t: nat)
    requires u <= t < |path| && (u == 0 || path[u - 1] == '/')
    requires (forall i :: u <= i <= t ==> path[i] != '/') && forall i :: t < i < |path| ==> path[i] == '/'
    ensures BaseName(path) == path[u..t + 1]
  {
    NoSlashesIs(path, t + 1);
    var q := path[..t + 1];
    if u > 0 {
      LastOfIsLast(q, '/', u - 1);
    } else {
      LastOfNone(q, '/');
    }
    assert q[u..] == path[u..t + 1];
  }

  /** The first loop of base_name: back over the trailing slashes. */
  method SkipSlashes(path: array<char>, len: nat) returns (t: nat)
    requires 0 < len <= path.Length
    ensures t < len && forall i :: t < i < len ==> path[i] == '/'
    ensures t > 0 ==> path[t] != '/'
  {
    t := len - 1;
    while t > 0 && path[t] == '/'
      invariant t < len && forall i :: t < i < len ==> path[i] == '/'
    {
      t := t - 1;
    }
  }

  /** The second loop of base_name: back to the slash before. */
  method PartStart(path: array<char>, t: nat) returns (u: nat)
    requires t < path.Length && path[t] != '/'
    ensures u <= t && (u == 0 || path[u - 1] == '/') && forall i :: u <= i <= t ==> path[i] != '/'
  {
    u := t;
    while u > 0 && path[u - 1] != '/'
      invariant u <= t && forall i :: u <= i <= t ==> path[i] != '/'
    {
      u := u - 1;
    }
  }

  /** base_name: the result goes to the shared buffer. */
  method FindBaseName(b: Buffers, path: array<char>) returns (ok: bool)
    requires b.Valid() && Terminated(path) && path != b.baseName
    modifies b.baseName
    ensures ok == (|Str(path)| < MAX_PATHLEN)
    ensures ok ==> Terminated(b.baseName) && Str(b.baseName) == BaseName(old(Str(path)))
  {
    hide NoSlashes, LastOf, Chars, BaseName, Fit;
    var len := StrLen(path);
    ghost var p := Str(path);
    if len == 0 {
      EmptyName();
      Format(b.baseName, ".");
      return true;
    }
    if len >= MAX_PATHLEN {
      return false;
    }
    var t := SkipSlashes(path, len);
    assert forall i :: 0 <= i < len ==> p[i] == path[i];
    if t == 0 && path[t] == '/' {
      AllSlashes(p);
      Format(b.baseName, "/");
      return true;
    }
    var u := PartStart(path, t);
    LastPartIs(p, u, t);
    assert path[u..t + 1] == p[u..t + 1];
    Copy(b.baseName, path, u, t + 1);
    CharsOfFree(path[u..t + 1]);
    return true;
  }

  lemma EmptyName()
    ensures BaseName("") == "." == Fit(".") && "/" == Fit("/")
  {
  }

  lemma AllSlashes(path: string)
    requires path != "" && forall i :: 0 <= i < |path| ==> path[i] == '/'
    ensures BaseName(path) == "/" == Fit("/")
  {
    NoSlashesIs(path, 0);
  }

  /** memcpy() of a part of a text, and a NUL after it. */
  method Copy(buf: array<char>, from: array<char>, lo: nat, hi: nat)
    requires lo <= hi <= from.Length && hi - lo < buf.Length && buf != from
    modifies buf
    ensures Terminated(buf) && Str(buf) == Chars(from[lo..hi])
  {
    forall i | 0 <= i < hi - lo {
      buf[i] := from[lo + i];
    }
    buf[hi - lo] := '\0';
    assert buf[..][hi - lo] == '\0';
    assert buf[..][..hi - lo] == from[lo..hi];
    CharsBefore(buf[..], hi - lo);
  }

  // ---------------------------------------------------------------- the translations as functions

  datatype Names = Names(src: Option<string>, dst: Option<string>, dir: Option<string>)

  function NamesOf(item: Item): Names
    reads item, item.src, item.dst, item.dir
  {
    Names(Name(item.src), Name(item.dst), Name(item.dir))
  }

  predicate EndsIn(s: string, end: string) { |end| <= |s| && s[|s| - |end|..] == end }

  /** A name that ends in ".vlb" stands for the first word of the file of that name. */
  function RealName(naming: Naming, name: string): Option<string> {
    if !EndsIn(name, ".vlb") then Some(name)
    else if name in naming.libs then Some(Chars(Word(naming.libs[name])))
    else None
  }

  function OrElse(a: Option<string>, b: Option<string>): Option<string> { if a.Some? then a else b }

  function CopyNames(n: Names, naming: Naming): Option<Names> {
    if n.src.None? || n.dir.None? then None
    else
      var src, dst := RealName(naming, n.src.value), RealName(naming, OrElse(n.dst, n.src).value);
      if src.None? || dst.None? || |dst.value| >= MAX_PATHLEN then None
      else Some(Names(src, Some(CopyName(n.dir.value, dst.value)), n.dir))
  }

  function ExecNames(n: Names, naming: Naming): Option<Names> {
    match CopyNames(n, naming)
    case None => None
    case Some(m) =>
      var suffix := naming.execSuffix;
      Some(Names(Some(Fit(m.src.value + suffix)), Some(Fit(m.dst.value + suffix)), m.dir))
  }

  function LinkNames(n: Names): Option<Names> {
    if n.src.Some? && n.dst.Some? && n.dir.Some? then Some(n) else None
  }

  /** What a library link points to: a ".vlb" file stands for the base name of its word. */
  function LibTarget(naming: Naming, src: string): Option<string> {
    var name := RealName(naming, src);
    if !EndsIn(src, ".vlb") || name.None? then name
    else if |name.value| >= MAX_PATHLEN then None
    else Some(BaseName(name.value))
  }

  function LibNames(n: Names, naming: Naming): Option<Names> {
    if LinkNames(n).None? || LibTarget(naming, n.src.value).None? || |n.dst.value| >= MAX_PATHLEN then None
    else Some(Names(LibTarget(naming, n.src.value), Some(Fit(BaseName(n.dst.value) + naming.dlibSuffix)), n.dir))
  }

  /** The audit looks at a link by its whole path. */
  function Below(n: Option<Names>): Option<Names> {
    if n.None? || n.value.dir.None? || n.value.dst.None? then None
    else Some(n.value.(dst := Some(Fit(n.value.dir.value + "/" + n.value.dst.value))))
  }

  /** What an item's names become, as a function of the names alone. */
  function Translated(op: Op, audit: bool, n: Names, naming: Naming): Option<Names> {
    match op
    case InstCopy => CopyNames(n, naming)
    case InstCopyExec => ExecNames(n, naming)
    case InstSymlink => if audit then Below(LinkNames(n)) else LinkNames(n)
    case InstMkdir => Some(n.(dst := OrElse(n.dst, n.src)))
    case InstLiblink => if audit then Below(LibNames(n, naming)) else LibNames(n, naming)
  }

  // ---------------------------------------------------------------- the translations in place

  ghost predicate Sound(item: Item)
    reads item, item.src, item.dst, item.dir
  {
    Terminated(item.src) && Terminated(item.dst) && Terminated(item.dir)
  }

  /** libname: the first word of the file. */
  method LibName(b: Buffers, name: array<char>, out: array<char>) returns (ok: bool)
    requires b.Valid() && Terminated(name) && out.Length == MAX_PATHLEN && b.readBuf != out && name !in {b.readBuf, out}
    requires EndsIn(Str(name), ".vlb")
    modifies b.readBuf, out
    ensures ok == RealName(b.naming, Str(name)).Some?
    ensures ok ==> Terminated(out) && Some(Str(out)) == RealName(b.naming, Str(name))
  {
    hide Chars;
    if Str(name) !in b.naming.libs {
      return false;
    }
    var text := b.naming.libs[Str(name)];
    forall i | 0 <= i < |text| {
      b.readBuf[i] := text[i];
    }
    var i := 0;
    while i < |text| && !Blank(b.readBuf[i])
      invariant i <= |Word(text)| && b.readBuf[..|text|] == text
    {
      assert b.readBuf[i] == text[i];
      i := i + 1;
    }
    if i < |text| {
      assert b.readBuf[i] == text[i];
      b.readBuf[i] := '\0';
    }
    assert b.readBuf[0..i] == Word(text);
    Copy(out, b.readBuf, 0, i);
    return true;
  }

  /** snprintf (buf, INSTALL_MAX_PATHLEN, "%s/%s", dir, name). */
  method FormatBelow(buf: array<char>, dir: array<char>, name: array<char>)
    requires buf.Length == MAX_PATHLEN && Terminated(dir) && Terminated(name) && buf !in {dir, name}
    modifies buf
    ensures Terminated(buf) && Str(buf) == Fit(Str(dir) + "/" + Str(name))
  {
    hide Fit, Chars;
    CharsAreFree(dir[..]);
    CharsAreFree(name[..]);
    Format(buf, Str(dir) + "/" + Str(name));
  }

  /** snprintf (buf, INSTALL_MAX_PATHLEN, "%s%s", name, suffix). */
  method FormatSuffixed(buf: array<char>, name: array<char>, suffix: string)
    requires buf.Length == MAX_PATHLEN && Terminated(name) && '\0' !in suffix && buf != name
    modifies buf
    ensures Terminated(buf) && Str(buf) == Fit(Str(name) + suffix)
  {
    hide Fit, Chars;
    CharsAreFree(name[..]);
    Format(buf, Str(name) + suffix);
  }

  /** The names of ".vlb" files give way to the names in them. */
  method ReplaceLibFiles(b: Buffers, item: Item) returns (ok: bool)
    requires b.Valid() && Sound(item) && item.src != null && item.dst != null
    requires item.src !in {b.readBuf, b.copySrcName, b.copyDstName}
    requires item.dst !in {b.readBuf, b.copySrcName, b.copyDstName}
    modifies item`src, item`dst, b.readBuf, b.copySrcName, b.copyDstName
    ensures item.src in {old(item.src), b.copySrcName} && item.dst in {old(item.dst), b.copyDstName}
    ensures var src, dst := RealName(b.naming, old(Str(item.src))), RealName(b.naming, old(Str(item.dst)));
            && ok == (src.Some? && dst.Some?)
            && (ok ==> Terminated(item.src) && Terminated(item.dst) &&
                       Name(item.src) == src && Name(item.dst) == dst)
  {
    hide Chars, EndsIn;
    ok := true;
    if EndsIn(Str(item.src), ".vlb") {
      ok := LibName(b, item.src, b.copySrcName);
      if !ok {
        return;
      }
      item.src := b.copySrcName;
    }
    if EndsIn(Str(item.dst), ".vlb") {
      ok := LibName(b, item.dst, b.copyDstName);
      if !ok {
        return;
      }
      item.dst := b.copyDstName;
    }
  }

  /** ntran_copy. */
  method TranCopy(b: Buffers, item: Item) returns (status: Status)
    requires b.Valid() && Sound(item) && {item.src, item.dir} !! b.ForCopies()
    requires item.dst !in b.ForCopies() || item.dst == b.copyDst
    modifies item`src, item`dst, b.ForCopies()
    ensures status.Ok? || status.Fatal?
    ensures status.Ok? <==> CopyNames(old(NamesOf(item)), b.naming).Some?
    ensures status.Ok? ==> Sound(item) && Some(NamesOf(item)) == CopyNames(old(NamesOf(item)), b.naming)
    ensures status.Ok? ==> item.src in {old(item.src), b.copySrcName} && item.dst == b.copyDst
  {
    hide BaseName, Fit, Chars, EndsIn, RealName;
    if item.src == null {
      return Fatal("source file undefined");
    }
    if item.dir == null {
      return Fatal("directory undefined");
    }
    if item.dst == null {
      item.dst := item.src;
    }
    var ok := ReplaceLibFiles(b, item);
    if !ok {
      return Fatal("could not build library name");
    }
    ok := FindBaseName(b, item.dst);
    if !ok {
      return Fatal("invalid destination path");
    }
    FormatBelow(b.copyDst, item.dir, b.baseName);
    item.dst := b.copyDst;
    return Ok;
  }

  /** ntran_copy_exec. */
  method TranCopyExec(b: Buffers, item: Item) returns (status: Status)
    requires b.Valid() && Sound(item) && {item.src, item.dir} !! b.ForCopies() + {b.execSrc, b.execDst}
    requires item.dst !in b.ForCopies() || item.dst == b.copyDst
    modifies item`src, item`dst, b.ForCopies(), b.execSrc, b.execDst
    ensures status.Ok? || status.Fatal?
    ensures status.Ok? <==> ExecNames(old(NamesOf(item)), b.naming).Some?
    ensures status.Ok? ==> Sound(item) && Some(NamesOf(item)) == ExecNames(old(NamesOf(item)), b.naming)
    ensures status.Ok? ==> item.src == b.execSrc && item.dst == b.execDst
  {
    hide BaseName, Fit, Chars, CopyNames;
    status := TranCopy(b, item);
    if !status.Ok? {
      return;
    }
    CopyHasNames(old(NamesOf(item)), b.naming);
    FormatSuffixed(b.execSrc, item.src, b.naming.execSuffix);
    FormatSuffixed(b.execDst, item.dst, b.naming.execSuffix);
    item.src := b.execSrc;
    item.dst := b.execDst;
  }

  lemma CopyHasNames(n: Names, naming: Naming)
    ensures var m := CopyNames(n, naming); m.Some? ==> m.value.src.Some? && m.value.dst.Some? && m.value.dir == n.dir
  {
  }

  /** ntran_link. */
  method TranLink(item: Item) returns (status: Status)
    ensures status.Ok? || status.Fatal?
    ensures status.Ok? <==> LinkNames(NamesOf(item)).Some?
  {
    if item.src == null {
      return Fatal("source file undefined");
    }
    if item.dir == null {
      return Fatal("directory undefined");
    }
    if item.dst == null {
      return Fatal("destination file undefined");
    }
    return Ok;
  }

  /** memcpy() of a whole buffer. */
  method CopyAll(buf: array<char>, from: array<char>)
    requires buf.Length == from.Length && buf != from && Terminated(from)
    modifies buf
    ensures Terminated(buf) && Str(buf) == Str(from)
  {
    hide Chars;
    ghost var text := from[..];
    forall i | 0 <= i < buf.Length {
      buf[i] := from[i];
    }
    assert buf[..] == text;
  }

  /** The ".vlb" file that a library link points to gives way to a base name. */
  method ReplaceTarget(b: Buffers, item: Item) returns (status: Status)
    requires b.Valid() && Terminated(item.src) && item.src != null && item.src !in b.ForLibs()
    modifies item`src, b.readBuf, b.libSrcName, b.baseName, b.libSrc
    ensures status.Ok? || status.Fatal?
    ensures item.src in {old(item.src), b.libSrcName, b.libSrc}
    ensures status.Ok? <==> LibTarget(b.naming, old(Str(item.src))).Some?
    ensures status.Ok? ==> Terminated(item.src) && Name(item.src) == LibTarget(b.naming, old(Str(item.src)))
    ensures status.Ok? ==> item.src in {old(item.src), b.libSrc}
  {
    hide Chars, EndsIn, BaseName;
    if EndsIn(Str(item.src), ".vlb") {
      var ok := LibName(b, item.src, b.libSrcName);
      if !ok {
        return Fatal("could not build library name");
      }
      item.src := b.libSrcName;
      ok := FindBaseName(b, item.src);
      if !ok {
        return Fatal("invalid source path");
      }
      CopyAll(b.libSrc, b.baseName);
      item.src := b.libSrc;
    }
    return Ok;
  }

  /** ntran_liblink. */
  method TranLiblink(b: Buffers, item: Item) returns (status: Status)
    requires b.Valid() && Sound(item) && {item.src, item.dir} !! b.ForLibs()
    requires item.dst !in b.ForLibs() || item.dst == b.libDst
    modifies item`src, item`dst, b.ForLibs()
    ensures status.Ok? || status.Fatal?
    ensures status.Ok? <==> LibNames(old(NamesOf(item)), b.naming).Some?
    ensures status.Ok? ==> Sound(item) && Some(NamesOf(item)) == LibNames(old(NamesOf(item)), b.naming)
    ensures status.Ok? ==> item.src in {old(item.src), b.libSrc} && item.dst == b.libDst
  {
    hide BaseName, Fit, Chars, LibTarget;
    status := TranLink(item);
    if !status.Ok? {
      return;
    }
    status := ReplaceTarget(b, item);
    if !status.Ok? {
      return;
    }
    var ok := FindBaseName(b, item.dst);
    if !ok {
      return Fatal("invalid destination path");
    }
    FormatSuffixed(b.libDst, b.baseName, b.naming.dlibSuffix);
    item.dst := b.libDst;
    return Ok;
  }

  /** ntran_mkdir. */
  method TranMkdir(item: Item) returns (status: Status)
    requires Sound(item)
    modifies item`dst
    ensures status.Ok? && Sound(item)
    ensures NamesOf(item) == old(NamesOf(item)).(dst := OrElse(old(Name(item.dst)), old(Name(item.src))))
  {
    if item.dst == null {
      item.dst := item.src;
    }
    return Ok;
  }

  /** ntran_chk_link. */
  method TranChkLink(b: Buffers, item: Item) returns (status: Status)
    requires b.Valid() && Sound(item) && b.checkLink !in {item.src, item.dst, item.dir}
    modifies item`dst, b.checkLink
    ensures status.Ok? || status.Fatal?
    ensures status.Ok? <==> Below(LinkNames(old(NamesOf(item)))).Some?
    ensures status.Ok? ==> Sound(item) && Some(NamesOf(item)) == Below(LinkNames(old(NamesOf(item))))
    ensures status.Ok? ==> item.dst == b.checkLink
  {
    hide Fit, Chars;
    status := TranLink(item);
    if !status.Ok? {
      return;
    }
    FormatBelow(b.checkLink, item.dir, item.dst);
    item.dst := b.checkLink;
  }

  /** ntran_chk_liblink. */
  method TranChkLiblink(b: Buffers, item: Item) returns (status: Status)
    requires b.Valid() && Sound(item) && {item.src, item.dir} !! b.ForLibs() + {b.checkLib}
    requires item.dst !in b.ForLibs() || item.dst == b.libDst
    modifies item`src, item`dst, b.ForLibs(), b.checkLib
    ensures status.Ok? || status.Fatal?
    ensures status.Ok? <==> Below(LibNames(old(NamesOf(item)), b.naming)).Some?
    ensures status.Ok? ==> Sound(item) && Some(NamesOf(item)) == Below(LibNames(old(NamesOf(item)), b.naming))
    ensures status.Ok? ==> item.dst == b.checkLib
  {
    hide Fit, Chars, BaseName, LibTarget;
    status := TranLiblink(b, item);
    if !status.Ok? {
      return;
    }
    FormatBelow(b.checkLib, item.dir, item.dst);
    item.dst := b.checkLib;
  }

  /** Nothing of the item lies in the shared buffers yet. */
  predicate Apart(b: Buffers, item: Item)
    reads item
  {
    item.src !in b.All() && item.dst !in b.All() && item.dir !in b.All()
  }

  /** The translation column of the operator tables, of instchk's when `audit`. */
  method Translate(b: Buffers, item: Item, audit: bool) returns (status: Status)
    requires b.Valid() && Sound(item) && Apart(b, item)
    modifies item`src, item`dst, b.All()
    ensures status.Ok? || status.Fatal?
    ensures status.Ok? <==> Translated(item.op, audit, old(NamesOf(item)), b.naming).Some?
    ensures status.Ok? ==>
              Sound(item) && Some(NamesOf(item)) == Translated(item.op, audit, old(NamesOf(item)), b.naming)
    ensures status.Ok? && item.op.InstCopy? ==> item.dst == b.copyDst
  {
    hide Fit, Chars, BaseName, CopyNames, ExecNames, LibNames, Below;
    match item.op
    case InstCopy => status := TranCopy(b, item);
    case InstCopyExec => status := TranCopyExec(b, item);
    case InstSymlink => if audit { status := TranChkLink(b, item); } else { status := TranLink(item); }
    case InstMkdir => status := TranMkdir(item);
    case InstLiblink => if audit { status := TranChkLiblink(b, item); } else { status := TranLiblink(b, item); }
  }
}
