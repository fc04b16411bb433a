/** Path names: the nodes that they name, their base names, and the names that
    the installer derives from them. */
module Paths {
  import opened Strings

  /** A node of the tree is named by the components below the root. */
  type Key = seq<string>

  const MAX_PATHLEN := 1024

  function Component(s: string): Key {
    if s == "" || s == "." then [] else [s]
  }

  /** The components of a path: slashes count once and "." is no component. */
  function Components(path: string): Key {
    var i := LastOf(path, '/');
    if path == "" then []
    else if i == 0 then Component(path)
    else Components(path[..i - 1]) + Component(path[i..])
  }

  predicate Absolute(path: string) { path != "" && path[0] == '/' }

  function Resolve(cwd: Key, path: string): Key {
    (if Absolute(path) then [] else cwd) + Components(path)
  }

  lemma ComponentsJoin(front: string, last: string)
    requires '/' !in last
    ensures Components(front + "/" + last) == Components(front) + Component(last)
  {
    LastOfJoin(front, '/', last);
  }

  /** A path is its part before the last slash and its part after it. */
  lemma PathParts(path: string) returns (front: string, last: string)
    ensures '/' !in last
    ensures if '/' in path then path == front + "/" + last else path == last
    ensures Components(path) == (if '/' in path then Components(front) else []) + Component(last)
    ensures |front| < |path| || '/' !in path
  {
    var i := LastOf(path, '/');
    if i == 0 {
      front, last := "", path;
    } else {
      front, last := path[..i - 1], path[i..];
      assert path == front + "/" + last;
    }
  }

  /** Joining with a slash resolves the second path below the first. */
  lemma {:induction false} ComponentsConcat(front: string, path: string)
    ensures Components(front + "/" + path) == Components(front) + Components(path)
    decreases |path|
  {
    hide Components, Component, LastOf;
    var before, last := PathParts(path);
    if '/' in path {
      ComponentsConcat(front, before);
      ComponentsJoin(front + "/" + before, last);
      assert front + "/" + path == front + "/" + before + "/" + last;
    } else {
      ComponentsJoin(front, path);
    }
  }

  // ---------------------------------------------------------------- derived names

  /** What snprintf() leaves of a string in a buffer of INSTALL_MAX_PATHLEN bytes. */
  function Fit(s: string): string {
    if |s| < MAX_PATHLEN then s else s[..MAX_PATHLEN - 1]
  }

  /** Nothing of the path is lost by the cut but slashes and components ".". */
  predicate CutHarmless(path: string) {
    |path| < MAX_PATHLEN ||
    ((path[MAX_PATHLEN - 2] == '/' || path[MAX_PATHLEN - 1] == '/') && Components(path[MAX_PATHLEN - 1..]) == [])
  }

  /** The cut leaves a name of the same node if and only if it is harmless. */
  lemma FitResolves(cwd: Key, path: string)
    ensures Resolve(cwd, Fit(path)) == Resolve(cwd, path) <==> CutHarmless(path)
  {
    hide Components;
    if |path| >= MAX_PATHLEN {
      var n := MAX_PATHLEN - 1;
      var base := if Absolute(path) then [] else cwd;
      assert path == path[..n] + path[n..] && Fit(path) == path[..n];
      CutComponents(path[..n], path[n..]);
      if Components(path[..n]) != Components(path) {
        assert Components(path) == (base + Components(path))[|base|..];
        assert Components(path[..n]) == (base + Components(path[..n]))[|base|..];
      }
    }
  }

  lemma CutComponents(a: string, b: string)
    requires a != "" && b != ""
    ensures Components(a) == Components(a + b) <==> (a[|a| - 1] == '/' || b[0] == '/') && Components(b) == []
  {
    hide Components, Component, LastOf;
    if a[|a| - 1] == '/' {
      var front := a[..|a| - 1];
      assert a == front + "/" + "" && a + b == front + "/" + b;
      ComponentsConcat(front, "");
      ComponentsConcat(front, b);
      NoComponents();
    } else if b[0] == '/' {
      assert b == "" + "/" + b[1..] && a + b == a + "/" + b[1..];
      ComponentsConcat("", b[1..]);
      ComponentsConcat(a, b[1..]);
      NoComponents();
    } else {
      CutInside(a, b);
    }
  }

  lemma NoComponents()
    ensures Components("") == []
  {
  }

  /** A cut inside a component leaves another component, or none. */
  lemma CutInside(a: string, b: string)
    requires a != "" && b != "" && a[|a| - 1] != '/' && b[0] != '/'
    ensures Components(a) != Components(a + b)
  {
    hide Components, Component, LastOf;
    var first, rest := FirstPart(b);
    var before, cut, whole := LongerComponent(a, first);
    if '/' in b {
      assert a + b == a + first + "/" + rest;
      ComponentsConcat(a + first, rest);
      Differ(before, cut, whole, Components(rest));
    } else {
      Differ(before, cut, whole, []);
      assert before + [whole] + [] == before + [whole];
    }
  }

  /** More characters at the end of a path make another last component. */
  lemma LongerComponent(a: string, first: string) returns (before: Key, cut: Key, whole: string)
    requires a != "" && a[|a| - 1] != '/' && first != "" && '/' !in first
    ensures Components(a) == before + cut && Components(a + first) == before + [whole]
    ensures |cut| <= 1 && cut != [whole]
  {
    hide Components, LastOf;
    var front, last := PathParts(a);
    assert last != "" && '/' !in last + first;
    before, cut, whole := if '/' in a then Components(front) else [], Component(last), last + first;
    assert |whole| > |last| && Component(whole) == [whole];
    if '/' in a {
      assert a + first == front + "/" + whole;
      ComponentsJoin(front, whole);
    } else {
      PlainComponents(whole);
      assert [] + [whole] == [whole];
    }
  }

  lemma Differ(before: Key, cut: Key, whole: string, after: Key)
    requires |cut| <= 1 && cut != [whole]
    ensures before + cut != before + [whole] + after
  {
    if cut != [] {
      assert (before + cut)[|before|] == cut[0];
      assert (before + [whole] + after)[|before|] == whole;
    }
  }

  /** A path is its part before the first slash and its part after it. */
  lemma FirstPart(path: string) returns (first: string, rest: string)
    requires path != "" && path[0] != '/'
    ensures first != "" && '/' !in first
    ensures if '/' in path then path == first + "/" + rest else path == first
  {
    var i := 1;
    while i < |path| && path[i] != '/'
      invariant 0 < i <= |path| && '/' !in path[..i]
    {
      i := i + 1;
    }
    first := path[..i];
    rest := if i < |path| then path[i + 1..] else "";
  }

  function TmpName(dst: string): string { Fit(dst + ".tmp") }

  /** The temporary file is another than the destination if and only if enough of its
      suffix fits into the buffer: two bytes, or one behind something other than a slash. */
  lemma TmpIsAnother(cwd: Key, dst: string)
    requires |dst| < MAX_PATHLEN
    ensures Resolve(cwd, TmpName(dst)) != Resolve(cwd, dst) <==>
            |dst| <= 1021 || (|dst| == 1022 && dst[1021] != '/')
  {
    hide Components, LastOf, Component;
    var room := 1023 - |dst|;
    var suffix := if room < 4 then ".tmp"[..room] else ".tmp";
    assert TmpName(dst) == dst + suffix;
    if suffix == "" {
      assert TmpName(dst) == dst;
      return;
    }
    var front, last := PathParts(dst);
    assert '/' !in last + suffix;
    TmpComponent(last, suffix);
    assert last == "" <==> dst == "" || dst[|dst| - 1] == '/';
    if '/' in dst {
      ComponentsJoin(front, last + suffix);
      assert dst + suffix == front + "/" + (last + suffix);
    } else {
      assert dst + suffix == last + suffix;
      PlainComponents(last + suffix);
    }
    DifferAtEnd(if Absolute(dst) then [] else cwd, if '/' in dst then Components(front) else [],
                Component(last + suffix), Component(last));
  }

  /** Such destinations exist: copying to one empties it before anything else is done. */
  lemma LongNameIsItsOwnTmp() returns (dst: string)
    ensures |dst| == 1023 && '/' !in dst && TmpName(dst) == dst
  {
    dst := seq(1023, _ => 'a');
    assert (dst + ".tmp")[..1023] == dst;
  }

  lemma TmpComponent(last: string, suffix: string)
    requires suffix != "" && suffix <= ".tmp"
    ensures |Component(last)| <= 1 && |Component(last + suffix)| <= 1
    ensures Component(last + suffix) == Component(last) <==> last == "" && suffix == "."
  {
    assert suffix[0] == '.';
    assert |last + suffix| == |last| + |suffix|;
    assert (last + suffix)[|last|] == '.';
    if last != "" || |suffix| > 1 {
      assert Component(last + suffix) == [last + suffix];
    }
  }

  lemma PlainComponents(last: string)
    requires '/' !in last
    ensures Components(last) == Component(last)
  {
    LastOfNone(last, '/');
  }

  lemma DifferAtEnd(base: Key, front: Key, a: Key, b: Key)
    requires |a| <= 1 && |b| <= 1
    ensures base + (front + a) == base + (front + b) <==> a == b
  {
    var x, y := base + (front + a), base + (front + b);
    assert |x| == |base| + |front| + |a| && |y| == |base| + |front| + |b|;
    assert |a| == 1 ==> x[|x| - 1] == a[0];
    assert |b| == 1 ==> y[|y| - 1] == b[0];
  }

  /** The base name: what stands behind the last slash that is not trailing. */
  function BaseName(path: string): string {
    var p := NoSlashes(path);
    if path == "" then "."
    else if p == "" then "/"
    else p[LastOf(p, '/')..]
  }

  /** A path without its trailing slashes. */
  function NoSlashes(path: string): (p: string)
    ensures p <= path
    ensures p != "" ==> p[|p| - 1] != '/'
    ensures forall i :: |p| <= i < |path| ==> path[i] == '/'
  {
    if path != "" && path[|path| - 1] == '/' then NoSlashes(path[..|path| - 1]) else path
  }

  /** The destination of a copied file. */
  function CopyName(dir: string, dst: string): string { Fit(dir + "/" + BaseName(dst)) }

  lemma BaseNameHasNoSlash(path: string)
    ensures BaseName(path) == "/" || (BaseName(path) != "" && '/' !in BaseName(path))
  {
    var p := NoSlashes(path);
    if path != "" && p != "" {
      var b := p[LastOf(p, '/')..];
      assert forall j :: 0 <= j < |b| ==> b[j] == p[LastOf(p, '/') + j];
    }
  }

  lemma BaseNameOfJoin(dir: string, base: string)
    requires base != "" && '/' !in base
    ensures BaseName(dir + "/" + base) == base
  {
    var path := dir + "/" + base;
    assert path[|path| - 1] == base[|base| - 1];
    LastOfJoin(dir, '/', base);
  }

  lemma NoSlashesTwice(path: string)
    ensures NoSlashes(NoSlashes(path)) == NoSlashes(path)
  {
  }

  lemma NoSlashesOfSlash(path: string)
    ensures NoSlashes(path + "/") == NoSlashes(path)
  {
    assert (path + "/")[..|path|] == path;
  }

  lemma BaseNameOfSlashes(dir: string)
    ensures BaseName(dir + "/" + "/") == (if NoSlashes(dir) == "" then "/" else BaseName(NoSlashes(dir)))
    ensures NoSlashes(dir) != "" ==> BaseName(NoSlashes(dir)) != "" && '/' !in BaseName(NoSlashes(dir))
  {
    NoSlashesOfSlash(dir);
    NoSlashesOfSlash(dir + "/");
    NoSlashesTwice(dir);
    BaseNameHasNoSlash(NoSlashes(dir));
    assert dir + "/" + "/" != "";
  }

  /** Translating a copy item again changes nothing, unless its base name is the
      root's, its directory is not the root and both fit into the buffer. */
  lemma RetranslateCopy(dir: string, dst: string)
    ensures CopyName(dir, CopyName(dir, dst)) == CopyName(dir, dst) <==>
            (BaseName(dst) != "/" || NoSlashes(dir) == "" || |dir| >= 1022)
  {
    hide NoSlashes, BaseName, LastOf, Fit;
    BaseNameHasNoSlash(dst);
    BaseNameHasNoSlash(CopyName(dir, dst));
    if |dir| >= 1022 {
      LongDirectory(dir, BaseName(dst));
      LongDirectory(dir, BaseName(CopyName(dir, dst)));
    } else if BaseName(dst) != "/" {
      RetranslateName(dir, BaseName(dst));
    } else {
      RetranslateRoot(dir);
    }
  }

  /** What fits of a base name is its own base name. */
  lemma RetranslateName(dir: string, base: string)
    requires |dir| < 1022 && base != "" && '/' !in base
    ensures Fit(dir + "/" + BaseName(Fit(dir + "/" + base))) == Fit(dir + "/" + base)
  {
    hide NoSlashes, BaseName, LastOf;
    var room := 1022 - |dir|;
    var kept := if |base| <= room then base else base[..room];
    assert Fit(dir + "/" + base) == dir + "/" + kept;
    BaseNameOfJoin(dir, kept);
  }

  /** Nothing of the base name is left when the directory fills the buffer. */
  lemma LongDirectory(dir: string, base: string)
    requires |dir| >= 1022 && base != ""
    ensures Fit(dir + "/" + base) == if |dir| == 1022 then dir + "/" else dir[..1023]
  {
  }

  lemma FitKeeps(s: string, i: nat)
    requires i < |s| && i < 1023
    ensures i < |Fit(s)| && Fit(s)[i] == s[i]
    ensures |s| < MAX_PATHLEN ==> Fit(s) == s
  {
  }

  lemma RetranslateRoot(dir: string)
    requires |dir| < 1022
    ensures var once := Fit(dir + "/" + "/"); Fit(dir + "/" + BaseName(once)) == once <==> NoSlashes(dir) == ""
  {
    hide NoSlashes, BaseName, LastOf, Fit;
    BaseNameOfSlashes(dir);
    var once := dir + "/" + "/";
    FitKeeps(once, |dir| + 1);
    if NoSlashes(dir) != "" {
      var b := BaseName(once);
      var again := dir + "/" + b;
      FitKeeps(again, |dir| + 1);
      assert again[|dir| + 1] == b[0] && b[0] in b && once[|dir| + 1] == '/';
    }
  }
}
