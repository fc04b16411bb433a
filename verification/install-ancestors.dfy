/** What install_rmkdir's attempts amount to: the ancestors of a directory. */
module Ancestors {
  import opened Paths
  import opened OsModel
  import opened InstallCore

  lemma {:induction false} SlashPrefixesAre(dir: string, n: nat, i: nat)
    requires n <= |dir| && i < |SlashPrefixes(dir, n)|
    ensures var a := SlashPrefixes(dir, n)[i];
            a != "" && |a| <= n && a == dir[..|a|] && a[|a| - 1] == '/' &&
            (i > 0 ==> |SlashPrefixes(dir, n)[i - 1]| < |a|)
  {
    if n > 0 {
      var m := |SlashPrefixes(dir, n - 1)|;
      if i < m {
        SlashPrefixesAre(dir, n - 1, i);
      } else if i > 0 {
        SlashPrefixesAre(dir, n - 1, i - 1);
      }
    }
  }

  lemma {:induction false} SlashPrefixesHave(dir: string, n: nat, k: nat)
    requires k < n <= |dir| && dir[k] == '/'
    ensures dir[..k + 1] in SlashPrefixes(dir, n)
  {
    if k < n - 1 {
      SlashPrefixesHave(dir, n - 1, k);
    }
  }

  /** The attempts are prefixes of the name, up to a final slash, each longer than
      the one before: the shallowest comes first and the whole name last. */
  lemma AttemptsDeepen(dir: string, i: nat)
    requires i < |Attempts(dir)|
    ensures Attempts(dir)[i] <= dir + "/"
    ensures i > 0 ==> |Attempts(dir)[i - 1]| < |Attempts(dir)[i]|
    ensures i == |Attempts(dir)| - 1 ==> Components(Attempts(dir)[i]) == Components(dir)
  {
    var n := |SlashPrefixes(dir, |dir|)|;
    if i < n {
      SlashPrefixesAre(dir, |dir|, i);
      if i == |Attempts(dir)| - 1 {
        assert !OpenEnded(dir) && dir != "";
        SlashPrefixesHave(dir, |dir|, |dir| - 1);
        assert dir[..|dir|] == dir;
        LastIsLongest(dir, |dir|);
      }
    } else {
      if i > 0 {
        SlashPrefixesAre(dir, |dir|, i - 1);
      }
      ComponentsJoin(dir, "");
    }
  }

  lemma {:induction false} LastIsLongest(dir: string, n: nat)
    requires 0 < n <= |dir| && dir[n - 1] == '/'
    ensures |SlashPrefixes(dir, n)| > 0 && SlashPrefixes(dir, n)[|SlashPrefixes(dir, n)| - 1] == dir[..n]
  {
  }

  // ---------------------------------------------------------------- keys

  /** Cutting a name at a slash cuts its components. */
  lemma {:induction false} CutComponents(dir: string, k: nat)
    requires k < |dir| && dir[k] == '/'
    ensures Components(dir[..k + 1]) == Components(dir[..k])
    ensures Components(dir[..k]) <= Components(dir)
  {
    assert dir == dir[..k] + "/" + dir[k + 1..];
    ComponentsConcat(dir[..k], dir[k + 1..]);
    ComponentsJoin(dir[..k], "");
    assert dir[..k + 1] == dir[..k] + "/" + "";
  }

  lemma {:induction false} TrailingSlash(path: string)
    ensures Components(path + "/") == Components(path)
  {
    ComponentsJoin(path, "");
    assert path + "/" == path + "/" + "";
  }

  /** Every attempt is for the directory itself or for one above it. */
  lemma AttemptsAreAbove(cwd: Key, dir: string, a: string)
    requires a in Attempts(dir)
    ensures Resolve(cwd, a) <= Resolve(cwd, dir)
  {
    hide Components, SlashPrefixes;
    if a in SlashPrefixes(dir, |dir|) {
      var i :| 0 <= i < |SlashPrefixes(dir, |dir|)| && SlashPrefixes(dir, |dir|)[i] == a;
      SlashPrefixesAre(dir, |dir|, i);
      var k := |a| - 1;
      CutComponents(dir, k);
      assert dir[..k + 1] == a && a[0] == dir[0];
    } else {
      TrailingSlash(dir);
      assert (dir + "/")[0] == dir[0];
    }
    AboveBase(if Absolute(dir) then [] else cwd, Components(a), Components(dir));
  }

  lemma AboveBase(base: Key, a: Key, b: Key)
    requires a <= b
    ensures base + a <= base + b
  {
  }

  /** The name of an ancestor among the attempts. */
  lemma {:induction false} AncestorsAreAttempted(dir: string, n: nat, m: nat) returns (a: string)
    requires n <= |dir| && 0 < m <= |Components(dir[..n])|
    ensures a in SlashPrefixes(dir, n) || a == dir[..n] + "/"
    ensures Components(a) == Components(dir[..n])[..m]
    decreases n
  {
    hide Components, Component, SlashPrefixes;
    var front, last := PathParts(dir[..n]);
    if m == |Components(dir[..n])| {
      a := dir[..n] + "/";
      TrailingSlash(dir[..n]);
    } else {
      AtMostOne(last);
      var j := |front|;
      assert dir[..n][j] == '/' && dir[..j] == dir[..n][..j] == front;
      a := AncestorsAreAttempted(dir, j, m);
      SlashPrefixesGrow(dir, j, n);
      SlashPrefixesHave(dir, n, j);
      assert dir[..j + 1] == dir[..j] + "/";
    }
  }

  lemma AtMostOne(s: string)
    ensures |Component(s)| <= 1
  {
  }

  lemma {:induction false} SlashPrefixesGrow(dir: string, j: nat, n: nat)
    requires j <= n <= |dir|
    ensures forall a :: a in SlashPrefixes(dir, j) ==> a in SlashPrefixes(dir, n)
  {
    if j < n {
      SlashPrefixesGrow(dir, j, n - 1);
    }
  }

  // ---------------------------------------------------------------- effects

  /** Directories have been made at `k` and above it, and nothing else has changed. */
  ghost predicate MadeAbove(t: Tree, t': Tree, k: Key, mode: bv32) {
    && (forall x :: x in t ==> x in t' && t'[x] == t[x])
    && (forall x :: x in t' && x !in t ==>
         x <= k && x != [] && t'[x].Dir? && Permissions(t'[x].mode) == Permissions(mode))
    && (Valid(t) ==> Valid(t'))
  }

  lemma StepMakesAbove(t: Tree, t': Tree, a: Key, k: Key, mode: bv32)
    requires MkdirStep(t, t', a, mode) && a <= k
    ensures MadeAbove(t, t', k, mode)
  {
  }

  lemma MadeAboveTwice(t: Tree, t': Tree, t'': Tree, k: Key, mode: bv32)
    requires MadeAbove(t, t', k, mode) && MadeAbove(t', t'', k, mode)
    ensures MadeAbove(t, t'', k, mode)
  {
  }

  lemma NothingMade(t: Tree, k: Key, mode: bv32)
    ensures MadeAbove(t, t, k, mode)
  {
  }

  lemma {:induction false} RunMakesAbove(t: Tree, trees: seq<Tree>, cwd: Key, attempts: seq<string>, mode: bv32,
          k: Key, n: nat)
    requires MkdirRun(t, trees, cwd, attempts, mode) && n <= |trees|
    requires forall i :: 0 <= i < |attempts| ==> Resolve(cwd, attempts[i]) <= k
    ensures MadeAbove(t, Before(t, trees, n), k, mode)
  {
    hide MadeDir, MkdirStep;
    NothingMade(t, k, mode);
    hide MadeAbove;
    if n > 0 {
      RunMakesAbove(t, trees, cwd, attempts, mode, k, n - 1);
      StepMakesAbove(Before(t, trees, n - 1), trees[n - 1], Resolve(cwd, attempts[n - 1]), k, mode);
      MadeAboveTwice(t, Before(t, trees, n - 1), trees[n - 1], k, mode);
    }
  }

  lemma StepKeepsNodes(t: Tree, t': Tree, a: Key, mode: bv32, x: Key)
    requires MkdirStep(t, t', a, mode) && x in t
    ensures x in t' && t'[x] == t[x]
  {
  }

  lemma {:induction false} NodesStay(t: Tree, trees: seq<Tree>, cwd: Key, attempts: seq<string>, mode: bv32, i: nat,
          j: nat, x: Key)
    requires MkdirRun(t, trees, cwd, attempts, mode) && i <= j <= |trees| && x in Before(t, trees, i)
    ensures x in Before(t, trees, j) && Before(t, trees, j)[x] == Before(t, trees, i)[x]
  {
    hide MadeDir, MkdirStep, Resolve;
    if i < j {
      assert MkdirStep(Before(t, trees, j - 1), trees[j - 1], Resolve(cwd, attempts[j - 1]), mode);
      hide MkdirRun;
      NodesStay(t, trees, cwd, attempts, mode, i, j - 1, x);
      StepKeepsNodes(Before(t, trees, j - 1), trees[j - 1], Resolve(cwd, attempts[j - 1]), mode, x);
    }
  }

  /** If every attempt has made its directory or found it, then the directory and
      all that stand above it, down from where its name starts, exist in the end. */
  lemma AllAncestorsExist(t: Tree, trees: seq<Tree>, cwd: Key, dir: string, mode: bv32, m: nat)
    requires MkdirRun(t, trees, cwd, Attempts(dir), mode)
    requires forall i :: 0 <= i < |trees| ==> IsDir(trees[i], Resolve(cwd, Attempts(dir)[i]))
    requires 0 < m <= |Components(dir)|
    ensures IsDir(Before(t, trees, |trees|), (if Absolute(dir) then [] else cwd) + Components(dir)[..m])
  {
    hide Components, SlashPrefixes, Attempts, MkdirRun, Resolve, Before;
    var i := AttemptNumber(cwd, dir, m);
    SameNumber(t, trees, cwd, Attempts(dir), mode);
    var k := Resolve(cwd, Attempts(dir)[i]);
    AfterAttempt(t, trees, i);
    NodesStay(t, trees, cwd, Attempts(dir), mode, i + 1, |trees|, k);
  }

  lemma SameNumber(t: Tree, trees: seq<Tree>, cwd: Key, attempts: seq<string>, mode: bv32)
    requires MkdirRun(t, trees, cwd, attempts, mode)
    ensures |trees| == |attempts|
  {
    hide MkdirStep, Resolve, Before;
  }

  lemma AfterAttempt(t: Tree, trees: seq<Tree>, i: nat)
    requires i < |trees|
    ensures Before(t, trees, i + 1) == trees[i]
  {
  }

  /** The attempt for the directory `m` components down from where the name starts. */
  lemma AttemptNumber(cwd: Key, dir: string, m: nat) returns (i: nat)
    requires 0 < m <= |Components(dir)|
    ensures i < |Attempts(dir)|
    ensures Resolve(cwd, Attempts(dir)[i]) == (if Absolute(dir) then [] else cwd) + Components(dir)[..m]
  {
    hide Components, SlashPrefixes, Attempts;
    var a := AttemptFor(dir, m);
    i :| 0 <= i < |Attempts(dir)| && Attempts(dir)[i] == a;
  }

  lemma AttemptFor(dir: string, m: nat) returns (a: string)
    requires 0 < m <= |Components(dir)|
    ensures a in Attempts(dir) && Components(a) == Components(dir)[..m] && (Absolute(a) <==> Absolute(dir))
  {
    hide Components, SlashPrefixes;
    assert dir[..|dir|] == dir;
    a := AncestorsAreAttempted(dir, |dir|, m);
    EmptyPath();
    if a !in SlashPrefixes(dir, |dir|) && !OpenEnded(dir) {
      SlashPrefixesHave(dir, |dir|, |dir| - 1);
      TrailingSlash(dir);
      a := dir;
      assert dir[..|dir| - 1 + 1] == dir;
    }
    assert a in Attempts(dir);
    var i :| 0 <= i < |Attempts(dir)| && Attempts(dir)[i] == a;
    NonEmptyAttempt(dir, i);
    AttemptsDeepen(dir, i);
    assert a[0] == (dir + "/")[0] == dir[0];
  }

  lemma EmptyPath()
    ensures Components("") == []
  {
  }

  lemma NonEmptyAttempt(dir: string, i: nat)
    requires i < |Attempts(dir)|
    ensures Attempts(dir)[i] != "" && dir != ""
  {
    if i < |SlashPrefixes(dir, |dir|)| {
      SlashPrefixesAre(dir, |dir|, i);
    }
  }
}
