/** The dotted path of Lua.Load: `Name_Code` as a string, and the list of
    components that it stands for. */
module LuaPath {
  import opened Wrappers
  import opened Strings

  // ---------------------------------------------------------------- Add and Remove

  function AddName(code: string, name: string): string {
    (if code != "" then code + "." else code) + name
  }

  /** The search starts at the position `Length (Name_Code)`, and a start position
      is Positive: on an empty code it raises Constraint_Error. */
  function RemoveName(code: string): Option<string> {
    if code == "" then None
    else
      var dot := LastOf(code, '.');
      Some(code[..if dot != 0 then dot - 1 else 0])
  }

  /** A name that can be added to `code` and taken off again: it holds no dot, but
      at the start of the path a leading one does no harm and an empty name does. */
  predicate Removable(code: string, name: string) {
    if code != "" then '.' !in name
    else name != "" && '.' !in name[1..]
  }

  /** Remove undoes Add exactly for the removable names. */
  lemma RemoveUndoesAdd(code: string, name: string)
    ensures RemoveName(AddName(code, name)) == Some(code) <==> Removable(code, name)
  {
    var both := AddName(code, name);
    if both != "" {
      var dot := LastOf(both, '.');
      if code != "" {
        assert both[|code|] == '.';
        assert forall j :: 0 <= j < |name| ==> both[|code| + 1 + j] == name[j];
        if '.' in name {
          var j :| 0 <= j < |name| && name[j] == '.';
          assert both[|code| + 1 + j] == '.';
          assert dot - 1 > |code|;
        } else {
          assert forall j :: |code| < j < |both| ==> both[j] == name[j - |code| - 1];
          LastOfIsLast(both, '.', |code|);
          assert both[..|code|] == code;
        }
      } else {
        assert both == name;
        assert forall j :: 0 <= j < |name[1..]| ==> name[1..][j] == name[1 + j];
        if '.' in name[1..] {
          var j :| 0 <= j < |name[1..]| && name[1..][j] == '.';
          assert both[1 + j] == '.';
          assert dot > 1;
        }
      }
    }
  }

  /** A key with a dot inside a nested path is taken off only in part. */
  lemma DottedNameStays()
    ensures RemoveName(AddName("config", "a.b")) == Some("config.a")
    ensures !Removable("config", "a.b")
  {
    assert AddName("config", "a.b") == "config.a.b";
    LastOfIsLast("config.a.b", '.', 8);
    assert "config.a.b"[..8] == "config.a";
    assert "a.b"[1] == '.';
  }

  // ---------------------------------------------------------------- iterations over any keys

  /** The code after one round for each key of an iteration whose callback leaves it
      alone: the key's component is added and one is removed. */
  function RoundsCode(code: string, names: seq<string>): Option<string>
    decreases |names|
  {
    if names == [] then Some(code)
    else
      match RemoveName(AddName(code, names[0]))
      case None => None
      case Some(next) => RoundsCode(next, names[1..])
  }

  /** A round takes off at most what it has added. */
  lemma RoundGrows(code: string, name: string)
    ensures var next := RemoveName(AddName(code, name)); next.Some? ==> next.value == code || |next.value| > |code|
  {
    var both := AddName(code, name);
    if code != "" {
      assert both[|code|] == '.';
      assert LastOf(both, '.') > |code|;
    }
  }

  lemma {:induction false} RoundsGrow(code: string, names: seq<string>)
    ensures RoundsCode(code, names).Some? ==> |RoundsCode(code, names).value| >= |code|
    decreases |names|
  {
    if names != [] && RemoveName(AddName(code, names[0])).Some? {
      RoundGrows(code, names[0]);
      RoundsGrow(RemoveName(AddName(code, names[0])).value, names[1..]);
    }
  }

  /** Rounds for any names, dotted and empty ones included, give the path back if and only
      if each name can be taken off that path again. */
  lemma {:induction false} RoundsRestoreIff(code: string, names: seq<string>)
    ensures RoundsCode(code, names) == Some(code) <==> forall name :: name in names ==> Removable(code, name)
    decreases |names|
  {
    if names != [] {
      RemoveUndoesAdd(code, names[0]);
      RoundGrows(code, names[0]);
      RoundsRestoreIff(code, names[1..]);
      var next := RemoveName(AddName(code, names[0]));
      if Removable(code, names[0]) {
        assert forall name :: name in names <==> name == names[0] || name in names[1..];
      } else if next.Some? {
        RoundsGrow(next.value, names[1..]);
      }
    }
  }

  // ---------------------------------------------------------------- component lists

  /** Names that are components: not empty and free of dots. */
  predicate Clean(name: string) { name != "" && '.' !in name }

  predicate AllClean(path: seq<string>) { forall i :: 0 <= i < |path| ==> Clean(path[i]) }

  function Join(path: seq<string>): string {
    if |path| == 0 then ""
    else AddName(Join(path[..|path| - 1]), path[|path| - 1])
  }

  lemma {:induction false} JoinEmpty(path: seq<string>)
    requires AllClean(path)
    ensures Join(path) == "" <==> path == []
  {
    if path != [] {
      JoinEmpty(path[..|path| - 1]);
    }
  }

  lemma AddJoins(path: seq<string>, name: string)
    ensures AddName(Join(path), name) == Join(path + [name])
  {
    assert (path + [name])[..|path|] == path;
  }

  lemma RemoveJoins(path: seq<string>)
    requires AllClean(path) && path != []
    ensures RemoveName(Join(path)) == Some(Join(path[..|path| - 1]))
  {
    var front, last := path[..|path| - 1], path[|path| - 1];
    JoinEmpty(front);
    if front == [] {
      assert '.' !in last[1..] by {
        assert forall j :: 0 <= j < |last[1..]| ==> last[1..][j] == last[1 + j];
      }
    }
    RemoveUndoesAdd(Join(front), last);
  }

  /** Cutting the code at every dot. */
  function Split(code: string): seq<string> {
    var dot := LastOf(code, '.');
    if code == "" then []
    else if dot == 0 then [code]
    else Split(code[..dot - 1]) + [code[dot..]]
  }

  lemma SplitAdd(code: string, name: string)
    requires Clean(name)
    ensures Split(AddName(code, name)) == (if code == "" then [] else Split(code)) + [name]
  {
    var both := AddName(code, name);
    if code == "" {
      assert both == name && LastOf(name, '.') == 0;
    } else {
      assert forall j :: |code| < j < |both| ==> both[j] == name[j - |code| - 1];
      assert both[|code|] == '.';
      LastOfIsLast(both, '.', |code|);
      assert both[..|code|] == code && both[|code| + 1..] == name;
    }
  }

  /** The code determines the components. */
  lemma {:induction false} SplitJoin(path: seq<string>)
    requires AllClean(path)
    ensures Split(Join(path)) == path
  {
    if path != [] {
      var front, last := path[..|path| - 1], path[|path| - 1];
      JoinEmpty(front);
      SplitJoin(front);
      SplitAdd(Join(front), last);
      assert front + [last] == path;
    }
  }

  // ---------------------------------------------------------------- whole histories

  datatype PathOp = Add(name: string) | Remove

  /** The components left by a history, or nothing when a Remove is not matched. */
  function Components(ops: seq<PathOp>): Option<seq<string>> {
    if ops == [] then Some([])
    else
      match (Components(ops[..|ops| - 1]), ops[|ops| - 1])
      case (None, _) => None
      case (Some(path), Add(name)) => Some(path + [name])
      case (Some(path), Remove) => if path == [] then None else Some(path[..|path| - 1])
  }

  /** The code and depth left by the same history of the two procedures. */
  function Replay(ops: seq<PathOp>): Option<(string, int)> {
    if ops == [] then Some(("", 0))
    else
      match (Replay(ops[..|ops| - 1]), ops[|ops| - 1])
      case (None, _) => None
      case (Some(st), Add(name)) => Some((AddName(st.0, name), st.1 + 1))
      case (Some(st), Remove) =>
        match RemoveName(st.0)
        case None => None
        case Some(code) => Some((code, st.1 - 1))
  }

  predicate CleanOps(ops: seq<PathOp>) { forall i :: 0 <= i < |ops| && ops[i].Add? ==> Clean(ops[i].name) }

  /** After any matched history of clean names the code is the components joined
      by dots and the depth is their count. */
  lemma {:induction false} ReplayJoins(ops: seq<PathOp>)
    requires CleanOps(ops) && Components(ops).Some?
    ensures var path := Components(ops).value;
            AllClean(path) && Replay(ops) == Some((Join(path), |path|)) && Split(Join(path)) == path
  {
    var path := Components(ops).value;
    if ops != [] {
      var front := ops[..|ops| - 1];
      ReplayJoins(front);
      var before := Components(front).value;
      if ops[|ops| - 1].Add? {
        AddJoins(before, ops[|ops| - 1].name);
      } else {
        RemoveJoins(before);
      }
    }
    SplitJoin(path);
  }
}
