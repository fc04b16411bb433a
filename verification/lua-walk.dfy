/** What the commands do to `Name_Code`, for keys and names of any text, and where that
    is what the reading says. */
module LuaWalk {
  import opened Wrappers
  import opened LuaPath
  import opened LuaReading

  // ---------------------------------------------------------------- the walk

  /** How a program ends: it comes back, with the code that it leaves; a Load_Error
      leaves it, with its text, the code, the number of components that were added and
      not taken off, and what is on the stack in place of the value in focus; or it
      aborts. */
  datatype Stop =
    | Back(code: string)
    | Failed(error: string, code: string, grown: nat, tail: seq<Value>)
    | Stopped

  datatype Walked = Walked(log: seq<Item>, end: Stop)

  function After(log: seq<Item>, w: Walked): Walked { w.(log := log + w.log) }

  function WalkField(field: Value, kind: Kind, mode: Mode, name: string, code: string, tail: seq<Value>): Walked {
    match Accept(field, kind, mode)
    case Some(got) => Walked([Got(got)], Back(code))
    case None => Walked([], Failed(ErrorText(code, name, "value", Wanted(kind)), code, 0, tail))
  }

  /** Table_End takes off what it finds at the end of the code; an error leaves the table
      and the component of Table_Start behind. */
  function EndBracket(v: Value, end: Stop): Stop {
    match end
    case Back(code) => (match RemoveName(code) case Some(left) => Back(left) case None => Stopped)
    case Failed(_, _, grown, tail) => end.(grown := grown + 1, tail := [v] + tail)
    case Stopped => Stopped
  }

  function KeyCode(key: Value, code: string): string {
    if ComponentOf(key).Component? then AddName(code, ComponentOf(key).name) else code
  }

  /** Table_Iterate takes a component off after its callback if the key has added one,
      whether the callback returns or raises. */
  function EndRound(key: Value, end: Stop): Stop {
    if end.Stopped? || !ComponentOf(key).Component? then end
    else
      match RemoveName(end.code)
      case Some(left) => end.(code := left)
      case None => Stopped
  }

  /** An error leaves the table and the key behind. */
  function LeaveRound(v: Value, key: Value, end: Stop): Stop {
    if end.Failed? then end.(tail := [v, key] + end.tail) else end
  }

  function Walk(prog: Prog, under: Option<Value>, v: Value, code: string): Walked
    decreases prog, 0, 0
  {
    match prog
    case Done => Walked([], Back(code))
    case Then(cmd, rest) =>
      var w := WalkCmd(cmd, under, v, code);
      if w.end.Back? then After(w.log, Walk(rest, under, v, w.end.code)) else w
  }

  function WalkCmd(cmd: Cmd, under: Option<Value>, v: Value, code: string): Walked
    decreases cmd, 0, 0
  {
    match cmd
    case Named(kind, name, mode) =>
      if !v.Table? then Walked([], Stopped)
      else WalkField(Get(v.entries, Text(name)), kind, mode, name, code, [v])
    case Indexed(kind, index, mode) =>
      if !v.Table? then Walked([], Stopped)
      else WalkField(Get(v.entries, Number(index as real)), kind, mode, Image(index), code, [v])
    case Local(kind, mode) => WalkField(v, kind, mode, "", code, [])
    case Key(kind) =>
      if under.None? then Walked([], Stopped)
      else if TypeOf(under.value) == Wanted(kind) then Walked([Got(under.value)], Back(code))
      else Walked([], Failed(ErrorText(code, "", "Key", Wanted(kind)), code, 0, [v]))
    case NameCode => Walked([Path(code)], Back(code))
    case IfValueIs(t, yes, no) => if TypeOf(v) == t then Walk(yes, under, v, code) else Walk(no, under, v, code)
    case Bracket(name, body) =>
      if !v.Table? then Walked([], Stopped)
      else
        var sub := Get(v.entries, Text(name));
        if !sub.Table? then Walked([], Failed(ErrorText(code, name, "value", TTable), code, 0, [v, sub]))
        else
          var w := Walk(body, Some(v), sub, AddName(code, name));
          w.(end := EndBracket(v, w.end))
    case Iterate(body) =>
      if !v.Table? then Walked([], Failed(ErrorText(code, "", "value", TTable), code, 0, [v]))
      else WalkEntries(body, v, 0, code)
  }

  /** The rounds from entry number `i` on, each with the code that the one before has left. */
  function WalkEntries(body: Prog, v: Value, i: nat, code: string): Walked
    requires v.Table? && i <= |v.entries|
    decreases body, 1, |v.entries| - i
  {
    if i == |v.entries| then Walked([], Back(code))
    else
      var key := v.entries[i].key;
      if ComponentOf(key).OutOfRange? then Walked([], Stopped)
      else
        var w := Walk(body, Some(key), v.entries[i].value, KeyCode(key, code));
        var end := EndRound(key, w.end);
        if end.Back? then After(w.log, WalkEntries(body, v, i + 1, end.code))
        else Walked(w.log, LeaveRound(v, key, end))
  }

  // ---------------------------------------------------------------- clean keys and names

  /** The text keys can be path components. */
  predicate CleanKeys(v: Value) {
    v.Table? ==>
      forall i :: 0 <= i < |v.entries| ==>
        (v.entries[i].key.Text? ==> Clean(v.entries[i].key.text)) && CleanKeys(v.entries[i].value)
  }

  /** The walk is the reading: the path as a list of components has become a code. */
  ghost predicate Agrees(w: Walked, r: Reading, path: seq<string>) {
    && w.log == r.log
    && match r.end
       case Finished => w.end == Back(Join(path))
       case Raised(error, _, left, tail, _, _, _) =>
         AllClean(left) && path <= left && w.end == Failed(error, Join(left), |left| - |path|, tail)
       case Aborted => w.end == Stopped
  }

  lemma RemoveLast(path: seq<string>, name: string)
    requires AllClean(path + [name])
    ensures AllClean(path) && RemoveName(Join(path + [name])) == Some(Join(path))
  {
    RemoveJoins(path + [name]);
    assert (path + [name])[..|path|] == path;
    assert forall i :: 0 <= i < |path| ==> path[i] == (path + [name])[i];
  }

  lemma BracketAgrees(v: Value, w: Walked, r: Reading, path: seq<string>, name: string)
    requires AllClean(path) && Clean(name) && Agrees(w, r, path + [name])
    ensures Agrees(w.(end := EndBracket(v, w.end)), InBracket(v, r), path)
  {
    hide Join, Clean, RemoveName;
    if r.end.Finished? {
      RemoveLast(path, name);
    }
  }

  /** The path that the callback of an entry starts from. */
  lemma KeyAgrees(e: Entry, path: seq<string>)
    requires AllClean(path) && (e.key.Text? ==> Clean(e.key.text))
    ensures var inner := EntryContext(e, path);
            && inner.under == Some(e.key) && inner.focus == e.value
            && AllClean(inner.path) && Join(inner.path) == KeyCode(e.key, Join(path))
  {
    hide Join, AddName, Clean, Bracketed, Round;
    if ComponentOf(e.key).Component? {
      assert Clean(ComponentOf(e.key).name);
      AddJoins(path, ComponentOf(e.key).name);
    }
  }

  lemma RoundAgrees(v: Value, e: Entry, w: Walked, r: Reading, path: seq<string>)
    requires AllClean(path) && (e.key.Text? ==> Clean(e.key.text)) && !ComponentOf(e.key).OutOfRange?
    requires Agrees(w, r, EntryContext(e, path).path)
    ensures Agrees(Walked(w.log, LeaveRound(v, e.key, EndRound(e.key, w.end))),
                   r.(end := InEntry(v, e.key, r.end)), path)
  {
    hide Join, Clean, RemoveName, ComponentOf, KeyCode;
    KeyAgrees(e, path);
    if ComponentOf(e.key).Component? && !r.end.Aborted? {
      var inner := EntryContext(e, path).path;
      var left := if r.end.Finished? then inner else r.end.left;
      assert inner[..|path|] == path;
      assert left == left[..|left| - 1] + [left[|left| - 1]];
      RemoveLast(left[..|left| - 1], left[|left| - 1]);
    }
  }

  lemma {:induction false} EntriesAgree(body: Prog, v: Value, rounds: seq<Reading>, i: nat, path: seq<string>)
    requires v.Table? && |rounds| == |v.entries| && i <= |rounds| && CleanKeys(v) && AllClean(path)
    requires forall j :: 0 <= j < |rounds| ==>
               Agrees(Walk(body, Some(v.entries[j].key), v.entries[j].value, KeyCode(v.entries[j].key, Join(path))),
                      rounds[j], EntryContext(v.entries[j], path).path)
    ensures Agrees(WalkEntries(body, v, i, Join(path)), InTable(v, rounds, i), path)
    decreases |rounds| - i
  {
    hide Join, Clean, ComponentOf, KeyCode, EndRound, InEntry, EntryContext, Walk;
    if i < |rounds| {
      EntriesAgree(body, v, rounds, i + 1, path);
      var e := v.entries[i];
      if !ComponentOf(e.key).OutOfRange? {
        var w := Walk(body, Some(e.key), e.value, KeyCode(e.key, Join(path)));
        RoundAgrees(v, e, w, rounds[i], path);
      }
    }
  }

  /** Where all keys and names are clean, every program does to the code what the reading
      does to the path: the code is the path joined at the start, in every report, in
      every error text, and in the end. */
  lemma {:induction false} WalkIsRead(prog: Prog, ctx: Context)
    requires CleanKeys(ctx.focus) && CleanProg(prog) && AllClean(ctx.path)
    ensures Agrees(Walk(prog, ctx.under, ctx.focus, Join(ctx.path)), Read(prog, ctx), ctx.path)
    decreases prog, 0
  {
    hide Join, Clean, ReadCmd, WalkCmd;
    if prog.Then? {
      WalkIsReadCmd(prog.cmd, ctx);
      WalkIsRead(prog.rest, ctx);
    }
  }

  lemma {:induction false} WalkIsReadCmd(cmd: Cmd, ctx: Context)
    requires CleanKeys(ctx.focus) && CleanCmd(cmd) && AllClean(ctx.path)
    ensures Agrees(WalkCmd(cmd, ctx.under, ctx.focus, Join(ctx.path)), ReadCmd(cmd, ctx), ctx.path)
    decreases cmd, 0
  {
    hide Join, Clean, ErrorText, Image, Get, Read, Walk, WalkEntries, InTable;
    var v := ctx.focus;
    match cmd
    case IfValueIs(t, yes, no) =>
      WalkIsRead(yes, ctx);
      WalkIsRead(no, ctx);
    case Bracket(name, body) =>
      if v.Table? {
        WalkBracket(name, body, ctx);
      }
    case Iterate(body) =>
      if v.Table? {
        WalkIterate(body, ctx);
      }
    case _ =>
  }

  lemma {:induction false} WalkBracket(name: string, body: Prog, ctx: Context)
    requires CleanKeys(ctx.focus) && Clean(name) && CleanProg(body) && AllClean(ctx.path) && ctx.focus.Table?
    ensures Agrees(WalkCmd(Bracket(name, body), ctx.under, ctx.focus, Join(ctx.path)),
                   ReadCmd(Bracket(name, body), ctx), ctx.path)
    decreases body, 1
  {
    hide Join, Clean, ErrorText, IndexOf, Read, Walk, EndBracket, InBracket;
    var v := ctx.focus;
    var sub := Get(v.entries, Text(name));
    if sub.Table? {
      var inner := Context(Some(v), sub, ctx.path + [name]);
      AddJoins(ctx.path, name);
      WalkIsRead(body, inner);
      BracketAgrees(v, Walk(body, Some(v), sub, Join(inner.path)), Read(body, inner), ctx.path, name);
    }
  }

  lemma {:induction false} WalkIterate(body: Prog, ctx: Context)
    requires CleanKeys(ctx.focus) && CleanProg(body) && AllClean(ctx.path) && ctx.focus.Table?
    ensures Agrees(WalkCmd(Iterate(body), ctx.under, ctx.focus, Join(ctx.path)), ReadCmd(Iterate(body), ctx), ctx.path)
    decreases body, 1
  {
    hide Join, Clean, Read, Walk, InTable, WalkEntries, KeyCode, EntryContext, Agrees, ComponentOf;
    var v := ctx.focus;
    var rounds :=
      seq(|v.entries|, i requires 0 <= i < |v.entries| => Read(body, EntryContext(v.entries[i], ctx.path)));
    forall j | 0 <= j < |rounds|
      ensures Agrees(Walk(body, Some(v.entries[j].key), v.entries[j].value, KeyCode(v.entries[j].key, Join(ctx.path))),
                     rounds[j], EntryContext(v.entries[j], ctx.path).path)
    {
      KeyAgrees(v.entries[j], ctx.path);
      WalkIsRead(body, EntryContext(v.entries[j], ctx.path));
    }
    EntriesAgree(body, v, rounds, 0, ctx.path);
  }

  // ---------------------------------------------------------------- iterations over any keys

  /** The names that the keys add, in order. */
  function NamesOf(entries: seq<Entry>): seq<string> {
    if entries == [] then [] else NameOf(entries[0].key) + NamesOf(entries[1..])
  }

  predicate AllInRange(entries: seq<Entry>) { forall e :: e in entries ==> !ComponentOf(e.key).OutOfRange? }

  /** The name that each key adds to `code` can be taken off again. */
  predicate AllRemovable(code: string, entries: seq<Entry>) {
    forall e :: e in entries && ComponentOf(e.key).Component? ==> Removable(code, ComponentOf(e.key).name)
  }

  /** The callback comes back from every entry, and leaves the code as it was. */
  ghost predicate Quiet(body: Prog, entries: seq<Entry>) {
    forall e, code :: e in entries ==> Walk(body, Some(e.key), e.value, code).end == Back(code)
  }

  lemma {:induction false} NamesAreRemovable(code: string, entries: seq<Entry>)
    ensures AllRemovable(code, entries) <==> forall name :: name in NamesOf(entries) ==> Removable(code, name)
  {
    hide ComponentOf, Removable;
    if entries != [] {
      NamesAreRemovable(code, entries[1..]);
      var first, rest := NameOf(entries[0].key), NamesOf(entries[1..]);
      assert forall e :: e in entries <==> e == entries[0] || e in entries[1..];
      assert forall name :: name in NamesOf(entries) <==> name in first || name in rest;
      assert ComponentOf(entries[0].key).Component? ==> ComponentOf(entries[0].key).name in first;
    }
  }

  /** One round with a quiet callback, as a fold over names does it. */
  lemma QuietRound(key: Value, code: string, names: seq<string>)
    requires !ComponentOf(key).OutOfRange?
    ensures var end := EndRound(key, Back(KeyCode(key, code)));
            RoundsCode(code, NameOf(key) + names) == if end.Back? then RoundsCode(end.code, names) else None
    ensures var end := EndRound(key, Back(KeyCode(key, code))); end.Back? || end.Stopped?
  {
    hide ComponentOf, RemoveName, AddName;
    if ComponentOf(key).Component? {
      assert (NameOf(key) + names)[1..] == names;
    } else {
      assert NameOf(key) + names == names;
    }
  }

  lemma {:induction false} QuietEntries(body: Prog, v: Value, i: nat, code: string)
    requires v.Table? && i <= |v.entries| && Quiet(body, v.entries)
    ensures var rest := v.entries[i..];
            var left := RoundsCode(code, NamesOf(rest));
            WalkEntries(body, v, i, code).end ==
            if AllInRange(rest) && left.Some? then Back(left.value) else Stopped
    decreases |v.entries| - i
  {
    hide ComponentOf, RoundsCode, NameOf, KeyCode, EndRound, Walk;
    if i < |v.entries| {
      var e, rest := v.entries[i], v.entries[i + 1..];
      assert v.entries[i..] == [e] + rest;
      if !ComponentOf(e.key).OutOfRange? {
        QuietRound(e.key, code, NamesOf(rest));
        var end := EndRound(e.key, Back(KeyCode(e.key, code)));
        assert Walk(body, Some(e.key), e.value, KeyCode(e.key, code)).end == Back(KeyCode(e.key, code));
        if end.Back? {
          QuietEntries(body, v, i + 1, end.code);
        }
        assert AllInRange(v.entries[i..]) <==> AllInRange(rest);
      } else {
        assert e in v.entries[i..];
      }
    } else {
      NoRounds(code);
    }
  }

  lemma NoRounds(code: string)
    ensures RoundsCode(code, NamesOf([])) == Some(code)
  {
  }

  /** An iteration with a quiet callback, over keys of any text, comes back if and only if
      each key is in range and each round finds something to take off, and it comes back
      with the code it started from if and only if each key's name can be taken off it again. */
  lemma IterationRestoresIff(body: Prog, under: Option<Value>, v: Value, code: string)
    requires v.Table? && Quiet(body, v.entries)
    ensures var left, end := RoundsCode(code, NamesOf(v.entries)), WalkCmd(Iterate(body), under, v, code).end;
            && end == (if AllInRange(v.entries) && left.Some? then Back(left.value) else Stopped)
            && (end == Back(code) <==> AllInRange(v.entries) && AllRemovable(code, v.entries))
  {
    hide RoundsCode, Removable, ComponentOf, Quiet;
    assert v.entries[0..] == v.entries;
    QuietEntries(body, v, 0, code);
    RoundsRestoreIff(code, NamesOf(v.entries));
    NamesAreRemovable(code, v.entries);
  }

  /** Iterating over { ["a.b"] = 0 } below "config" comes back with "config.a" as the path. */
  lemma DottedKeyStays(under: Option<Value>)
    ensures WalkCmd(Iterate(Done), under, Table(0, [Entry(Text("a.b"), Number(0.0))]), "config").end == Back("config.a")
  {
    var entries := [Entry(Text("a.b"), Number(0.0))];
    DottedNameStays();
    IterationRestoresIff(Done, under, Table(0, entries), "config");
    assert ComponentOf(entries[0].key) == Component("a.b");
    assert entries[1..] == [] && NamesOf(entries) == ["a.b"] + [] == ["a.b"];
    assert RoundsCode("config", ["a.b"]) == RoundsCode("config.a", []) == Some("config.a");
  }
}
