/** Lua.Load: the procedures of lua-load.adb on a Lua stack and a dotted path, and the
    proof that they carry out the walk of LuaWalk, which is the reading of LuaReading
    where keys and names are clean. */
module LuaLoad {
  import opened Wrappers
  import opened Strings
  import opened LuaPath
  import opened LuaReading
  import opened LuaWalk

  /** How a call ends: it returns, it raises Load_Error, or it is left by a Lua
      run-time error or a Constraint_Error. */
  datatype Status = Returned | LoadError | Abort

  /** The fields of the state at one moment. */
  datatype Machine = Machine(stack: seq<Value>, nameCode: string, nameDepth: nat, errString: string)

  /** The value on top of the stack, and the one below it. */
  ghost predicate Stands(m: Machine, under: Option<Value>, v: Value) {
    && m.stack != [] && m.stack[|m.stack| - 1] == v
    && under == (if |m.stack| >= 2 then Some(m.stack[|m.stack| - 2]) else None)
  }

  /** From `m` the machine has come to `m'` and ended as the walk says. */
  ghost predicate Ends(m: Machine, m': Machine, end: Stop, status: Status) {
    match end
    case Back(code) => status == Returned && m' == m.(nameCode := code)
    case Failed(error, code, grown, tail) =>
      && status == LoadError && m'.errString == error
      && m'.nameCode == code && m'.nameDepth == m.nameDepth + grown
      && m.stack != [] && m'.stack == m.stack[..|m.stack| - 1] + tail
    case Stopped => status == Abort
  }

  // ---------------------------------------------------------------- what this is in the reading

  /** The machine stands where the reading stands. */
  ghost predicate At(m: Machine, ctx: Context) {
    && Stands(m, ctx.under, ctx.focus)
    && AllClean(ctx.path) && m.nameCode == Join(ctx.path) && m.nameDepth == |ctx.path|
  }

  /** From `m` the machine has come to `m'` and ended as the reading says. */
  ghost predicate ReadsTo(m: Machine, m': Machine, end: End, status: Status) {
    match end
    case Finished =>
      status == Returned && m' == m
    case Raised(error, _, left, tail, _, _, _) =>
      && status == LoadError && m'.errString == error
      && AllClean(left) && m'.nameCode == Join(left) && m'.nameDepth == |left|
      && m.stack != [] && m'.stack == m.stack[..|m.stack| - 1] + tail
    case Aborted => status == Abort
  }

  /** Where keys and names are clean, what Exec leaves of the machine is what the reading
      says: its log, its error, the path joined by dots, and its stack. */
  lemma ExecReads(prog: Prog, ctx: Context, m: Machine, m': Machine, status: Status, log: seq<Item>)
    requires At(m, ctx) && CleanKeys(ctx.focus) && CleanProg(prog)
    requires var w := Walk(prog, ctx.under, ctx.focus, m.nameCode); log == w.log && Ends(m, m', w.end, status)
    ensures var r := Read(prog, ctx); log == r.log && ReadsTo(m, m', r.end, status)
  {
    WalkIsRead(prog, ctx);
    hide Join, Clean, Read, Walk;
  }

  /** An iteration over keys of any text, whose callback leaves the code alone, restores
      stack and depth when it returns; it returns and restores the code as well if and only
      if each key is in range and its name can be taken off that code again. */
  lemma IterationRestoresMachine(body: Prog, under: Option<Value>, v: Value, m: Machine, m': Machine, status: Status)
    requires Stands(m, under, v) && v.Table? && Quiet(body, v.entries)
    requires Ends(m, m', WalkCmd(Iterate(body), under, v, m.nameCode).end, status)
    ensures status == Returned || status == Abort
    ensures status == Returned ==> m' == m.(nameCode := m'.nameCode)
    ensures status == Returned && m' == m <==> AllInRange(v.entries) && AllRemovable(m.nameCode, v.entries)
  {
    hide AllInRange, AllRemovable, RoundsCode, NamesOf, WalkCmd, Quiet;
    IterationRestoresIff(body, under, v, m.nameCode);
  }

  // ---------------------------------------------------------------- steps of programs

  /** A reader delivers the accepted value, or raises when there is none. */
  predicate Delivered(accepted: Option<Value>, status: Status, v: Value) {
    if accepted.Some? then status == Returned && v == accepted.value else status == LoadError
  }

  lemma FieldEnds(field: Value, kind: Kind, mode: Mode, name: string, under: Option<Value>, v: Value, m: Machine,
                  m': Machine, status: Status, got: Value)
    requires Stands(m, under, v) && Delivered(Accept(field, kind, mode), status, got)
    requires m' == if status == LoadError then m.(errString := ErrorText(m.nameCode, name, "value", Wanted(kind)))
            else m
    ensures var w := WalkField(field, kind, mode, name, m.nameCode, [v]);
            w.log == (if status == Returned then [Got(got)] else []) && Ends(m, m', w.end, status)
  {
    hide ErrorText, Accept;
    assert m.stack == m.stack[..|m.stack| - 1] + [v];
  }

  lemma IterateFails(body: Prog, under: Option<Value>, v: Value, m: Machine, m': Machine)
    requires Stands(m, under, v) && !v.Table?
    requires m' == m.(errString := ErrorText(m.nameCode, "", "value", TTable))
    ensures var w := WalkCmd(Iterate(body), under, v, m.nameCode); w.log == [] && Ends(m, m', w.end, LoadError)
  {
    hide ErrorText, WalkEntries, Walk, ComponentOf;
    assert m.stack == m.stack[..|m.stack| - 1] + [v];
  }

  lemma BracketFails(name: string, body: Prog, under: Option<Value>, v: Value, m: Machine, m': Machine)
    requires Stands(m, under, v) && v.Table? && !Get(v.entries, Text(name)).Table?
    requires m' == m.(stack := m.stack + [Get(v.entries, Text(name))],
                      errString := ErrorText(m.nameCode, name, "value", TTable))
    ensures var w := WalkCmd(Bracket(name, body), under, v, m.nameCode); w.log == [] && Ends(m, m', w.end, LoadError)
  {
    hide ErrorText, Get;
    assert m'.stack == m.stack[..|m.stack| - 1] + [v, Get(v.entries, Text(name))];
  }

  /** An error in a bracket leaves it, and the bracket's table stays. */
  lemma BracketLeft(v: Value, sub: Value, name: string, end: Stop, m: Machine, m': Machine, status: Status)
    requires m.stack != [] && m.stack[|m.stack| - 1] == v && !end.Back?
    requires Ends(m.(stack := m.stack + [sub], nameCode := AddName(m.nameCode, name), nameDepth := m.nameDepth + 1),
                  m', end, status)
    ensures Ends(m, m', EndBracket(v, end), status)
  {
    hide AddName;
    if end.Failed? {
      assert (m.stack + [sub])[..|m.stack|] == m.stack;
      assert m.stack + end.tail == m.stack[..|m.stack| - 1] + ([v] + end.tail);
    }
  }

  /** An error in a round leaves it, and the table and the key stay. */
  lemma RoundLeft(v: Value, e: Entry, end: Stop, m: Machine, m': Machine, status: Status)
    requires m.stack != [] && m.stack[|m.stack| - 1] == v && !end.Back?
    requires Ends(m.(stack := m.stack + [e.key, e.value]), m', end, status)
    ensures Ends(m, m', LeaveRound(v, e.key, end), status)
  {
    if end.Failed? {
      assert (m.stack + [e.key, e.value])[..|m.stack| + 1] == m.stack + [e.key];
      assert m.stack + [e.key] + end.tail == m.stack[..|m.stack| - 1] + ([v, e.key] + end.tail);
    }
  }

  lemma FieldIsWellFormed(v: Value, key: Value)
    requires v.Table? && WellFormed(v)
    ensures WellFormed(Get(v.entries, key))
  {
  }

  lemma EntryIsWellFormed(v: Value, i: nat)
    requires v.Table? && WellFormed(v) && i < |v.entries|
    ensures TableKeys(v.entries) && v.entries[i].value != Nil && WellFormed(v.entries[i].value)
  {
  }

  lemma HasTableKeys(v: Value)
    requires v.Table? && WellFormed(v)
    ensures TableKeys(v.entries)
  {
  }

  class State {
    var stack: seq<Value>
    var nameCode: string
    var nameDepth: nat
    var errString: string

    constructor ()
      ensures stack == [] && nameCode == "" && nameDepth == 0 && errString == ""
    {
      stack, nameCode, nameDepth, errString := [], "", 0, "";
    }

    // -------------------------------------------------------------- the Lua interface

    function Top(): Value
      requires stack != []
      reads this`stack
    {
      stack[|stack| - 1]
    }

    method Push(v: Value)
      modifies this`stack
      ensures stack == old(stack) + [v]
    {
      stack := stack + [v];
    }

    method Pop()
      requires stack != []
      modifies this`stack
      ensures stack == old(stack)[..|old(stack)| - 1]
    {
      stack := stack[..|stack| - 1];
    }

    /** lua_getfield (L, -1, name); with a value other than a table a run-time error. */
    method GetField(name: string) returns (ok: bool)
      requires stack != []
      modifies this`stack
      ensures ok == old(Top()).Table?
      ensures stack == if ok then old(stack) + [Get(old(Top()).entries, Text(name))] else old(stack)
    {
      ok := Top().Table?;
      if ok {
        Push(Get(Top().entries, Text(name)));
      }
    }

    /** lua_gettable (L, -2): the key on top gives way to the value. */
    method GetTable() returns (ok: bool)
      requires |stack| >= 2
      modifies this`stack
      ensures var t, k := old(stack)[|old(stack)| - 2], old(Top());
              ok == t.Table? &&
              stack == if ok then old(stack)[..|old(stack)| - 1] + [Get(t.entries, k)] else old(stack)
    {
      var t, k := stack[|stack| - 2], Top();
      ok := t.Table?;
      if ok {
        Pop();
        Push(Get(t.entries, k));
      }
    }

    /** lua_next (L, -2): the key on top gives way to the next entry, or goes. */
    method Next() returns (more: bool, ok: bool)
      requires |stack| >= 2
      modifies this`stack
      ensures var n := |old(stack)|; var t, k := old(stack)[n - 2], old(Top());
              ok == (t.Table? && (k == Nil || IndexOf(t.entries, k) < |t.entries|)) &&
              (ok ==>
                var i := if k == Nil then 0 else IndexOf(t.entries, k) + 1;
                more == (i < |t.entries|) &&
                stack == old(stack)[..n - 1] + if more then [t.entries[i].key, t.entries[i].value] else [])
      ensures !ok ==> stack == old(stack)
    {
      var t, k := stack[|stack| - 2], Top();
      ok := t.Table? && (k == Nil || IndexOf(t.entries, k) < |t.entries|);
      more := false;
      if ok {
        var i := if k == Nil then 0 else IndexOf(t.entries, k) + 1;
        more := i < |t.entries|;
        Pop();
        if more {
          Push(t.entries[i].key);
          Push(t.entries[i].value);
        }
      }
    }

    /** Next walks along the entries of a table. */
    method NextEntry(ghost v: Value, ghost i: nat) returns (more: bool)
      requires |stack| >= 2 && stack[|stack| - 2] == v && v.Table? && TableKeys(v.entries) && i <= |v.entries|
      requires Top() == if i == 0 then Nil else v.entries[i - 1].key
      modifies this`stack
      ensures more == (i < |v.entries|)
      ensures stack == old(stack)[..|old(stack)| - 1] + if more then [v.entries[i].key, v.entries[i].value] else []
    {
      var ok;
      more, ok := Next();
    }

    // -------------------------------------------------------------- the path

    method AddNameComponent(name: string)
      modifies this`nameCode, this`nameDepth
      ensures nameCode == AddName(old(nameCode), name)
      ensures nameDepth == old(nameDepth) + 1
    {
      if |nameCode| != 0 {
        nameCode := nameCode + ".";
      }
      nameCode := nameCode + name;
      nameDepth := nameDepth + 1;
    }

    /** Constraint_Error comes from the start of the search, or from a depth below zero. */
    method RemoveNameComponent() returns (ok: bool)
      modifies this`nameCode, this`nameDepth
      ensures ok == (old(nameCode) != "" && old(nameDepth) > 0)
      ensures ok ==> RemoveName(old(nameCode)) == Some(nameCode) && nameDepth == old(nameDepth) - 1
    {
      ok := false;
      if nameCode != "" {
        var dot := LastOf(nameCode, '.');
        if dot != 0 {
          dot := dot - 1;
        }
        nameCode := nameCode[..dot];
        if nameDepth > 0 {
          nameDepth := nameDepth - 1;
          ok := true;
        }
      }
    }

    method TypeError(target: string, wanted: Type, name: string)
      modifies this`errString
      ensures errString == ErrorText(nameCode, name, target, wanted)
    {
      errString := "";
      if |nameCode| != 0 {
        errString := errString + (nameCode + ": ");
      }
      assert errString == Prefix(nameCode);
      if name != "" {
        errString := errString + (name + ": ");
      }
      assert errString == Prefix(nameCode) + Prefix(name);
      errString := errString + (target + ": not a " + TypeName(wanted));
    }

    // -------------------------------------------------------------- readers

    /** Named_Local and Named_Local_Conditional. */
    method NamedLocal(kind: Kind, name: string, mode: Mode) returns (status: Status, v: Value)
      requires stack != []
      modifies this`stack, this`errString
      ensures !old(Top()).Table? ==> status == Abort
      ensures old(Top()).Table? ==>
                Delivered(Accept(Get(old(Top()).entries, Text(name)), kind, mode), status, v) &&
                stack == old(stack) &&
                errString == if status == LoadError then ErrorText(nameCode, name, "value", Wanted(kind))
                    else old(errString)
    {
      v := Nil;
      var ok := GetField(name);
      if !ok {
        status := Abort;
        return;
      }
      status, v := FromStack(kind, mode, name);
    }

    /** Indexed_Local and Indexed_Local_Conditional. */
    method IndexedLocal(kind: Kind, index: int, mode: Mode) returns (status: Status, v: Value)
      requires stack != []
      modifies this`stack, this`errString
      ensures !old(Top()).Table? ==> status == Abort
      ensures old(Top()).Table? ==>
                Delivered(Accept(Get(old(Top()).entries, Number(index as real)), kind, mode), status, v) &&
                stack == old(stack) &&
                errString == if status == LoadError then ErrorText(nameCode, Image(index), "value", Wanted(kind))
                    else old(errString)
    {
      v := Nil;
      Push(Number(index as real));
      var ok := GetTable();
      if !ok {
        status := Abort;
        return;
      }
      assert stack[..|stack| - 1] == old(stack);
      status, v := FromStack(kind, mode, Image(index));
    }

    /** The part that the readers of fields share: the field is on top, and goes. */
    method FromStack(kind: Kind, mode: Mode, name: string) returns (status: Status, v: Value)
      requires stack != []
      modifies this`stack, this`errString
      ensures Delivered(Accept(old(Top()), kind, mode), status, v)
      ensures stack == old(stack)[..|old(stack)| - 1]
      ensures errString == if status == LoadError then ErrorText(nameCode, name, "value", Wanted(kind))
              else old(errString)
    {
      v := Nil;
      if mode.Conditional? && Top() == Nil {
        Pop();
        return Returned, mode.default;
      }
      if TypeOf(Top()) != Wanted(kind) {
        Pop();
        TypeError("value", Wanted(kind), name);
        return LoadError, Nil;
      }
      v := Top();
      Pop();
      status := Returned;
    }

    /** Local and Local_Conditional.  The value stays on the stack when it is
        delivered, and is popped when it is nil or of another type. */
    method LocalValue(kind: Kind, mode: Mode) returns (status: Status, v: Value)
      requires stack != []
      modifies this`stack, this`errString
      ensures Delivered(Accept(old(Top()), kind, mode), status, v)
      ensures stack == if status == Returned && (mode.Strict? || old(Top()) != Nil)
                       then old(stack) else old(stack)[..|old(stack)| - 1]
      ensures errString == if status == LoadError then ErrorText(nameCode, "", "value", Wanted(kind))
              else old(errString)
    {
      if mode.Conditional? && Top() == Nil {
        Pop();
        return Returned, mode.default;
      }
      if TypeOf(Top()) != Wanted(kind) {
        Pop();
        TypeError("value", Wanted(kind), "");
        return LoadError, Nil;
      }
      return Returned, Top();
    }

    /** Key: the value below the top. */
    method KeyValue(kind: Kind) returns (status: Status, v: Value)
      requires stack != []
      modifies this`errString
      ensures |stack| < 2 ==> status == Abort
      ensures |stack| >= 2 ==>
                status == (if TypeOf(stack[|stack| - 2]) == Wanted(kind) then Returned else LoadError) &&
                (status == Returned ==> v == stack[|stack| - 2]) &&
                errString == if status == LoadError then ErrorText(nameCode, "", "Key", Wanted(kind))
                    else old(errString)
    {
      v := Nil;
      if |stack| < 2 {
        return Abort, v;
      }
      if TypeOf(stack[|stack| - 2]) != Wanted(kind) {
        TypeError("Key", Wanted(kind), "");
        return LoadError, v;
      }
      return Returned, stack[|stack| - 2];
    }

    // -------------------------------------------------------------- tables

    /** A value that is not a table stays on the stack. */
    method TableStart(name: string) returns (status: Status)
      requires stack != []
      modifies this
      ensures !old(Top()).Table? ==> status == Abort
      ensures old(Top()).Table? ==>
                var sub := Get(old(Top()).entries, Text(name));
                status == (if sub.Table? then Returned else LoadError) &&
                stack == old(stack) + [sub] &&
                nameCode == (if sub.Table? then AddName(old(nameCode), name) else old(nameCode)) &&
                nameDepth == old(nameDepth) + (if sub.Table? then 1 else 0) &&
                errString == if sub.Table? then old(errString) else ErrorText(nameCode, name, "value", TTable)
    {
      var ok := GetField(name);
      if !ok {
        return Abort;
      }
      if !Top().Table? {
        TypeError("value", TTable, name);
        return LoadError;
      }
      AddNameComponent(name);
      return Returned;
    }

    method TableEnd() returns (status: Status)
      requires stack != []
      modifies this
      ensures !old(Top()).Table? ==>
                status == LoadError && stack == old(stack) && nameCode == old(nameCode) &&
                nameDepth == old(nameDepth) && errString == ErrorText(nameCode, "", "value", TTable)
      ensures old(Top()).Table? && old(nameCode) != "" && old(nameDepth) > 0 ==>
                status == Returned && stack == old(stack)[..|old(stack)| - 1] && errString == old(errString) &&
                RemoveName(old(nameCode)) == Some(nameCode) && nameDepth == old(nameDepth) - 1
      ensures old(Top()).Table? && (old(nameCode) == "" || old(nameDepth) == 0) ==> status == Abort
    {
      if !Top().Table? {
        TypeError("value", TTable, "");
        return LoadError;
      }
      var ok := RemoveNameComponent();
      if !ok {
        return Abort;
      }
      Pop();
      return Returned;
    }

    // -------------------------------------------------------------- programs

    ghost function Now(): Machine
      reads this
    {
      Machine(stack, nameCode, nameDepth, errString)
    }

    /** The value below the top. */
    function Below(): Option<Value>
      reads this`stack
    {
      if |stack| >= 2 then Some(stack[|stack| - 2]) else None
    }

    /** The commands of a client, one after the other, for keys and names of any text. */
    method Exec(prog: Prog) returns (status: Status, log: seq<Item>)
      requires stack != [] && WellFormed(Top()) && (Top() == Nil ==> NoLocalDefault(prog))
      modifies this
      ensures var w := Walk(prog, old(Below()), old(Top()), old(nameCode));
              log == w.log && Ends(old(Now()), Now(), w.end, status)
      decreases prog, 0
    {
      hide WellFormed, WalkCmd;
      match prog
      case Done => return Returned, [];
      case Then(cmd, rest) =>
        status, log := ExecCmd(cmd);
        if status == Returned {
          var log';
          status, log' := Exec(rest);
          log := log + log';
        }
    }

    method ExecCmd(cmd: Cmd) returns (status: Status, log: seq<Item>)
      requires stack != [] && WellFormed(Top()) && (Top() == Nil ==> NoLocalDefault(Then(cmd, Done)))
      modifies this
      ensures var w := WalkCmd(cmd, old(Below()), old(Top()), old(nameCode));
              log == w.log && Ends(old(Now()), Now(), w.end, status)
      decreases cmd, 0
    {
      hide WellFormed, ErrorText, Get, Image, WalkField, WalkEntries, Walk;
      match cmd
      case IfValueIs(t, yes, no) =>
        if TypeOf(Top()) == t {
          status, log := Exec(yes);
        } else {
          status, log := Exec(no);
        }
      case Bracket(name, body) => status, log := ExecBracket(name, body);
      case Iterate(body) => status, log := TableIterate(body);
      case Named(kind, name, mode) => status, log := ExecNamed(kind, name, mode);
      case Indexed(kind, index, mode) => status, log := ExecIndexed(kind, index, mode);
      case Local(kind, mode) => status, log := ExecLocal(kind, mode);
      case Key(kind) => status, log := ExecKey(kind);
      case NameCode => return Returned, [Path(nameCode)];
    }

    method ExecNamed(kind: Kind, name: string, mode: Mode) returns (status: Status, log: seq<Item>)
      requires stack != []
      modifies this
      ensures var w := WalkCmd(Named(kind, name, mode), old(Below()), old(Top()), old(nameCode));
              log == w.log && Ends(old(Now()), Now(), w.end, status)
    {
      hide ErrorText, Get, Image, WalkField, Accept;
      var v;
      status, v := NamedLocal(kind, name, mode);
      log := if status == Returned then [Got(v)] else [];
      if old(Top()).Table? {
        FieldEnds(Get(old(Top()).entries, Text(name)), kind, mode, name, old(Below()), old(Top()), old(Now()), Now(),
                  status, v);
      }
    }

    method ExecIndexed(kind: Kind, index: int, mode: Mode) returns (status: Status, log: seq<Item>)
      requires stack != []
      modifies this
      ensures var w := WalkCmd(Indexed(kind, index, mode), old(Below()), old(Top()), old(nameCode));
              log == w.log && Ends(old(Now()), Now(), w.end, status)
    {
      hide ErrorText, Get, Image, WalkField, Accept;
      var v;
      status, v := IndexedLocal(kind, index, mode);
      log := if status == Returned then [Got(v)] else [];
      if old(Top()).Table? {
        FieldEnds(Get(old(Top()).entries, Number(index as real)), kind, mode, Image(index), old(Below()), old(Top()),
                  old(Now()), Now(), status, v);
      }
    }

    method ExecLocal(kind: Kind, mode: Mode) returns (status: Status, log: seq<Item>)
      requires stack != [] && (Top() == Nil ==> mode.Strict?)
      modifies this
      ensures var w := WalkCmd(Local(kind, mode), old(Below()), old(Top()), old(nameCode));
              log == w.log && Ends(old(Now()), Now(), w.end, status)
    {
      hide ErrorText;
      var v;
      status, v := LocalValue(kind, mode);
      log := if status == Returned then [Got(v)] else [];
    }

    method ExecKey(kind: Kind) returns (status: Status, log: seq<Item>)
      requires stack != []
      modifies this
      ensures var w := WalkCmd(Key(kind), old(Below()), old(Top()), old(nameCode));
              log == w.log && Ends(old(Now()), Now(), w.end, status)
    {
      hide ErrorText;
      var v;
      status, v := KeyValue(kind);
      log := if status == Returned then [Got(v)] else [];
      assert stack == stack[..|stack| - 1] + [Top()];
    }

    /** Table_Start, a body and Table_End. */
    method ExecBracket(name: string, body: Prog) returns (status: Status, log: seq<Item>)
      requires stack != [] && WellFormed(Top())
      modifies this
      ensures var w := WalkCmd(Bracket(name, body), old(Below()), old(Top()), old(nameCode));
              log == w.log && Ends(old(Now()), Now(), w.end, status)
      decreases body, 2
    {
      hide ErrorText, Walk, WellFormed, Get, AddName;
      log := [];
      ghost var m, v := Now(), Top();
      status := TableStart(name);
      if status == Returned {
        FieldIsWellFormed(v, Text(name));
        ghost var sub := Get(v.entries, Text(name));
        ghost var w := Walk(body, Some(v), sub, nameCode);
        status, log := Exec(body);
        if status == Returned {
          status := TableEnd();
        } else {
          BracketLeft(v, sub, name, w.end, m, Now(), status);
        }
      } else if status == LoadError {
        BracketFails(name, body, old(Below()), v, m, Now());
      }
    }

    /** The first half of a round of Table_Iterate. */
    method AddKey() returns (inRange: bool, added: bool)
      requires |stack| >= 2
      modifies this`nameCode, this`nameDepth
      ensures var c := ComponentOf(stack[|stack| - 2]);
              && inRange == !c.OutOfRange? && added == c.Component?
              && nameCode == KeyCode(stack[|stack| - 2], old(nameCode))
              && nameDepth == old(nameDepth) + if added then 1 else 0
    {
      hide AddName, Bracketed, Round;
      added := false;
      var key := stack[|stack| - 2];
      if key.Number? {
        var index := Round(key.number);
        if !(INTEGER_FIRST <= index <= INTEGER_LAST) {
          return false, added;
        }
        AddNameComponent(Bracketed(index));
        added := true;
      } else if key.Text? {
        AddNameComponent(key.text);
        added := true;
      }
      return true, added;
    }

    /** One round of the loop of Table_Iterate: the key and the value are on top. */
    method ProcessEntry(body: Prog) returns (status: Status, log: seq<Item>)
      requires |stack| >= 2 && WellFormed(Top()) && Top() != Nil
      modifies this
      ensures var key := old(stack)[|old(stack)| - 2];
              if ComponentOf(key).OutOfRange? then status == Abort && log == []
              else
                var w := Walk(body, Some(key), old(Top()), KeyCode(key, old(nameCode)));
                log == w.log && Ends(old(Now()), Now(), EndRound(key, w.end), status)
      decreases body, 1
    {
      hide KeyCode, ComponentOf, Walk, WellFormed;
      log := [];
      var inRange, added := AddKey();
      if !inRange {
        return Abort, log;
      }
      status, log := Exec(body);
      if status != Abort && added {
        var ok := RemoveNameComponent();
        if !ok {
          return Abort, log;
        }
      }
    }

    /** Table_Iterate, for the callback `body`. */
    method TableIterate(body: Prog) returns (status: Status, log: seq<Item>)
      requires stack != [] && WellFormed(Top())
      modifies this
      ensures var w := WalkCmd(Iterate(body), old(Below()), old(Top()), old(nameCode));
              log == w.log && Ends(old(Now()), Now(), w.end, status)
      decreases body, 5
    {
      hide ErrorText, WellFormed, WalkEntries;
      if !Top().Table? {
        TypeError("value", TTable, "");
        IterateFails(body, Below(), Top(), old(Now()), Now());
        return LoadError, [];
      }
      status, log := IterateTable(body);
    }

    /** The loop of Table_Iterate, from its lua_pushnil() on. */
    method IterateTable(body: Prog) returns (status: Status, log: seq<Item>)
      requires stack != [] && Top().Table? && WellFormed(Top())
      modifies this
      ensures var w := WalkEntries(body, old(Top()), 0, old(nameCode));
              log == w.log && Ends(old(Now()), Now(), w.end, status)
      decreases body, 3
    {
      hide WellFormed, TableKeys, ComponentOf, KeyCode, EndRound, Walk;
      ghost var m, v := Now(), Top();
      ghost var w := WalkEntries(body, v, 0, nameCode);
      ghost var i, rest := 0, w;
      HasTableKeys(v);
      log := [];
      status := Returned;
      Push(Nil);
      var more := NextEntry(v, 0);
      while more && status == Returned
        invariant 0 <= i <= |v.entries|
        invariant status == Returned ==>
                    InRound(m, v, i, more) && rest == WalkEntries(body, v, i, nameCode) && w == After(log, rest)
        invariant status != Returned ==> log == w.log && Ends(m, Now(), w.end, status)
        decreases |v.entries| - i, status == Returned
      {
        var log';
        status, log', more := IterateOnce(body, v, i, m);
        log := log + log';
        if status == Returned {
          i := i + 1;
          rest := WalkEntries(body, v, i, nameCode);
        }
      }
    }

    /** At the head of round `i` of an iteration that began at `m`. */
    ghost predicate InRound(m: Machine, v: Value, i: nat, more: bool)
      requires v.Table? && i <= |v.entries|
      reads this
    {
      && more == (i < |v.entries|)
      && stack == m.stack + (if more then [v.entries[i].key, v.entries[i].value] else [])
      && nameDepth == m.nameDepth && errString == m.errString
    }

    method IterateOnce(body: Prog, ghost v: Value, ghost i: nat, ghost m: Machine)
      returns (status: Status, log: seq<Item>, more: bool)
      requires v.Table? && WellFormed(v) && i < |v.entries|
      requires InRound(m, v, i, true) && m.stack != [] && m.stack[|m.stack| - 1] == v
      modifies this
      ensures var key := v.entries[i].key;
              if ComponentOf(key).OutOfRange? then status == Abort && log == []
              else
                var w := Walk(body, Some(key), v.entries[i].value, KeyCode(key, old(nameCode)));
                var end := EndRound(key, w.end);
                && log == w.log
                && if end.Back? then status == Returned && InRound(m, v, i + 1, more) && nameCode == end.code
                   else status != Returned && Ends(m, Now(), LeaveRound(v, key, end), status)
      decreases body, 2
    {
      hide ComponentOf, Walk, KeyCode, EndRound, WellFormed, TableKeys;
      more := false;
      EntryIsWellFormed(v, i);
      status, log := ProcessEntry(body);
      if status == Returned {
        Pop();
        assert stack == m.stack + [v.entries[i].key];
        more := NextEntry(v, i + 1);
      } else if !ComponentOf(v.entries[i].key).OutOfRange? {
        ghost var key := v.entries[i].key;
        ghost var w := Walk(body, Some(key), v.entries[i].value, KeyCode(key, old(nameCode)));
        RoundLeft(v, v.entries[i], EndRound(key, w.end), m.(nameCode := old(nameCode)), Now(), status);
      }
    }
  }
}
