/** What the readers deliver and what their errors say, told from the entries of the
    table and in the words of the error texts; and how numbers are written in a path. */
module LuaValues {
  import opened Wrappers
  import opened Strings
  import opened LuaPath
  import opened LuaReading
  import opened LuaWalk

  // ---------------------------------------------------------------- readers

  /** `v` is the value that the table has for `key`, or nil when it has none. */
  ghost predicate IsField(entries: seq<Entry>, key: Value, v: Value) {
    || Entry(key, v) in entries
    || (v == Nil && forall e :: e in entries ==> e.key != key)
  }

  predicate IsOf(v: Value, kind: Kind) { if kind == AsNumber then v.Number? else v.Text? }

  /** A reader of `v` reports the default for nil, if it is conditional, and else the value
      itself if it is of the kind; it changes no code.  For any other type its error names
      the path, the element and the type it wants. */
  ghost predicate Delivers(w: Walked, v: Value, kind: Kind, mode: Mode, code: string, name: string) {
    if v == Nil && mode.Conditional? then w == Walked([Got(mode.default)], Back(code))
    else if IsOf(v, kind) then w == Walked([Got(v)], Back(code))
    else
      && w.log == [] && w.end.Failed? && w.end.code == code
      && w.end.error == Place(code, name) + "value: not a " + if kind == AsNumber then "number" else "string"
  }

  function Place(code: string, name: string): string {
    (if code == "" then "" else code + ": ") + (if name == "" then "" else name + ": ")
  }

  lemma GetIsField(entries: seq<Entry>, key: Value, v: Value)
    requires TableKeys(entries) && IsField(entries, key, v)
    ensures Get(entries, key) == v
  {
    var i := IndexOf(entries, key);
    if Entry(key, v) in entries {
      var j :| 0 <= j < |entries| && entries[j] == Entry(key, v);
      assert entries[j].key == key;
    } else {
      assert forall j :: 0 <= j < |entries| ==> entries[j] in entries;
    }
  }

  lemma TextIs(kind: Kind, code: string, name: string, target: string)
    ensures ErrorText(code, name, target, Wanted(kind)) ==
            Place(code, name) + (target + ": not a " + if kind == AsNumber then "number" else "string")
  {
  }

  lemma ValueTextIs(place: string, noun: string)
    ensures place + ("value" + ": not a " + noun) == place + "value: not a " + noun
    ensures place + ("Key" + ": not a " + noun) == place + "Key: not a " + noun
  {
    assert "value" + ": not a " == "value: not a ";
    assert "Key" + ": not a " == "Key: not a ";
  }

  lemma FieldDelivers(v: Value, kind: Kind, mode: Mode, code: string, name: string, tail: seq<Value>)
    ensures Delivers(WalkField(v, kind, mode, name, code, tail), v, kind, mode, code, name)
  {
    TextIs(kind, code, name, "value");
    ValueTextIs(Place(code, name), if kind == AsNumber then "number" else "string");
    hide ErrorText, Place;
  }

  /** Named_Local and its conditional siblings. */
  lemma NamedDelivers(kind: Kind, name: string, mode: Mode, under: Option<Value>, t: Value, code: string, v: Value)
    requires t.Table? && TableKeys(t.entries) && IsField(t.entries, Text(name), v)
    ensures Delivers(WalkCmd(Named(kind, name, mode), under, t, code), v, kind, mode, code, name)
  {
    hide Delivers, WalkField, Get, IsField;
    GetIsField(t.entries, Text(name), v);
    FieldDelivers(v, kind, mode, code, name, [t]);
  }

  /** Indexed_Local and its conditional siblings: the error names the index, with the
      blank that 'Image puts before a number without a sign. */
  lemma IndexedDelivers(kind: Kind, index: int, mode: Mode, under: Option<Value>, t: Value, code: string, v: Value)
    returns (digits: string)
    requires t.Table? && TableKeys(t.entries) && IsField(t.entries, Number(index as real), v)
    ensures Delivers(WalkCmd(Indexed(kind, index, mode), under, t, code), v, kind, mode, code,
                     (if index < 0 then "-" else " ") + digits)
    ensures IsDecimal(digits, if index < 0 then -index else index)
  {
    hide Delivers, WalkField, IsDecimal, Image, Digits, Get, IsField;
    digits := Digits(if index < 0 then -index else index);
    DigitsAreDecimal(if index < 0 then -index else index);
    GetIsField(t.entries, Number(index as real), v);
    ImageIs(index);
    FieldDelivers(v, kind, mode, code, Image(index), [t]);
  }

  lemma ImageIs(n: int)
    ensures Image(n) == (if n < 0 then "-" else " ") + Digits(if n < 0 then -n else n)
  {
    hide Digits;
  }

  /** Local and its conditional siblings. */
  lemma LocalDelivers(kind: Kind, mode: Mode, under: Option<Value>, v: Value, code: string)
    ensures Delivers(WalkCmd(Local(kind, mode), under, v, code), v, kind, mode, code, "")
  {
    hide Delivers, WalkField;
    FieldDelivers(v, kind, mode, code, "", []);
  }

  /** Key: the key itself if it is of the kind, and else an error that speaks of the key. */
  lemma KeyDelivers(kind: Kind, key: Value, v: Value, code: string)
    ensures var w := WalkCmd(Key(kind), Some(key), v, code);
            if IsOf(key, kind) then w == Walked([Got(key)], Back(code))
            else
              && w.log == [] && w.end.Failed? && w.end.code == code
              && w.end.error == Place(code, "") + "Key: not a " + if kind == AsNumber then "number" else "string"
  {
    TextIs(kind, code, "", "Key");
    ValueTextIs(Place(code, ""), if kind == AsNumber then "number" else "string");
    hide ErrorText, Place;
  }

  /** Commands run one after the other, each with the code that the one before has left, up
      to the first that does not come back. */
  lemma CommandsRunInOrder(cmd: Cmd, rest: Prog, under: Option<Value>, v: Value, code: string)
    ensures var first, all := WalkCmd(cmd, under, v, code), Walk(Then(cmd, rest), under, v, code);
            if first.end.Back? then
              var second := Walk(rest, under, v, first.end.code);
              all.log == first.log + second.log && all.end == second.end
            else all == first
  {
    hide WalkCmd;
  }

  // ---------------------------------------------------------------- tables

  /** Table_Start on a field that is a table reads the body there, with the name on the
      path; on any other it raises. */
  lemma BracketEnters(name: string, body: Prog, under: Option<Value>, t: Value, code: string, sub: Value)
    requires t.Table? && TableKeys(t.entries) && IsField(t.entries, Text(name), sub)
    ensures var w := WalkCmd(Bracket(name, body), under, t, code);
            if sub.Table? then w.log == Walk(body, Some(t), sub, (if code == "" then "" else code + ".") + name).log
            else w.log == [] && w.end.Failed? && w.end.error == Place(code, name) + "value: not a table"
  {
    hide Walk, Get, EndBracket, IsField;
    GetIsField(t.entries, Text(name), sub);
    assert "value" + ": not a " + "table" == "value: not a table";
  }

  /** Table_Iterate on something that is not a table raises. */
  lemma IterateWantsTable(body: Prog, under: Option<Value>, v: Value, code: string)
    requires !v.Table?
    ensures var w := WalkCmd(Iterate(body), under, v, code);
            w.log == [] && w.end.Failed? && w.end.error == Place(code, "") + "value: not a table"
  {
    assert "value" + ": not a " + "table" == "value: not a table";
  }

  /** Value_Type_Is. */
  lemma BranchIsTaken(t: Type, yes: Prog, no: Prog, under: Option<Value>, v: Value, code: string)
    ensures var holds := match t
                      case TNil => v.Nil?
                      case TBoolean => v.Boolean?
                      case TNumber => v.Number?
                      case TString => v.Text?
                      case TTable => v.Table?
                      case TOther => v.Other?;
            WalkCmd(IfValueIs(t, yes, no), under, v, code) ==
            if holds then Walk(yes, under, v, code) else Walk(no, under, v, code)
  {
  }

  // ---------------------------------------------------------------- numbers

  /** Conversion to an integer goes to the nearest one, away from zero when two are as near. */
  lemma RoundIsNearest(x: real)
    ensures x >= 0.0 ==> x - 0.5 < Round(x) as real <= x + 0.5
    ensures x < 0.0 ==> x - 0.5 <= (Round(x) as real) < x + 0.5
  {
  }

  lemma RoundOfInteger(n: int)
    ensures Round(n as real) == n
  {
    RoundIsNearest(n as real);
  }

  /** Table_Iterate shows an integer key as its decimal numeral in brackets; one that does
      not fit the type Integer aborts it. */
  lemma IntegerKeyIsShown(n: int, code: string) returns (digits: string)
    ensures ComponentOf(Number(n as real)).OutOfRange? <==> !(-2147483648 <= n <= 2147483647)
    ensures -2147483648 <= n <= 2147483647 ==>
              KeyCode(Number(n as real), code) ==
              (if code == "" then "" else code + ".") + "[" + (if n < 0 then "-" else "") + digits + "]"
    ensures IsDecimal(digits, if n < 0 then -n else n)
  {
    hide ComponentOf, IsDecimal, Digits, Bracketed;
    var m: nat := if n < 0 then -n else n;
    digits := Digits(m);
    DigitsAreDecimal(m);
    ComponentOfInteger(n);
    BracketedIs(n);
    assert (if code == "" then "" else code + ".") + ("[" + (if n < 0 then "-" else "") + digits + "]") ==
           (if code == "" then "" else code + ".") + "[" + (if n < 0 then "-" else "") + digits + "]";
  }

  lemma ComponentOfInteger(n: int)
    ensures ComponentOf(Number(n as real)) ==
            if -2147483648 <= n <= 2147483647 then Component(Bracketed(n)) else OutOfRange
  {
    RoundOfInteger(n);
    hide Round, Bracketed;
  }

  lemma BracketedIs(n: int)
    ensures Bracketed(n) == "[" + (if n < 0 then "-" else "") + Digits(if n < 0 then -n else n) + "]"
  {
    hide Digits;
    if n >= 0 {
      assert Image(n)[1..] == Digits(n);
    }
  }

  /** A text key is shown as it is, and a key of another type not at all. */
  lemma OtherKeyIsShown(key: Value, code: string)
    requires !key.Number?
    ensures KeyCode(key, code) == if key.Text? then (if code == "" then "" else code + ".") + key.text else code
    ensures !ComponentOf(key).OutOfRange?
  {
  }
}
