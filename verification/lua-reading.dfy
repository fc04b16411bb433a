/** Lua values as trees, the commands of a client of Lua.Load, and what the
    commands mean: a recursive reading of the value tree that knows neither a
    stack nor a dotted string. */
module LuaReading {
  import opened Wrappers
  import opened Strings
  import opened LuaPath

  // ---------------------------------------------------------------- values

  /** Tables list their entries in the order of lua_next().  `id` tells apart
      tables, and other objects, that Lua compares by reference. */
  datatype Value =
    | Nil
    | Boolean(flag: bool)
    | Number(number: real)
    | Text(text: string)
    | Table(id: nat, entries: seq<Entry>)
    | Other(id: nat)

  datatype Entry = Entry(key: Value, value: Value)

  datatype Type = TNil | TBoolean | TNumber | TString | TTable | TOther

  function TypeOf(v: Value): Type {
    match v
    case Nil => TNil
    case Boolean(_) => TBoolean
    case Number(_) => TNumber
    case Text(_) => TString
    case Table(_, _) => TTable
    case Other(_) => TOther
  }

  function TypeName(t: Type): string {
    match t
    case TNil => "nil"
    case TBoolean => "boolean"
    case TNumber => "number"
    case TString => "string"
    case TTable => "table"
    case TOther => "userdata"
  }

  /** The position of a key, or the number of entries. */
  function IndexOf(entries: seq<Entry>, key: Value): (i: nat)
    ensures i <= |entries|
    ensures i < |entries| ==> entries[i].key == key
    ensures forall j :: 0 <= j < i ==> entries[j].key != key
  {
    if entries == [] || entries[0].key == key then 0 else 1 + IndexOf(entries[1..], key)
  }

  /** lua_gettable() on a table without metatable. */
  function Get(entries: seq<Entry>, key: Value): Value {
    var i := IndexOf(entries, key);
    if i < |entries| then entries[i].value else Nil
  }

  // ---------------------------------------------------------------- path components of keys

  const INTEGER_FIRST := -0x8000_0000
  const INTEGER_LAST := 0x7fff_ffff

  /** Ada's conversion to an integer type: to the nearest, halves away from zero. */
  function Round(x: real): int {
    if x >= 0.0 then (x + 0.5).Floor else -((0.5 - x).Floor)
  }

  /** 'Image of an integer, with the blank that stands for a plus sign. */
  function Image(n: int): string {
    if n >= 0 then " " + Digits(n) else "-" + Digits(-n)
  }

  /** The image without its leading blank, in brackets. */
  function Bracketed(n: int): (s: string)
    ensures Clean(s)
  {
    "[" + (if n >= 0 then Image(n)[1..] else Image(n)) + "]"
  }

  /** The component that Table_Iterate adds for a key.  A number outside Integer
      raises Constraint_Error; a key of another type adds nothing. */
  datatype Component = Nothing | Component(name: string) | OutOfRange

  function ComponentOf(key: Value): Component {
    match key
    case Number(x) =>
      var n := Round(x);
      if INTEGER_FIRST <= n <= INTEGER_LAST then Component(Bracketed(n)) else OutOfRange
    case Text(s) => Component(s)
    case _ => Nothing
  }

  /** The name that a key adds, if it adds one. */
  function NameOf(key: Value): seq<string> {
    match ComponentOf(key)
    case Component(name) => [name]
    case _ => []
  }

  /** Keys that a table can have: distinct, and not nil. */
  predicate TableKeys(entries: seq<Entry>) {
    && (forall i, j :: 0 <= i < j < |entries| ==> entries[i].key != entries[j].key)
    && (forall i :: 0 <= i < |entries| ==> entries[i].key != Nil)
  }

  /** Values that Lua can build: no key is there twice, and no key or value is nil. */
  predicate WellFormed(v: Value) {
    v.Table? ==>
      && TableKeys(v.entries)
      && forall i :: 0 <= i < |v.entries| ==> v.entries[i].value != Nil && WellFormed(v.entries[i].value)
  }

  // ---------------------------------------------------------------- commands

  datatype Kind = AsNumber | AsString

  /** Readers raise an error on any other type; the conditional ones take nil for the default. */
  datatype Mode = Strict | Conditional(default: Value)

  datatype Cmd =
    | Named(kind: Kind, name: string, mode: Mode)
    | Indexed(kind: Kind, index: int, mode: Mode)
    | Local(kind: Kind, mode: Mode)
    | Key(kind: Kind)
    | NameCode
    | IfValueIs(t: Type, yes: Prog, no: Prog)
    | Bracket(table: string, body: Prog)      // Table_Start .. Table_End
    | Iterate(process: Prog)                  // Table_Iterate with this callback

  datatype Prog = Done | Then(cmd: Cmd, rest: Prog)

  predicate CleanProg(prog: Prog) { prog.Then? ==> CleanCmd(prog.cmd) && CleanProg(prog.rest) }

  predicate CleanCmd(cmd: Cmd) {
    match cmd
    case IfValueIs(_, yes, no) => CleanProg(yes) && CleanProg(no)
    case Bracket(name, body) => Clean(name) && CleanProg(body)
    case Iterate(body) => CleanProg(body)
    case _ => true
  }

  /** No Local_Conditional looks at the value that the program starts from. */
  predicate NoLocalDefault(prog: Prog) {
    prog.Then? ==>
      && NoLocalDefault(prog.rest)
      && match prog.cmd
         case Local(_, Conditional(_)) => false
         case IfValueIs(_, yes, no) => NoLocalDefault(yes) && NoLocalDefault(no)
         case _ => true
  }

  // ---------------------------------------------------------------- their meaning

  /** What the client sees, in order. */
  datatype Item = Got(value: Value) | Path(code: string)

  /** What raises: a reader of fields, a reader of the value in focus, a reader
      of the key, Table_Start, or Table_Iterate. */
  datatype Cause = BadField | BadLocal | BadKey | BadStart | BadIterate

  /** How a program ends.  A Load_Error carries its text, the path at the place
      where it was raised, the components still on the path when it leaves the
      program, what it leaves on the stack in place of the value that the program
      started from, the numbers of iterations and brackets that it left, and its
      cause.  A Lua run-time error or a Constraint_Error aborts. */
  datatype End =
    | Finished
    | Raised(error: string, at: seq<string>, left: seq<string>, tail: seq<Value>,
             levels: nat, brackets: nat, cause: Cause)
    | Aborted

  /** An error raised at `path`. */
  function Raise(name: string, target: string, wanted: Type, path: seq<string>, tail: seq<Value>, cause: Cause): End {
    Raised(ErrorText(Join(path), name, target, wanted), path, path, tail, 0, 0, cause)
  }

  datatype Reading = Reading(log: seq<Item>, end: End)

  /** The value in focus, the one below it on the stack, and the path. */
  datatype Context = Context(under: Option<Value>, focus: Value, path: seq<string>)

  function Wanted(kind: Kind): Type {
    match kind
    case AsNumber => TNumber
    case AsString => TString
  }

  function Prefix(s: string): string {
    if s != "" then s + ": " else ""
  }

  function ErrorText(code: string, name: string, target: string, wanted: Type): string {
    Prefix(code) + Prefix(name) + (target + ": not a " + TypeName(wanted))
  }

  /** The value that a reader delivers for `v`, or nothing when the type is wrong. */
  function Accept(v: Value, kind: Kind, mode: Mode): Option<Value> {
    if v == Nil && mode.Conditional? then Some(mode.default)
    else if TypeOf(v) == Wanted(kind) then Some(v)
    else None
  }

  /** Reading `v` as a number or a string. */
  function Fetch(v: Value, kind: Kind, mode: Mode, name: string, path: seq<string>,
                 tail: seq<Value>, cause: Cause): (r: Reading)
    ensures r.end.Raised? ==> r.end.left == path
  {
    match Accept(v, kind, mode)
    case Some(got) => Reading([Got(got)], Finished)
    case None => Reading([], Raise(name, "value", Wanted(kind), path, tail, cause))
  }

  function Andthen(a: Reading, b: Reading): Reading {
    if a.end.Finished? then Reading(a.log + b.log, b.end) else a
  }

  /** An error inside a bracket leaves the bracket's table and name behind. */
  function InBracket(v: Value, r: Reading): Reading {
    if r.end.Raised? then r.(end := r.end.(tail := [v] + r.end.tail, brackets := r.end.brackets + 1)) else r
  }

  function EntryContext(e: Entry, path: seq<string>): Context {
    Context(Some(e.key), e.value,
            if ComponentOf(e.key).Component? then path + [ComponentOf(e.key).name] else path)
  }

  /** An error that leaves an iteration takes one component off the path, if the
      key has added one, and leaves the table and the key behind. */
  function InEntry(v: Value, key: Value, end: End): End {
    if !end.Raised? then end
    else
      var left := if ComponentOf(key).Component? then DropLast(end.left) else end.left;
      end.(left := left, tail := [v, key] + end.tail, levels := end.levels + 1)
  }

  function DropLast(path: seq<string>): seq<string> {
    if path == [] then [] else path[..|path| - 1]
  }

  /** The readings of the entries, from number `i`, one after the other, up to the
      first that does not finish. */
  function InTable(v: Value, rounds: seq<Reading>, i: nat): Reading
    requires v.Table? && |rounds| == |v.entries| && i <= |rounds|
    decreases |rounds| - i
  {
    if i == |rounds| then Reading([], Finished)
    else if ComponentOf(v.entries[i].key).OutOfRange? then Reading([], Aborted)
    else Andthen(rounds[i].(end := InEntry(v, v.entries[i].key, rounds[i].end)), InTable(v, rounds, i + 1))
  }

  lemma {:induction false} InTableKeepsPath(v: Value, rounds: seq<Reading>, i: nat, path: seq<string>)
    requires v.Table? && |rounds| == |v.entries| && i <= |rounds|
    requires forall j :: 0 <= j < |rounds| && rounds[j].end.Raised? ==>
               EntryContext(v.entries[j], path).path <= rounds[j].end.left
    ensures InTable(v, rounds, i).end.Raised? ==> path <= InTable(v, rounds, i).end.left
    decreases |rounds| - i
  {
    if i < |rounds| {
      InTableKeepsPath(v, rounds, i + 1, path);
    }
  }

  function Read(prog: Prog, ctx: Context): (r: Reading)
    ensures r.end.Raised? ==> ctx.path <= r.end.left
    decreases prog, 0, 0
  {
    match prog
    case Done => Reading([], Finished)
    case Then(cmd, rest) => Andthen(ReadCmd(cmd, ctx), Read(rest, ctx))
  }

  function ReadCmd(cmd: Cmd, ctx: Context): (r: Reading)
    ensures r.end.Raised? ==> ctx.path <= r.end.left
    decreases cmd, 0, 0
  {
    var v := ctx.focus;
    match cmd
    case Named(kind, name, mode) =>
      if !v.Table? then Reading([], Aborted)
      else Fetch(Get(v.entries, Text(name)), kind, mode, name, ctx.path, [v], BadField)
    case Indexed(kind, index, mode) =>
      if !v.Table? then Reading([], Aborted)
      else Fetch(Get(v.entries, Number(index as real)), kind, mode, Image(index), ctx.path, [v], BadField)
    case Local(kind, mode) => Fetch(v, kind, mode, "", ctx.path, [], BadLocal)
    case Key(kind) =>
      if ctx.under.None? then Reading([], Aborted)
      else if TypeOf(ctx.under.value) == Wanted(kind) then Reading([Got(ctx.under.value)], Finished)
      else Reading([], Raise("", "Key", Wanted(kind), ctx.path, [v], BadKey))
    case NameCode => Reading([Path(Join(ctx.path))], Finished)
    case IfValueIs(t, yes, no) => if TypeOf(v) == t then Read(yes, ctx) else Read(no, ctx)
    case Bracket(name, body) =>
      if !v.Table? then Reading([], Aborted)
      else
        var sub := Get(v.entries, Text(name));
        if !sub.Table? then
          Reading([], Raise(name, "value", TTable, ctx.path, [v, sub], BadStart))
        else InBracket(v, Read(body, Context(Some(v), sub, ctx.path + [name])))
    case Iterate(body) =>
      if !v.Table? then Reading([], Raise("", "value", TTable, ctx.path, [v], BadIterate))
      else
        var rounds :=
          seq(|v.entries|, i requires 0 <= i < |v.entries| => Read(body, EntryContext(v.entries[i], ctx.path)));
        InTableKeepsPath(v, rounds, 0, ctx.path);
        InTable(v, rounds, 0)
  }
}
