/** What the reading says about iterations and about errors that leave them. */
module LuaUnwinding {
  import opened Wrappers
  import opened LuaPath
  import opened LuaReading
  import opened LuaWalk
  import opened LuaLoad

  // ---------------------------------------------------------------- iteration

  function Rounds(body: Prog, entries: seq<Entry>, path: seq<string>): seq<Reading> {
    seq(|entries|, i requires 0 <= i < |entries| => Read(body, EntryContext(entries[i], path)))
  }

  /** The logs of the callbacks, entry after entry. */
  function Logs(rounds: seq<Reading>): seq<Item> {
    if rounds == [] then [] else rounds[0].log + Logs(rounds[1..])
  }

  predicate Passes(e: Entry, r: Reading) { !ComponentOf(e.key).OutOfRange? && r.end.Finished? }

  lemma {:induction false} InTableIsInOrder(v: Value, rounds: seq<Reading>, i: nat)
    requires v.Table? && |rounds| == |v.entries| && i <= |rounds|
    ensures InTable(v, rounds, i).end.Finished? <==>
              forall j :: i <= j < |rounds| ==> Passes(v.entries[j], rounds[j])
    ensures InTable(v, rounds, i).end.Finished? ==> InTable(v, rounds, i).log == Logs(rounds[i..])
    decreases |rounds| - i
  {
    if i < |rounds| {
      InTableIsInOrder(v, rounds, i + 1);
      assert rounds[i..][1..] == rounds[i + 1..];
    }
  }

  /** Table_Iterate calls its callback once for each entry, in the order of
      lua_next(), with the key and the value of the entry in place and with the
      key's component on the path; it comes to its end if and only if every call does. */
  lemma IterateVisitsEachEntryOnce(body: Prog, ctx: Context)
    requires ctx.focus.Table?
    ensures var entries := ctx.focus.entries;
            var rounds := Rounds(body, entries, ctx.path);
            var r := ReadCmd(Iterate(body), ctx);
            && (r.end.Finished? <==> forall i :: 0 <= i < |entries| ==> Passes(entries[i], rounds[i]))
            && (r.end.Finished? ==> r.log == Logs(rounds))
  {
    var rounds := Rounds(body, ctx.focus.entries, ctx.path);
    InTableIsInOrder(ctx.focus, rounds, 0);
    assert rounds[0..] == rounds;
  }

  lemma {:induction false} LogsOfOne(rounds: seq<Reading>)
    requires forall i :: 0 <= i < |rounds| ==> |rounds[i].log| == 1
    ensures |Logs(rounds)| == |rounds|
    ensures forall i :: 0 <= i < |rounds| ==> Logs(rounds)[i] == rounds[i].log[0]
  {
    if rounds != [] {
      LogsOfOne(rounds[1..]);
    }
  }

  /** A callback that only asks for Name_Code sees the outer path extended by each
      key's component in turn. */
  lemma NameCodesOfEntries(ctx: Context)
    requires ctx.focus.Table?
    requires forall i :: 0 <= i < |ctx.focus.entries| ==> !ComponentOf(ctx.focus.entries[i].key).OutOfRange?
    ensures var entries, r := ctx.focus.entries, ReadCmd(Iterate(Then(NameCode, Done)), ctx);
            && r.end.Finished? && |r.log| == |entries|
            && (forall i :: 0 <= i < |entries| ==>
                 r.log[i] == Path(match ComponentOf(entries[i].key)
                                  case Component(name) => AddName(Join(ctx.path), name)
                                  case _ => Join(ctx.path)))
  {
    var body, entries := Then(NameCode, Done), ctx.focus.entries;
    var rounds := Rounds(body, entries, ctx.path);
    IterateVisitsEachEntryOnce(body, ctx);
    forall i | 0 <= i < |entries|
      ensures rounds[i] == Reading([Path(Join(EntryContext(entries[i], ctx.path).path))], Finished)
    {
      assert Read(Done, EntryContext(entries[i], ctx.path)) == Reading([], Finished);
    }
    LogsOfOne(rounds);
    forall i | 0 <= i < |entries| && ComponentOf(entries[i].key).Component?
      ensures Join(EntryContext(entries[i], ctx.path).path) == AddName(Join(ctx.path), ComponentOf(entries[i].key).name)
    {
      AddJoins(ctx.path, ComponentOf(entries[i].key).name);
    }
  }

  // ---------------------------------------------------------------- errors

  /** Slots that an error leaves in place of the value in focus, apart from those
      of iterations and brackets: a reader of the value pops it, a failed
      Table_Start adds what it found. */
  function OwnSlots(cause: Cause): nat {
    match cause
    case BadLocal => 0
    case BadStart => 2
    case _ => 1
  }

  /** The accounts of an error that leaves a program started at `path`. */
  predicate Accounts(end: End, path: seq<string>) {
    end.Raised? ==>
      && path <= end.left && |end.left| == |path| + end.brackets
      && |end.tail| == 2 * end.levels + end.brackets + OwnSlots(end.cause)
      && path <= end.at
  }

  lemma {:induction false} InTableAccounts(v: Value, rounds: seq<Reading>, i: nat, path: seq<string>)
    requires v.Table? && |rounds| == |v.entries| && i <= |rounds|
    requires forall j :: 0 <= j < |rounds| ==> Accounts(rounds[j].end, EntryContext(v.entries[j], path).path)
    ensures Accounts(InTable(v, rounds, i).end, path)
    decreases |rounds| - i
  {
    if i < |rounds| {
      InTableAccounts(v, rounds, i + 1, path);
      assert Accounts(rounds[i].end, EntryContext(v.entries[i], path).path);
    }
  }

  /** An error takes back the components of all the iterations that it leaves and
      none of the brackets: the path has grown by one name for each open bracket,
      the stack by two slots for each iteration and one for each open bracket. */
  lemma {:induction false} ErrorsUnwind(prog: Prog, ctx: Context)
    ensures Accounts(Read(prog, ctx).end, ctx.path)
    decreases prog, 0
  {
    if prog.Then? {
      ErrorsUnwindCmd(prog.cmd, ctx);
      ErrorsUnwind(prog.rest, ctx);
    }
  }

  lemma {:induction false} ErrorsUnwindCmd(cmd: Cmd, ctx: Context)
    ensures Accounts(ReadCmd(cmd, ctx).end, ctx.path)
    decreases cmd, 0
  {
    var v := ctx.focus;
    match cmd
    case IfValueIs(t, yes, no) =>
      ErrorsUnwind(yes, ctx);
      ErrorsUnwind(no, ctx);
    case Bracket(name, body) =>
      if v.Table? {
        ErrorsUnwind(body, Context(Some(v), Get(v.entries, Text(name)), ctx.path + [name]));
      }
    case Iterate(body) =>
      if v.Table? {
        var rounds := Rounds(body, v.entries, ctx.path);
        forall j | 0 <= j < |rounds| ensures Accounts(rounds[j].end, EntryContext(v.entries[j], ctx.path).path) {
          ErrorsUnwind(body, EntryContext(v.entries[j], ctx.path));
        }
        InTableAccounts(v, rounds, 0, ctx.path);
      }
    case _ =>
  }

  // ---------------------------------------------------------------- the text of an error

  /** The components of the keys that stand at every second place of a tail. */
  function NamesOfKeys(tail: seq<Value>, levels: nat): seq<string>
    requires |tail| >= 2 * levels
  {
    if levels == 0 then []
    else NameOf(tail[1]) + NamesOfKeys(tail[2..], levels - 1)
  }

  /** The text names the place of the error, and with no bracket open that place is the
      path of the start followed by the keys that the error leaves on the stack. */
  predicate Located(end: End, path: seq<string>) {
    end.Raised? ==>
      && Join(end.at) <= end.error
      && (end.brackets == 0 ==>
           |end.tail| >= 2 * end.levels && end.at == path + NamesOfKeys(end.tail, end.levels))
  }

  lemma OthersAreLocated(path: seq<string>)
    ensures Located(Finished, path) && Located(Aborted, path)
  {
  }

  lemma EntryLocated(v: Value, e: Entry, end: End, path: seq<string>)
    requires Located(end, EntryContext(e, path).path) && !ComponentOf(e.key).OutOfRange?
    ensures Located(InEntry(v, e.key, end), path)
  {
    hide ComponentOf, Join;
    if end.Raised? {
      assert ([v, e.key] + end.tail)[2..] == end.tail;
    }
  }

  lemma {:induction false} InTableLocated(v: Value, rounds: seq<Reading>, i: nat, path: seq<string>)
    requires v.Table? && |rounds| == |v.entries| && i <= |rounds|
    requires forall j :: 0 <= j < |rounds| ==> Located(rounds[j].end, EntryContext(v.entries[j], path).path)
    ensures Located(InTable(v, rounds, i).end, path)
    decreases |rounds| - i
  {
    hide Located, InEntry, EntryContext, ComponentOf;
    if i < |rounds| {
      InTableLocated(v, rounds, i + 1, path);
      if !ComponentOf(v.entries[i].key).OutOfRange? {
        EntryLocated(v, v.entries[i], rounds[i].end, path);
      }
    }
    OthersAreLocated(path);
  }

  /** Whatever iterations and brackets an error leaves, its text carries the full path of
      the element that it is about. */
  lemma {:induction false} ErrorsAreLocated(prog: Prog, ctx: Context)
    ensures Located(Read(prog, ctx).end, ctx.path)
    decreases prog, 0
  {
    if prog.Then? {
      ErrorsAreLocatedCmd(prog.cmd, ctx);
      ErrorsAreLocated(prog.rest, ctx);
    }
  }

  lemma {:induction false} ErrorsAreLocatedCmd(cmd: Cmd, ctx: Context)
    ensures Located(ReadCmd(cmd, ctx).end, ctx.path)
    decreases cmd, 0
  {
    hide Join, ComponentOf, Get, Image, TypeOf, Bracketed;
    var v := ctx.focus;
    match cmd
    case IfValueIs(t, yes, no) =>
      ErrorsAreLocated(yes, ctx);
      ErrorsAreLocated(no, ctx);
    case Bracket(name, body) =>
      if v.Table? {
        ErrorsAreLocated(body, Context(Some(v), Get(v.entries, Text(name)), ctx.path + [name]));
      }
    case Iterate(body) =>
      if v.Table? {
        var rounds := Rounds(body, v.entries, ctx.path);
        forall j | 0 <= j < |rounds| ensures Located(rounds[j].end, EntryContext(v.entries[j], ctx.path).path) {
          ErrorsAreLocated(body, EntryContext(v.entries[j], ctx.path));
        }
        InTableLocated(v, rounds, 0, ctx.path);
      }
    case _ =>
      assert ctx.path + [] == ctx.path;
  }

  // ---------------------------------------------------------------- how a program ends

  /** How a program ends, and whether an error leaves a bracket open. */
  datatype Outcome = Finishes | Raises(open: bool) | Aborts

  function Judge(ok: bool): Outcome { if ok then Finishes else Raises(false) }

  /** The outcome as the types of the values decide it, one command after the other. */
  function Check(prog: Prog, under: Option<Value>, v: Value): Outcome
    decreases prog, 0, 0
  {
    match prog
    case Done => Finishes
    case Then(cmd, rest) => var o := CheckCmd(cmd, under, v); if o.Finishes? then Check(rest, under, v) else o
  }

  function CheckCmd(cmd: Cmd, under: Option<Value>, v: Value): Outcome
    decreases cmd, 0, 0
  {
    match cmd
    case Named(kind, name, mode) =>
      if v.Table? then Judge(Accept(Get(v.entries, Text(name)), kind, mode).Some?) else Aborts
    case Indexed(kind, index, mode) =>
      if v.Table? then Judge(Accept(Get(v.entries, Number(index as real)), kind, mode).Some?) else Aborts
    case Local(kind, mode) => Judge(Accept(v, kind, mode).Some?)
    case Key(kind) => if under.Some? then Judge(TypeOf(under.value) == Wanted(kind)) else Aborts
    case NameCode => Finishes
    case IfValueIs(t, yes, no) => if TypeOf(v) == t then Check(yes, under, v) else Check(no, under, v)
    case Bracket(name, body) =>
      if !v.Table? then Aborts
      else
        var sub := Get(v.entries, Text(name));
        if !sub.Table? then Raises(false)
        else
          var o := Check(body, Some(v), sub);
          if o.Raises? then Raises(true) else o
    case Iterate(body) => if v.Table? then CheckEntries(body, v.entries, 0) else Raises(false)
  }

  /** The first entry, from number `i`, whose round does not finish decides. */
  function CheckEntries(body: Prog, entries: seq<Entry>, i: nat): Outcome
    requires i <= |entries|
    decreases body, 1, |entries| - i
  {
    if i == |entries| then Finishes
    else if ComponentOf(entries[i].key).OutOfRange? then Aborts
    else
      var o := Check(body, Some(entries[i].key), entries[i].value);
      if o.Finishes? then CheckEntries(body, entries, i + 1) else o
  }

  /** The outcome that an end is. */
  function OutcomeOf(end: End): Outcome {
    match end
    case Finished => Finishes
    case Raised(_, _, _, _, _, brackets, _) => Raises(brackets > 0)
    case Aborted => Aborts
  }

  /** The types alone decide whether a program finishes, raises or aborts, and whether its
      error leaves a bracket open. */
  lemma {:induction false} CheckAgrees(prog: Prog, ctx: Context)
    ensures OutcomeOf(Read(prog, ctx).end) == Check(prog, ctx.under, ctx.focus)
    decreases prog, 0
  {
    if prog.Then? {
      CheckAgreesCmd(prog.cmd, ctx);
      CheckAgrees(prog.rest, ctx);
    }
  }

  lemma {:induction false} CheckAgreesCmd(cmd: Cmd, ctx: Context)
    ensures OutcomeOf(ReadCmd(cmd, ctx).end) == CheckCmd(cmd, ctx.under, ctx.focus)
    decreases cmd, 0
  {
    var v := ctx.focus;
    match cmd
    case IfValueIs(t, yes, no) =>
      CheckAgrees(yes, ctx);
      CheckAgrees(no, ctx);
    case Bracket(name, body) =>
      if v.Table? {
        CheckAgrees(body, Context(Some(v), Get(v.entries, Text(name)), ctx.path + [name]));
      }
    case Iterate(body) =>
      if v.Table? {
        var rounds := Rounds(body, v.entries, ctx.path);
        forall j | 0 <= j < |rounds|
          ensures OutcomeOf(rounds[j].end) == Check(body, Some(v.entries[j].key), v.entries[j].value)
        {
          CheckAgrees(body, EntryContext(v.entries[j], ctx.path));
        }
        EntriesAgree(body, v, rounds, 0);
      }
    case _ =>
  }

  lemma {:induction false} EntriesAgree(body: Prog, v: Value, rounds: seq<Reading>, i: nat)
    requires v.Table? && |rounds| == |v.entries| && i <= |rounds|
    requires forall j :: 0 <= j < |rounds| ==>
               OutcomeOf(rounds[j].end) == Check(body, Some(v.entries[j].key), v.entries[j].value)
    ensures OutcomeOf(InTable(v, rounds, i).end) == CheckEntries(body, v.entries, i)
    decreases |rounds| - i
  {
    hide ComponentOf, Check;
    if i < |rounds| {
      EntriesAgree(body, v, rounds, i + 1);
    }
  }

  /** The path is back where it was unless the types say that a bracket is left open. */
  lemma PathUnwindsWithoutBrackets(prog: Prog, ctx: Context)
    requires Read(prog, ctx).end.Raised?
    ensures Read(prog, ctx).end.left == ctx.path <==> Check(prog, ctx.under, ctx.focus) != Raises(true)
  {
    ErrorsUnwind(prog, ctx);
    CheckAgrees(prog, ctx);
  }

  /** The value has everything that the program asks of it, in whatever order. */
  ghost predicate Conforms(prog: Prog, under: Option<Value>, v: Value)
    decreases prog, 0
  {
    prog.Then? ==> ConformsCmd(prog.cmd, under, v) && Conforms(prog.rest, under, v)
  }

  ghost predicate ConformsCmd(cmd: Cmd, under: Option<Value>, v: Value)
    decreases cmd, 0
  {
    match cmd
    case Named(kind, name, mode) => v.Table? && Accept(Get(v.entries, Text(name)), kind, mode).Some?
    case Indexed(kind, index, mode) => v.Table? && Accept(Get(v.entries, Number(index as real)), kind, mode).Some?
    case Local(kind, mode) => Accept(v, kind, mode).Some?
    case Key(kind) => under.Some? && TypeOf(under.value) == Wanted(kind)
    case NameCode => true
    case IfValueIs(t, yes, no) => if TypeOf(v) == t then Conforms(yes, under, v) else Conforms(no, under, v)
    case Bracket(name, body) =>
      v.Table? && Get(v.entries, Text(name)).Table? && Conforms(body, Some(v), Get(v.entries, Text(name)))
    case Iterate(body) =>
      v.Table? && forall e :: e in v.entries ==>
                    !ComponentOf(e.key).OutOfRange? && Conforms(body, Some(e.key), e.value)
  }

  /** A load comes to its end if and only if the value conforms to the program. */
  lemma LoadFinishesIff(prog: Prog, ctx: Context)
    ensures Read(prog, ctx).end.Finished? <==> Conforms(prog, ctx.under, ctx.focus)
  {
    CheckAgrees(prog, ctx);
    FinishesIff(prog, ctx.under, ctx.focus);
  }

  lemma {:induction false} FinishesIff(prog: Prog, under: Option<Value>, v: Value)
    ensures Check(prog, under, v).Finishes? <==> Conforms(prog, under, v)
    decreases prog, 0
  {
    if prog.Then? {
      FinishesIffCmd(prog.cmd, under, v);
      FinishesIff(prog.rest, under, v);
    }
  }

  lemma {:induction false} FinishesIffCmd(cmd: Cmd, under: Option<Value>, v: Value)
    ensures CheckCmd(cmd, under, v).Finishes? <==> ConformsCmd(cmd, under, v)
    decreases cmd, 0
  {
    match cmd
    case IfValueIs(t, yes, no) =>
      FinishesIff(yes, under, v);
      FinishesIff(no, under, v);
    case Bracket(name, body) =>
      if v.Table? {
        FinishesIff(body, Some(v), Get(v.entries, Text(name)));
      }
    case Iterate(body) =>
      if v.Table? {
        EntriesFinishIff(body, v.entries, 0);
        assert v.entries[0..] == v.entries;
      }
    case _ =>
  }

  lemma {:induction false} EntriesFinishIff(body: Prog, entries: seq<Entry>, i: nat)
    requires i <= |entries|
    ensures CheckEntries(body, entries, i).Finishes? <==>
            forall e :: e in entries[i..] ==> !ComponentOf(e.key).OutOfRange? && Conforms(body, Some(e.key), e.value)
    decreases body, 1, |entries| - i
  {
    hide ComponentOf, Conforms, Check;
    if i < |entries| {
      FinishesIff(body, Some(entries[i].key), entries[i].value);
      EntriesFinishIff(body, entries, i + 1);
      assert entries[i..] == [entries[i]] + entries[i + 1..];
    }
  }

  // ---------------------------------------------------------------- on the machine

  /** When an error leaves a program on the machine, the path is back where it was if and
      only if no bracket was open, the depth has grown by one for each open bracket, and the
      stack by two slots for each iteration and one for each open bracket.  The error text
      begins with the place of the error: with no bracket open, that is the path of the
      start followed by the components of the keys that are left on the stack. */
  lemma MachineUnwinds(prog: Prog, ctx: Context, m: Machine, m': Machine)
    requires At(m, ctx) && Read(prog, ctx).end.Raised? && ReadsTo(m, m', Read(prog, ctx).end, LoadError)
    ensures var end := Read(prog, ctx).end;
            && (m'.nameCode == m.nameCode <==> end.brackets == 0)
            && m'.nameDepth == m.nameDepth + end.brackets
            && |m'.stack| == |m.stack| - 1 + 2 * end.levels + end.brackets + OwnSlots(end.cause)
            && Join(end.at) <= m'.errString
            && (end.brackets == 0 ==> end.at == ctx.path + NamesOfKeys(m'.stack[|m.stack| - 1..], end.levels))
  {
    hide Read, Join, Split, NamesOfKeys, Clean;
    var end := Read(prog, ctx).end;
    ErrorsUnwind(prog, ctx);
    ErrorsAreLocated(prog, ctx);
    SplitJoin(ctx.path);
    SplitJoin(end.left);
    assert end.left[..|ctx.path|] == ctx.path;
    assert end.brackets == 0 ==> end.left == end.left[..|ctx.path|];
    assert m'.stack[|m.stack| - 1..] == end.tail;
  }

  predicate BracketFree(prog: Prog) { prog.Then? ==> BracketFreeCmd(prog.cmd) && BracketFree(prog.rest) }

  predicate BracketFreeCmd(cmd: Cmd) {
    match cmd
    case IfValueIs(_, yes, no) => BracketFree(yes) && BracketFree(no)
    case Bracket(_, _) => false
    case Iterate(body) => BracketFree(body)
    case _ => true
  }

  lemma {:induction false} NoBracketsInCheck(prog: Prog, under: Option<Value>, v: Value)
    requires BracketFree(prog)
    ensures Check(prog, under, v) != Raises(true)
    decreases prog, 0
  {
    if prog.Then? {
      NoBracketsInCheckCmd(prog.cmd, under, v);
      NoBracketsInCheck(prog.rest, under, v);
    }
  }

  lemma {:induction false} NoBracketsInCheckCmd(cmd: Cmd, under: Option<Value>, v: Value)
    requires BracketFreeCmd(cmd)
    ensures CheckCmd(cmd, under, v) != Raises(true)
    decreases cmd, 0
  {
    match cmd
    case IfValueIs(t, yes, no) =>
      NoBracketsInCheck(yes, under, v);
      NoBracketsInCheck(no, under, v);
    case Iterate(body) =>
      if v.Table? {
        NoBracketsInEntries(body, v.entries, 0);
      }
    case _ =>
  }

  lemma {:induction false} NoBracketsInEntries(body: Prog, entries: seq<Entry>, i: nat)
    requires BracketFree(body) && i <= |entries|
    ensures CheckEntries(body, entries, i) != Raises(true)
    decreases body, 1, |entries| - i
  {
    if i < |entries| {
      NoBracketsInCheck(body, Some(entries[i].key), entries[i].value);
      NoBracketsInEntries(body, entries, i + 1);
    }
  }

  /** In particular a program without brackets leaves path and depth as they were,
      whatever it reads. */
  lemma BracketFreeUnwinds(prog: Prog, ctx: Context, m: Machine, m': Machine)
    requires At(m, ctx) && BracketFree(prog) && ReadsTo(m, m', Read(prog, ctx).end, LoadError)
    ensures var end := Read(prog, ctx).end;
            && m'.nameCode == m.nameCode && m'.nameDepth == m.nameDepth
            && |m'.stack| == |m.stack| - 1 + 2 * end.levels + OwnSlots(end.cause)
            && Join(ctx.path + NamesOfKeys(m'.stack[|m.stack| - 1..], end.levels)) <= m'.errString
  {
    NoBracketsInCheck(prog, ctx.under, ctx.focus);
    CheckAgrees(prog, ctx);
    MachineUnwinds(prog, ctx, m, m');
  }

  // ---------------------------------------------------------------- a condition on the program alone

  const EMPTY := Table(0, [])

  /** The program raises an error when it reads an empty table, inside a bracket. */
  predicate FailsOnEmpty(prog: Prog) {
    prog.Then? && (FailsOnEmptyCmd(prog.cmd) || FailsOnEmpty(prog.rest))
  }

  predicate FailsOnEmptyCmd(cmd: Cmd) {
    match cmd
    case Named(_, _, mode) => mode.Strict?
    case Indexed(_, _, mode) => mode.Strict?
    case Local(_, _) => true
    case Key(_) => true
    case NameCode => false
    case IfValueIs(t, yes, no) => if t == TTable then FailsOnEmpty(yes) else FailsOnEmpty(no)
    case Bracket(_, _) => true
    case Iterate(_) => false
  }

  lemma {:induction false} EmptyReading(prog: Prog, ctx: Context)
    requires ctx.focus == EMPTY && ctx.under.Some? && ctx.under.value.Table?
    ensures if FailsOnEmpty(prog) then Read(prog, ctx).end.Raised? else Read(prog, ctx).end.Finished?
    decreases prog, 0
  {
    if prog.Then? {
      EmptyReadingCmd(prog.cmd, ctx);
      EmptyReading(prog.rest, ctx);
    }
  }

  lemma {:induction false} EmptyReadingCmd(cmd: Cmd, ctx: Context)
    requires ctx.focus == EMPTY && ctx.under.Some? && ctx.under.value.Table?
    ensures if FailsOnEmptyCmd(cmd) then ReadCmd(cmd, ctx).end.Raised? else ReadCmd(cmd, ctx).end.Finished?
    decreases cmd, 0
  {
    match cmd
    case IfValueIs(t, yes, no) =>
      EmptyReading(yes, ctx);
      EmptyReading(no, ctx);
    case _ =>
  }

  /** The program comes, through iterations, to a bracket that an empty table can make fail. */
  predicate CanLeaveOpen(prog: Prog) {
    prog.Then? &&
    match prog.cmd
    case NameCode => CanLeaveOpen(prog.rest)
    case Bracket(_, body) => FailsOnEmpty(body) || CanLeaveOpen(body)
    case Iterate(body) => CanLeaveOpen(body)
    case _ => false
  }

  /** A value that makes it fail there. */
  function Trap(prog: Prog): (v: Value)
    requires CanLeaveOpen(prog)
    ensures v.Table?
  {
    match prog.cmd
    case NameCode => Trap(prog.rest)
    case Bracket(name, body) => Table(0, [Entry(Text(name), if FailsOnEmpty(body) then EMPTY else Trap(body))])
    case Iterate(body) => Table(0, [Entry(Text("k"), Trap(body))])
  }

  lemma {:induction false} TrapIsWellFormed(prog: Prog)
    requires CanLeaveOpen(prog) && CleanProg(prog)
    ensures WellFormed(Trap(prog)) && CleanKeys(Trap(prog))
  {
    match prog.cmd
    case NameCode => TrapIsWellFormed(prog.rest);
    case Bracket(name, body) =>
      assert WellFormed(EMPTY) && CleanKeys(EMPTY);
      if !FailsOnEmpty(body) {
        TrapIsWellFormed(body);
      }
    case Iterate(body) => TrapIsWellFormed(body);
  }

  lemma {:induction false} TrapIsOpen(prog: Prog, under: Option<Value>)
    requires CanLeaveOpen(prog)
    ensures Check(prog, under, Trap(prog)) == Raises(true)
    decreases prog
  {
    var v := Trap(prog);
    match prog.cmd
    case NameCode => TrapIsOpen(prog.rest, under);
    case Bracket(name, body) =>
      if FailsOnEmpty(body) {
        var ctx := Context(Some(v), EMPTY, []);
        EmptyReading(body, ctx);
        CheckAgrees(body, ctx);
      } else {
        TrapIsOpen(body, Some(v));
      }
    case Iterate(body) =>
      TrapIsOpen(body, Some(Text("k")));
      assert CheckEntries(body, v.entries, 0) == Check(body, Some(Text("k")), Trap(body));
  }

  /** Every such program leaves a component behind for some value that Lua can build: run
      on the machine with that value on top, from any path, it ends with a path that is
      another and longer one. */
  lemma TrapLeavesOpen(prog: Prog, ctx: Context, m: Machine, m': Machine, status: Status)
    requires CanLeaveOpen(prog) && CleanProg(prog) && ctx.focus == Trap(prog)
    requires At(m, ctx) && ReadsTo(m, m', Read(prog, ctx).end, status)
    ensures WellFormed(ctx.focus) && CleanKeys(ctx.focus)
    ensures status == LoadError && m'.nameDepth > m.nameDepth && m'.nameCode != m.nameCode
  {
    TrapIsWellFormed(prog);
    TrapIsOpen(prog, ctx.under);
    CheckAgrees(prog, ctx);
    hide Read, Check, Trap, CanLeaveOpen, WellFormed, CleanKeys;
    MachineUnwinds(prog, ctx, m, m');
  }

  /** Reading the missing number "x" of the empty table "t" leaves "t" on the path. */
  lemma BracketStaysBehind(path: seq<string>)
    ensures var prog := Then(Bracket("t", Then(Named(AsNumber, "x", Strict), Done)), Done);
            var end := Read(prog, Context(None, Table(0, [Entry(Text("t"), EMPTY)]), path)).end;
            end.Raised? && end.brackets == 1 && end.left == path + ["t"]
  {
    var entries := [Entry(Text("t"), EMPTY)];
    assert IndexOf(entries, Text("t")) == 0;
    assert Get(EMPTY.entries, Text("x")) == Nil;
    var inner := Then(Named(AsNumber, "x", Strict), Done);
    var sub := Context(Some(Table(0, entries)), EMPTY, path + ["t"]);
    assert ReadCmd(inner.cmd, sub).end.Raised? && Read(inner, sub).end == ReadCmd(inner.cmd, sub).end;
  }
}
