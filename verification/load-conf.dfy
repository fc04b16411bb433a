/** lua-ada-load-conf.c, the program that prints the compiler flags of the package:
    what it prints depends on nothing but which of its words it is given. */
module LoadConf {

  datatype Flag = Help | Compile | Incdir | Cflags | Dlibdir | Slibdir | Ldflags | Version | Newline

  /** The table `flags`, in its order. */
  function Flags(): (flags: seq<Flag>)
    ensures |flags| == 9
  {
    [Help, Compile, Incdir, Cflags, Dlibdir, Slibdir, Ldflags, Version, Newline]
  }

  datatype Context = Context(incdir: string, dlibdir: string, slibdir: string, version: string)

  function Word(f: Flag): string {
    match f
    case Help => "help"
    case Compile => "compile"
    case Incdir => "incdir"
    case Cflags => "cflags"
    case Dlibdir => "dlibdir"
    case Slibdir => "slibdir"
    case Ldflags => "ldflags"
    case Version => "version"
    case Newline => "newline"
  }

  function Value(f: Flag): bv32 {
    match f
    case Help => 0x40
    case Compile => 0x20
    case Incdir => 0x1
    case Cflags => 0x80
    case Dlibdir => 0x2
    case Slibdir => 0x4
    case Ldflags => 0x100
    case Version => 0x10
    case Newline => 0x8
  }

  function Description(f: Flag): string {
    match f
    case Help => "this message"
    case Compile => "modify output for use as compiler flags"
    case Incdir => "print include directory"
    case Cflags => "output required compiler flags"
    case Dlibdir => "print dynamic library directory"
    case Slibdir => "print static library directory"
    case Ldflags => "output required linker flags"
    case Version => "print library version"
    case Newline => "print trailing newline"
  }

  const USAGE := "lua-load-conf: [help] ops ...\n"

  function HelpLines(n: nat): string
    requires n <= |Flags()|
  {
    if n == 0 then "" else HelpLines(n - 1) + Word(Flags()[n - 1]) + " - " + Description(Flags()[n - 1]) + "\n"
  }

  function HelpText(): string { USAGE + "possible operators:\n" + HelpLines(|Flags()|) }

  /** What one flag prints. */
  function Text(f: Flag, compile: bool, c: Context): string {
    match f
    case Help => HelpText()
    case Compile => ""
    case Incdir => (if compile then "-I" else "") + c.incdir + " "
    case Cflags => ""
    case Dlibdir => (if compile then "-L" else "") + c.dlibdir + " "
    case Slibdir => (if compile then "-L" else "") + c.slibdir + " "
    case Ldflags => "-llua-load "
    case Version => c.version + " "
    case Newline => "\n"
  }

  /** What the first `n` flags of the table print for these words. */
  function Texts(words: set<string>, n: nat, c: Context): string
    requires n <= |Flags()|
  {
    if n == 0 then ""
    else Texts(words, n - 1, c) +
         if Word(Flags()[n - 1]) in words then Text(Flags()[n - 1], Word(Compile) in words, c) else ""
  }

  /** The output: the help and nothing else, or what was asked for, in the order of the table. */
  function Output(words: set<string>, c: Context): string {
    if Word(Help) in words then HelpText() else Texts(words, |Flags()|, c)
  }

  /** The order of the words, their repetitions and unknown words do not matter. */
  lemma {:induction false} SameWordsSameTexts(a: set<string>, b: set<string>, n: nat, c: Context)
    requires n <= |Flags()| && forall f: Flag :: Word(f) in a <==> Word(f) in b
    ensures Texts(a, n, c) == Texts(b, n, c)
  {
    hide Word, Text, Flags;
    if n > 0 {
      SameWordsSameTexts(a, b, n - 1, c);
    }
  }

  lemma SameWordsSameOutput(a: set<string>, b: set<string>, c: Context)
    requires forall f: Flag :: Word(f) in a <==> Word(f) in b
    ensures Output(a, c) == Output(b, c)
  {
    hide Texts, Word, HelpText, Flags;
    SameWordsSameTexts(a, b, |Flags()|, c);
  }

  /** What is printed when the word is given. */
  function If(words: set<string>, word: string, text: string): string { if word in words then text else "" }

  lemma TextAt(words: set<string>, n: nat, c: Context)
    requires n < |Flags()|
    ensures Texts(words, n + 1, c) ==
            Texts(words, n, c) + If(words, Word(Flags()[n]), Text(Flags()[n], Word(Compile) in words, c))
  {
    hide Word, Text, Flags;
  }

  /** The output in the words of the table: without "help", each directory that is asked
      for, with its option if "compile" is given, the linker flags, the version and the
      newline, in this order. */
  lemma OutputIs(words: set<string>, c: Context)
    requires "help" !in words
    ensures var i, l := If(words, "compile", "-I"), If(words, "compile", "-L");
            Output(words, c) ==
            "" + "" + ""
            + If(words, "incdir", i + c.incdir + " ") + ""
            + If(words, "dlibdir", l + c.dlibdir + " ") + If(words, "slibdir", l + c.slibdir + " ")
            + If(words, "ldflags", "-llua-load ") + If(words, "version", c.version + " ")
            + If(words, "newline", "\n")
  {
    hide Texts, HelpText;
    TextsUpTo(words, c);
    TextAt(words, 5, c);
    TextAt(words, 6, c);
    TextAt(words, 7, c);
    TextAt(words, 8, c);
  }

  lemma TextsUpTo(words: set<string>, c: Context)
    requires "help" !in words
    ensures var i, l := If(words, "compile", "-I"), If(words, "compile", "-L");
            Texts(words, 5, c) ==
            "" + "" + "" + If(words, "incdir", i + c.incdir + " ") + "" + If(words, "dlibdir", l + c.dlibdir + " ")
  {
    hide Texts, HelpText;
    NoTexts(words, c);
    TextAt(words, 0, c);
    TextAt(words, 1, c);
    assert Texts(words, 2, c) == "" + "" + "";
    TextAt(words, 2, c);
    TextAt(words, 3, c);
    TextAt(words, 4, c);
  }

  /** With "help" it is the usage and the lines of the help, whatever else is given. */
  lemma HelpIs(words: set<string>, c: Context)
    requires "help" in words
    ensures Output(words, c) == "lua-load-conf: [help] ops ...\n" + "possible operators:\n" + HelpLines(9)
  {
    hide HelpLines;
  }

  /** The lines of the help: each word with its description. */
  lemma FirstLines()
    ensures HelpLines(5) ==
            "" + "help" + " - " + "this message" + "\n"
            + "compile" + " - " + "modify output for use as compiler flags" + "\n"
            + "incdir" + " - " + "print include directory" + "\n"
            + "cflags" + " - " + "output required compiler flags" + "\n"
            + "dlibdir" + " - " + "print dynamic library directory" + "\n"
  {
    hide HelpLines;
    NoLines();
    LineAt(0);
    LineAt(1);
    LineAt(2);
    LineAt(3);
    LineAt(4);
  }

  lemma LastLines()
    ensures HelpLines(9) ==
            HelpLines(5)
            + "slibdir" + " - " + "print static library directory" + "\n"
            + "ldflags" + " - " + "output required linker flags" + "\n"
            + "version" + " - " + "print library version" + "\n"
            + "newline" + " - " + "print trailing newline" + "\n"
  {
    hide HelpLines;
    LineAt(5);
    LineAt(6);
    LineAt(7);
    LineAt(8);
  }

  lemma NoLines()
    ensures HelpLines(0) == ""
  {
  }

  lemma LineAt(n: nat)
    requires n < |Flags()|
    ensures HelpLines(n + 1) == HelpLines(n) + Word(Flags()[n]) + " - " + Description(Flags()[n]) + "\n"
  {
    hide Word, Description, Flags;
  }

  // ---------------------------------------------------------------- str_diff

  /** The character at a place of a C string, the terminating NUL included. */
  function CharAt(s: string, i: nat): char
    requires i <= |s|
  {
    if i < |s| then s[i] else '\0'
  }

  ghost predicate SameUpTo(s: string, t: string, i: nat) { i <= |s| && i <= |t| && s[..i] == t[..i] }

  /** One step of the comparison: false at a difference or at the end of both. */
  method SameHere(s: string, t: string, i: nat) returns (u: char, more: bool)
    requires '\0' !in s && '\0' !in t && SameUpTo(s, t, i)
    ensures u == CharAt(s, i)
    ensures more ==> SameUpTo(s, t, i + 1)
    ensures !more && u == CharAt(t, i) ==> s == t
  {
    u := CharAt(s, i);
    more := u == CharAt(t, i) && u != '\0';
    if more {
      assert s[..i + 1] == s[..i] + [s[i]] && t[..i + 1] == t[..i] + [t[i]];
    } else if u == CharAt(t, i) {
      assert i == |s| && i == |t| && s == s[..i] && t == t[..i];
    }
  }

  /** str_diff, with its loop unrolled four times: zero for equal strings, otherwise the
      difference of the first two characters that differ. */
  method StrDiff(s: string, t: string) returns (diff: int)
    requires '\0' !in s && '\0' !in t
    ensures diff == 0 <==> s == t
    ensures s != t ==> exists i: nat :: SameUpTo(s, t, i) && CharAt(s, i) != CharAt(t, i)
                                        && diff == CharAt(s, i) as int - CharAt(t, i) as int
  {
    var u: char, i: nat := '\0', 0;
    while true
      invariant SameUpTo(s, t, i)
      decreases |s| - i
    {
      var more: bool;
      u, more := SameHere(s, t, i);
      if !more { break; }
      i := i + 1;
      u, more := SameHere(s, t, i);
      if !more { break; }
      i := i + 1;
      u, more := SameHere(s, t, i);
      if !more { break; }
      i := i + 1;
      u, more := SameHere(s, t, i);
      if !more { break; }
      i := i + 1;
    }
    diff := u as int - CharAt(t, i) as int;
  }

  // ---------------------------------------------------------------- the flags

  function Given(argv: seq<string>): set<string> { set a | a in argv }

  predicate Meets(flag: bv32, value: bv32) { flag & value != 0 }

  function Or(flag: bv32, value: bv32): bv32 { flag | value }

  predicate IsSet(flag: bv32, f: Flag) { Meets(flag, Value(f)) }

  /** The bits of a flag word. */
  ghost predicate Bits(flag: bv32, words: set<string>) {
    forall f: Flag :: IsSet(flag, f) <==> Word(f) in words
  }

  lemma ValuesDiffer(f: Flag, g: Flag)
    ensures Meets(Value(f), Value(g)) <==> f == g
  {
  }

  lemma OrBits(flag: bv32, a: bv32, b: bv32)
    ensures !Meets(a, b) ==> (Meets(Or(flag, a), b) <==> Meets(flag, b))
    ensures Meets(b, b) ==> Meets(Or(flag, b), b)
  {
  }

  lemma OneBit(flag: bv32, f: Flag, g: Flag)
    ensures IsSet(Or(flag, Value(f)), g) <==> IsSet(flag, g) || f == g
  {
    hide Value, Meets, Or;
    ValuesDiffer(f, g);
    OrBits(flag, Value(f), Value(g));
  }

  lemma WordsDiffer(f: Flag, g: Flag)
    ensures Word(f) == Word(g) <==> f == g
  {
    assert f == g || |Word(f)| != |Word(g)| || Word(f)[0] != Word(g)[0];
  }

  /** A word that is in the table sets its bit. */
  lemma SetsBit(flag: bv32, words: set<string>, f: Flag)
    requires Bits(flag, words)
    ensures Bits(Or(flag, Value(f)), words + {Word(f)})
  {
    hide Word, Value, Or, IsSet;
    forall g: Flag
      ensures IsSet(Or(flag, Value(f)), g) <==> Word(g) in words + {Word(f)}
    {
      OneBit(flag, f, g);
      WordsDiffer(f, g);
    }
  }

  /** A word that is not in the table sets none. */
  lemma SetsNoBit(flag: bv32, words: set<string>, word: string)
    requires Bits(flag, words) && forall j :: 0 <= j < |Flags()| ==> Word(Flags()[j]) != word
    ensures Bits(flag, words + {word})
  {
    hide Word, Value, Or, IsSet;
    forall g: Flag
      ensures Word(g) != word
    {
      var j := InTable(g);
      assert Word(Flags()[j]) != word;
    }
  }

  class Conf {
    const context: Context
    var flag: bv32
    var out: string

    constructor (context: Context)
      ensures this.context == context && flag == 0 && out == ""
    {
      this.context, flag, out := context, 0, "";
    }

    /** One word of parse_flags: the first entry that matches sets its bit. */
    method ParseWord(word: string, ghost words: set<string>)
      requires '\0' !in word && Bits(flag, words)
      modifies this`flag
      ensures Bits(flag, words + {word})
    {
      hide Word, Value, Or, IsSet, Bits, Flags;
      WordsAreStrings();
      var jnd: nat := 0;
      while jnd < |Flags()|
        invariant jnd <= |Flags()| && flag == old(flag)
        invariant forall j :: 0 <= j < jnd ==> Word(Flags()[j]) != word
      {
        var diff := StrDiff(word, Word(Flags()[jnd]));
        if diff == 0 {
          flag := Or(flag, Value(Flags()[jnd]));
          SetsBit(old(flag), words, Flags()[jnd]);
          return;
        }
        jnd := jnd + 1;
      }
      SetsNoBit(flag, words, word);
    }

    /** parse_flags, for at least one word. */
    method ParseFlags(argv: seq<string>)
      requires forall a :: a in argv ==> '\0' !in a
      modifies this`flag
      ensures Bits(flag, Given(argv))
    {
      flag := 0;
      var ind := 0;
      while ind < |argv|
        invariant ind <= |argv| && Bits(flag, Given(argv[..ind]))
      {
        ParseWord(argv[ind], Given(argv[..ind]));
        assert (Given(argv[..ind + 1])) == (Given(argv[..ind])) + {argv[ind]};
        ind := ind + 1;
      }
      assert argv[..ind] == argv;
    }

    /** One entry of call_flags; the help ends the program. */
    method CallFlag(ind: nat, ghost words: set<string>) returns (ended: bool)
      requires ind < |Flags()| && Bits(flag, words) && out == Texts(words, ind, context)
      modifies this`out
      ensures out == Texts(words, ind + 1, context)
      ensures ended <==> Flags()[ind] == Help && Word(Help) in words
    {
      var f := Flags()[ind];
      TextsNext(flag, words, ind, context);
      hide Word, Value, Or, IsSet, Text, Bits, Texts, Flags;
      ended := false;
      if IsSet(flag, f) {
        out := out + Text(f, IsSet(flag, Compile), context);
        ended := f == Help;
      }
    }

    /** call_flags. */
    method CallFlags(ghost words: set<string>)
      requires Bits(flag, words) && out == ""
      modifies this`out
      ensures out == Output(words, context)
    {
      hide Word, Text, HelpText, Bits, Texts, Flags;
      NoTexts(words, context);
      var ind := 0;
      while ind < |Flags()|
        invariant ind <= |Flags()| && out == Texts(words, ind, context)
        invariant ind > 0 ==> Word(Help) !in words
      {
        var ended := CallFlag(ind, words);
        HelpIsFirst(ind, words, context);
        if ended {
          return;
        }
        ind := ind + 1;
      }
    }

    /** main(). */
    method Run(argv: seq<string>) returns (code: int)
      requires flag == 0 && out == "" && forall a :: a in argv ==> '\0' !in a
      modifies this
      ensures out == if argv == [] then USAGE else Output(Given(argv), context)
      ensures code == if argv == [] then 111 else 0
    {
      hide Output, Bits, Flags;
      if argv == [] {
        out := USAGE;
        return 111;
      }
      ParseFlags(argv);
      CallFlags(Given(argv));
      return 0;
    }
  }

  lemma WordsAreStrings()
    ensures forall f: Flag :: '\0' !in Word(f)
  {
  }

  lemma TextsNext(flag: bv32, words: set<string>, n: nat, c: Context)
    requires Bits(flag, words) && n < |Flags()|
    ensures IsSet(flag, Flags()[n]) <==> Word(Flags()[n]) in words
    ensures Texts(words, n + 1, c) ==
            Texts(words, n, c) +
            if IsSet(flag, Flags()[n]) then Text(Flags()[n], IsSet(flag, Compile), c) else ""
  {
    hide Word, Value, Or, IsSet, Text, Flags;
    assert IsSet(flag, Compile) <==> Word(Compile) in words;
  }

  lemma NoTexts(words: set<string>, c: Context)
    ensures Texts(words, 0, c) == ""
  {
  }

  /** The help is the first entry, and so it is printed alone. */
  lemma HelpIsFirst(ind: nat, words: set<string>, c: Context)
    requires ind < |Flags()|
    ensures Flags()[ind] == Help <==> ind == 0
    ensures Word(Help) in words ==> Texts(words, 1, c) == HelpText()
  {
    hide Word, HelpText;
    assert Flags()[0] == Help && Texts(words, 0, c) == "";
  }

  lemma InTable(f: Flag) returns (j: nat)
    ensures j < |Flags()| && Flags()[j] == f
  {
    j := match f
         case Help => 0
         case Compile => 1
         case Incdir => 2
         case Cflags => 3
         case Dlibdir => 4
         case Slibdir => 5
         case Ldflags => 6
         case Version => 7
         case Newline => 8;
  }
}
