/** The command line that sd-locker builds on Win32, and how the shell reads it:
    sd_locker_win32_convert_command of sd-locker_win32.c. */
module Flattener {
  import opened Wrappers

  const PREFIX := "sh -c \""

  /** The words in quotes, each with a space behind it. */
  function Quoted(argv: seq<string>): string {
    if argv == [] then "" else Quoted(argv[..|argv| - 1]) + "'" + argv[|argv| - 1] + "' "
  }

  /** What the buffer is to hold. */
  function Flattened(argv: seq<string>): string { PREFIX + Quoted(argv) + "\"" }

  /** The allocation: sizeof (' ') is the size of an int. */
  function Total(argv: seq<string>, sizeOfInt: nat): nat {
    if argv == [] then |PREFIX| + 1 else Total(argv[..|argv| - 1], sizeOfInt) + 1 + |argv[|argv| - 1]| + 1 + sizeOfInt
  }

  /** The command with its NUL fits into the allocation if and only if there is an
      argument and an int is more than one byte. */
  lemma {:induction false} FitsIff(argv: seq<string>, sizeOfInt: nat)
    requires sizeOfInt >= 1
    ensures |Flattened(argv)| + 1 <= Total(argv, sizeOfInt) <==> argv != [] && sizeOfInt >= 2
    ensures Total(argv, sizeOfInt) >= |Flattened(argv)|
  {
    if argv != [] {
      FitsIff(argv[..|argv| - 1], sizeOfInt);
    }
  }

  /** More arguments take more room. */
  lemma {:induction false} QuotedGrows(argv: seq<string>, n: nat)
    requires n <= |argv|
    ensures |Quoted(argv[..n])| <= |Quoted(argv)|
    decreases |argv|
  {
    if n < |argv| {
      QuotedGrows(argv[..|argv| - 1], n);
      assert argv[..|argv| - 1][..n] == argv[..n];
    } else {
      assert argv[..n] == argv;
    }
  }

  /** memcpy() to the place that `ptr` has come to. */
  method Append(buffer: array<char>, used: nat, s: string)
    requires used + |s| <= buffer.Length
    modifies buffer
    ensures buffer[..used + |s|] == old(buffer[..used]) + s
  {
    forall i | 0 <= i < |s| {
      buffer[used + i] := s[i];
    }
  }

  /** The length computed first. */
  method Required(argv: seq<string>, sizeOfInt: nat) returns (total: nat)
    ensures total == Total(argv, sizeOfInt)
  {
    total := |PREFIX| + 1;
    var index := 0;
    while index < |argv|
      invariant index <= |argv| && total == Total(argv[..index], sizeOfInt)
    {
      assert argv[..index + 1][..index] == argv[..index];
      total := total + 1 + |argv[index]| + 1 + sizeOfInt;
      index := index + 1;
    }
    assert argv[..index] == argv;
  }

  /** One round of the loop: an argument between quotes, and a space. */
  method AppendQuoted(buffer: array<char>, used: nat, arg: string)
    requires used + |arg| + 3 <= buffer.Length
    modifies buffer
    ensures buffer[..used + |arg| + 3] == old(buffer[..used]) + "'" + arg + "' "
  {
    Append(buffer, used, "'");
    Append(buffer, used + 1, arg);
    Append(buffer, used + 1 + |arg|, "'");
    Append(buffer, used + 2 + |arg|, " ");
  }

  /** The loop over the argument vector. */
  method AppendAll(buffer: array<char>, start: nat, argv: seq<string>) returns (used: nat)
    requires start + |Quoted(argv)| <= buffer.Length
    modifies buffer
    ensures used == start + |Quoted(argv)| && buffer[..used] == old(buffer[..start]) + Quoted(argv)
  {
    used := start;
    ghost var front := buffer[..start];
    var index := 0;
    assert Quoted(argv[..0]) == "";
    hide Quoted;
    while index < |argv|
      invariant index <= |argv| && used == start + |Quoted(argv[..index])| <= buffer.Length
      invariant buffer[..used] == front + Quoted(argv[..index])
    {
      QuotedNext(argv, index);
      QuotedGrows(argv, index + 1);
      AppendQuoted(buffer, used, argv[index]);
      used := used + |argv[index]| + 3;
      assert front + Quoted(argv[..index]) + "'" + argv[index] + "' " == front + Quoted(argv[..index + 1]);
      index := index + 1;
    }
    assert argv[..index] == argv;
  }

  /** sd_locker_win32_convert_command; the allocation may be refused. */
  method ConvertCommand(argv: seq<string>, sizeOfInt: nat, refused: bool) returns (buffer: array?<char>)
    requires argv != [] && sizeOfInt >= 2
    ensures buffer == null <==> refused
    ensures buffer != null ==>
              && fresh(buffer) && buffer.Length == Total(argv, sizeOfInt)
              && |Flattened(argv)| < buffer.Length
              && buffer[..|Flattened(argv)| + 1] == Flattened(argv) + "\0"
  {
    var total := Required(argv, sizeOfInt);
    if refused {
      return null;
    }
    FitsIff(argv, sizeOfInt);
    hide Total, Quoted;
    buffer := new char[total];
    Fill(buffer, PREFIX, argv);
  }

  method Fill(buffer: array<char>, prefix: string, argv: seq<string>)
    requires |prefix + Quoted(argv) + "\""| + 1 <= buffer.Length
    modifies buffer
    ensures buffer[..|prefix + Quoted(argv) + "\""| + 1] == prefix + Quoted(argv) + "\"" + "\0"
  {
    hide Quoted;
    Append(buffer, 0, prefix);
    var used := AppendAll(buffer, |prefix|, argv);
    AppendEnd(buffer, used);
  }

  /** The closing double quote and the NUL. */
  method AppendEnd(buffer: array<char>, used: nat)
    requires used + 2 <= buffer.Length
    modifies buffer
    ensures buffer[..used + 2] == old(buffer[..used]) + "\"" + "\0"
  {
    Append(buffer, used, "\"");
    Append(buffer, used + 1, "\0");
  }

  lemma QuotedNext(argv: seq<string>, n: nat)
    requires n < |argv|
    ensures Quoted(argv[..n + 1]) == Quoted(argv[..n]) + "'" + argv[n] + "' "
  {
    assert argv[..n + 1][..n] == argv[..n];
  }

  // ---------------------------------------------------------------- the shell's reading

  /** The characters that mean something to the shell when they are not quoted. */
  predicate Special(c: char) { c in "|&;<>()$`\\\"'*?[#~=% \t\n{}!" }

  /** The words of a command of plain characters and single quotes (sections 2.2.2 and
      2.6.5 of the POSIX.1-2008 Shell Command Language); nothing if a quote is open
      or a character would need other rules. */
  function Words(s: string, word: Option<string>, quoted: bool): Option<seq<string>> {
    if s == "" then
      if quoted then None else if word.Some? then Some([word.value]) else Some([])
    else
      var sofar := if word.Some? then word.value else "";
      if quoted then
        if s[0] == '\'' then Words(s[1..], Some(sofar), false) else Words(s[1..], Some(sofar + [s[0]]), true)
      else if s[0] == '\'' then Words(s[1..], Some(sofar), true)
      else if s[0] == ' ' then
        match Words(s[1..], None, false)
        case None => None
        case Some(words) => Some(if word.Some? then [word.value] + words else words)
      else if Special(s[0]) then None
      else Words(s[1..], Some(sofar + [s[0]]), false)
  }

  /** What stands between the first two double quotes of a command line. */
  function UpToQuote(s: string): string {
    if s == "" || s[0] == '"' then "" else [s[0]] + UpToQuote(s[1..])
  }

  /** The text that `sh -c "text"` hands to the shell. */
  function ShellText(command: string): string {
    if "sh -c \"" <= command then UpToQuote(command[7..]) else ""
  }

  lemma {:induction false} UpToQuoteIs(s: string)
    requires '"' !in s
    ensures UpToQuote(s + "\"") == s
  {
    if s != "" {
      assert (s + "\"")[1..] == s[1..] + "\"";
      UpToQuoteIs(s[1..]);
    }
  }

  /** Inside quotes everything is taken as it stands. */
  lemma {:induction false} QuotedWord(arg: string, word: string, rest: string)
    requires '\'' !in arg
    ensures Words(arg + "'" + rest, Some(word), true) == Words(rest, Some(word + arg), false)
  {
    var s := arg + "'" + rest;
    if arg == "" {
      assert s[1..] == rest && word + arg == word;
    } else {
      QuotedWord(arg[1..], word + [arg[0]], rest);
      assert s[1..] == arg[1..] + "'" + rest;
      assert word + [arg[0]] + arg[1..] == word + arg;
    }
  }

  lemma OneWord(arg: string, rest: string)
    requires '\'' !in arg
    ensures var words := Words(rest, None, false);
            Words("'" + arg + "' " + rest, None, false) == if words.None? then None else Some([arg] + words.value)
  {
    hide Special;
    var s := "'" + arg + "' " + rest;
    assert s[1..] == arg + "'" + (" " + rest);
    QuotedWord(arg, "", " " + rest);
    assert (" " + rest)[1..] == rest && "" + arg == arg;
  }

  /** The same from the front. */
  lemma {:induction false} QuotedFront(argv: seq<string>)
    requires argv != []
    ensures Quoted(argv) == "'" + argv[0] + "' " + Quoted(argv[1..])
  {
    if |argv| > 1 {
      var n := |argv| - 1;
      QuotedFront(argv[..n]);
      assert argv[..n][1..] == argv[1..][..n - 1] && argv[1..][n - 1] == argv[n];
    }
  }

  lemma {:induction false} WordsOfQuoted(argv: seq<string>)
    requires forall a :: a in argv ==> '\'' !in a
    ensures Words(Quoted(argv), None, false) == Some(argv)
  {
    if argv != [] {
      WordsOfQuoted(argv[1..]);
      QuotedFront(argv);
      OneWord(argv[0], Quoted(argv[1..]));
      assert [argv[0]] + argv[1..] == argv;
    }
  }

  /** The shell never makes a word with a quote in it. */
  lemma {:induction false} WordsHaveNoQuote(s: string, word: Option<string>, quoted: bool)
    requires word.Some? ==> '\'' !in word.value
    ensures var words := Words(s, word, quoted);
            words.Some? ==> forall w :: w in words.value ==> '\'' !in w
  {
    hide Special;
    if s != "" {
      var sofar := if word.Some? then word.value else "";
      WordsHaveNoQuote(s[1..], Some(sofar), !quoted);
      WordsHaveNoQuote(s[1..], None, false);
      if s[0] != '\'' {
        WordsHaveNoQuote(s[1..], Some(sofar + [s[0]]), quoted);
      }
    }
  }

  lemma {:induction false} NoQuotesInQuoted(argv: seq<string>)
    requires forall a :: a in argv ==> '"' !in a
    ensures '"' !in Quoted(argv)
  {
    if argv != [] {
      NoQuotesInQuoted(argv[..|argv| - 1]);
    }
  }

  /** For arguments without double quotes the shell gets the argument vector back,
      empty words included, if and only if they have no single quotes either. */
  lemma ShellReadsVector(argv: seq<string>)
    requires forall a :: a in argv ==> '"' !in a
    ensures Words(ShellText(Flattened(argv)), None, false) == Some(argv) <==> forall a :: a in argv ==> '\'' !in a
  {
    NoQuotesInQuoted(argv);
    UpToQuoteIs(Quoted(argv));
    assert Flattened(argv)[7..] == Quoted(argv) + "\"";
    if forall a :: a in argv ==> '\'' !in a {
      WordsOfQuoted(argv);
    } else {
      WordsHaveNoQuote(Quoted(argv), None, false);
    }
  }
}
