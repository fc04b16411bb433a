/** The C program inside mk-mk-ctxt, which prints its input as a C array, and a
    reading of the array that it prints. */
module CtxtPrinter {
  import opened Wrappers
  import opened Bytes
  import opened Strings

  const BUFFER_SIZE := 1024
  const NEWLINE: byte := 10

  // ---------------------------------------------------------------- the text

  function HexDigit(d: nat): char
    requires d < 16
  {
    "0123456789abcdef"[d]
  }

  /** The digits of an element: a signed char of 128 or more is printed as a negative int. */
  function HexDigits(b: byte, signed: bool): string {
    (if signed && b >= 128 then "ffffff" else "") + [HexDigit(b as int / 16), HexDigit(b as int % 16)]
  }

  function Element(b: byte, signed: bool): string { "0x" + HexDigits(b, signed) + ", " }

  /** The elements of the array, twelve to a line. */
  function Elements(data: seq<byte>, signed: bool): string {
    if data == [] then ""
    else
      var n := |data| - 1;
      Elements(data[..n], signed) + Element(data[n], signed) + (if |data| % 12 == 0 then "\n" else "")
  }

  lemma ElementsNext(data: seq<byte>, b: byte, signed: bool)
    ensures Elements(data + [b], signed) ==
            Elements(data, signed) + Element(b, signed) + (if (|data| + 1) % 12 == 0 then "\n" else "")
  {
    assert (data + [b])[..|data|] == data;
  }

  function Header(name: string): string { "char " + name + "[] = {\n" }

  function LengthLine(name: string, bytes: nat): string {
    "const unsigned int " + name + "_len = " + Digits(bytes % 0x1_0000_0000) + ";\n"
  }

  function Footer(name: string, bytes: nat): string { "0x00," + "\n};\n" + LengthLine(name, bytes) }

  function Source(name: string, data: seq<byte>, signed: bool): string {
    Header(name) + Elements(data, signed) + Footer(name, |data|)
  }

  /** The text around the elements: a declaration of the array, and one of its length,
      which an unsigned int holds. */
  lemma SourceIs(name: string, data: seq<byte>, signed: bool) returns (digits: string)
    ensures Source(name, data, signed) ==
            "char " + name + "[] = {\n" + Elements(data, signed) +
            ("0x00," + "\n};\n" + ("const unsigned int " + name + "_len = " + digits + ";\n"))
    ensures IsDecimal(digits, |data| % 0x1_0000_0000)
  {
    hide Elements, IsDecimal, Digits;
    digits := Digits(|data| % 0x1_0000_0000);
    DigitsAreDecimal(|data| % 0x1_0000_0000);
  }

  /** An element is "0x", two digits and a comma; a signed char of 128 or more has its sign
      spread over eight. */
  lemma ElementsAre()
    ensures Element(10, true) == "0x" + "0a" + ", " == Element(10, false)
    ensures Element(255, false) == "0x" + "ff" + ", "
    ensures Element(254, true) == "0x" + "fffffffe" + ", "
  {
    assert HexDigits(254, true) == "ffffff" + ['f', 'e'] == "fffffffe";
    assert HexDigits(10, true) == HexDigits(10, false) == "" + ['0', 'a'] == "0a";
    assert HexDigits(255, false) == "" + ['f', 'f'] == "ff";
  }

  // ---------------------------------------------------------------- the input

  /** The place of the last newline from 1 to `n`, or zero. */
  function LastNewline(buf: seq<byte>, n: nat): (i: nat)
    requires n < |buf|
    ensures i <= n && (i > 0 ==> buf[i] == NEWLINE) && forall j :: i < j <= n ==> buf[j] != NEWLINE
  {
    if n == 0 then 0 else if buf[n] == NEWLINE then n else LastNewline(buf, n - 1)
  }

  /** The buffer after a read that has not filled it: the byte behind the data is looked at, too. */
  function Trimmed(buf: seq<byte>, r: nat): seq<byte>
    requires |buf| == BUFFER_SIZE && r <= BUFFER_SIZE
  {
    if r == BUFFER_SIZE || LastNewline(buf, r) == 0 then buf else buf[LastNewline(buf, r) := 0]
  }

  function AfterRead(buf: seq<byte>, chunk: seq<byte>): seq<byte>
    requires |buf| == BUFFER_SIZE && |chunk| <= BUFFER_SIZE
  {
    Trimmed(chunk + buf[|chunk|..], |chunk|)
  }

  ghost predicate Chunks(chunks: seq<seq<byte>>) {
    forall c :: c in chunks ==> 0 < |c| <= BUFFER_SIZE
  }

  /** The buffer after these reads. */
  function BufferAfter(chunks: seq<seq<byte>>): (buf: seq<byte>)
    requires Chunks(chunks)
    ensures |buf| == BUFFER_SIZE
  {
    if chunks == [] then seq(BUFFER_SIZE, _ => 0)
    else AfterRead(BufferAfter(chunks[..|chunks| - 1]), chunks[|chunks| - 1])
  }

  /** The bytes that are printed for these reads. */
  function Data(chunks: seq<seq<byte>>): seq<byte>
    requires Chunks(chunks)
  {
    if chunks == [] then []
    else Data(chunks[..|chunks| - 1]) + BufferAfter(chunks)[..|chunks[|chunks| - 1]|]
  }

  // ---------------------------------------------------------------- the program

  class Printer {
    const buf: array<byte>
    const signed: bool
    var out: string
    var bytes: nat
    var line: nat

    constructor (signed: bool)
      ensures fresh(buf) && buf.Length == BUFFER_SIZE && (forall i :: 0 <= i < BUFFER_SIZE ==> buf[i] == 0)
      ensures this.signed == signed && out == "" && bytes == 0 && line == 0
    {
      buf := new byte[BUFFER_SIZE](_ => 0);
      this.signed, out, bytes, line := signed, "", 0, 0;
    }

    method Print(s: string)
      modifies this`out
      ensures out == old(out) + s
    {
      out := out + s;
    }

    /** read() has put a chunk into the buffer. */
    method Receive(chunk: seq<byte>)
      requires buf.Length == BUFFER_SIZE && |chunk| <= BUFFER_SIZE
      modifies buf
      ensures buf[..] == chunk + old(buf[|chunk|..])
    {
      forall i | 0 <= i < |chunk| {
        buf[i] := chunk[i];
      }
    }

    /** The backward search for a newline. */
    method Trim(r: nat)
      requires buf.Length == BUFFER_SIZE && r <= BUFFER_SIZE
      modifies buf
      ensures buf[..] == Trimmed(old(buf[..]), r)
    {
      if r != BUFFER_SIZE {
        var i: nat := r;
        while i > 0
          invariant i <= r && buf[..] == old(buf[..])
          invariant LastNewline(buf[..], r) == LastNewline(buf[..], i)
        {
          if buf[i] == NEWLINE {
            buf[i] := 0;
            break;
          }
          i := i - 1;
        }
      }
    }

    /** The elements of `data` have been printed after `header`. */
    ghost predicate Printed(header: string, data: seq<byte>)
      reads this
    {
      out == header + Elements(data, signed) && bytes == |data| && line == 6 * (|data| % 12)
    }

    method PrintElement(b: byte, ghost header: string, ghost data: seq<byte>)
      requires Printed(header, data)
      modifies this
      ensures Printed(header, data + [b])
    {
      hide Elements, Element, Digits;
      ElementsNext(data, b, signed);
      Grouped(header, Elements(data, signed), Element(b, signed), if (|data| + 1) % 12 == 0 then "\n" else "");
      bytes := bytes + 1;
      Print(Element(b, signed));
      line := line + 6;
      if line >= 72 {
        line := 0;
        Print("\n");
      }
    }

    /** The loop over the buffer. */
    method PrintBuffer(r: nat, ghost header: string, ghost data: seq<byte>)
      requires buf.Length == BUFFER_SIZE && r <= BUFFER_SIZE && Printed(header, data)
      modifies this
      ensures Printed(header, data + buf[..r])
    {
      var num := 0;
      assert data + buf[..0] == data;
      while num != r
        invariant num <= r && Printed(header, data + buf[..num])
        decreases r - num
      {
        assert data + buf[..num + 1] == data + buf[..num] + [buf[num]];
        PrintElement(buf[num], header, data + buf[..num]);
        num := num + 1;
      }
    }

    /** One round of the main loop. */
    method PrintChunk(chunk: seq<byte>, ghost header: string, ghost data: seq<byte>)
      requires buf.Length == BUFFER_SIZE && 0 < |chunk| <= BUFFER_SIZE && Printed(header, data)
      modifies this, buf
      ensures buf[..] == AfterRead(old(buf[..]), chunk) && Printed(header, data + buf[..][..|chunk|])
    {
      hide Elements, Trimmed;
      Receive(chunk);
      Trim(|chunk|);
      PrintBuffer(|chunk|, header, data);
    }

    /** main(), for the chunks that read() returns before the end of the input or an error. */
    method PrintArray(name: string, chunks: seq<seq<byte>>, broken: bool) returns (code: int)
      requires Chunks(chunks)
      requires buf.Length == BUFFER_SIZE && forall i :: 0 <= i < BUFFER_SIZE ==> buf[i] == 0
      requires out == "" && bytes == 0 && line == 0
      modifies this, buf
      ensures code == if broken then 112 else 0
      ensures !broken ==> out == Source(name, Data(chunks), signed)
    {
      hide Elements, Digits, AfterRead;
      Print(Header(name));
      NothingRead(signed);
      var k := 0;
      while k < |chunks|
        invariant k <= |chunks| && buf[..] == BufferAfter(chunks[..k])
        invariant Printed(Header(name), Data(chunks[..k]))
      {
        assert chunks[..k + 1][..k] == chunks[..k];
        PrintChunk(chunks[k], Header(name), Data(chunks[..k]));
        k := k + 1;
      }
      assert chunks[..k] == chunks;
      if broken {
        return 112;
      }
      PrintEnd(name, Header(name), Data(chunks));
      return 0;
    }

    method PrintEnd(name: string, ghost header: string, ghost data: seq<byte>)
      requires Printed(header, data)
      modifies this`out
      ensures out == header + Elements(data, signed) + Footer(name, |data|)
    {
      hide Elements, LengthLine;
      Print("0x00," + "\n};\n");
      Print(LengthLine(name, bytes));
      var end, list, length := "0x00,", "\n};\n", LengthLine(name, bytes);
      assert header + Elements(data, signed) + (end + list) + length ==
              header + Elements(data, signed) + (end + list + length);
    }
  }

  lemma Grouped(a: string, b: string, c: string, d: string)
    ensures a + b + c + d == a + (b + c + d) && (d == "" ==> a + b + c == a + (b + c + d))
  {
  }

  lemma NothingRead(signed: bool)
    ensures Elements([], signed) == "" && Data([]) == [] && forall i :: 0 <= i < BUFFER_SIZE ==> BufferAfter([])[i] == 0
  {
  }

  // ---------------------------------------------------------------- reading the array back

  predicate IsHex(c: char) { '0' <= c <= '9' || 'a' <= c <= 'f' }

  function HexValueOf(c: char): nat
    requires IsHex(c)
  {
    if c <= '9' then c as int - '0' as int else c as int - 'a' as int + 10
  }

  function HexLength(s: string): (n: nat)
    ensures n <= |s| && forall i :: 0 <= i < n ==> IsHex(s[i])
  {
    if s == "" || !IsHex(s[0]) then 0 else 1 + HexLength(s[1..])
  }

  function HexValue(s: string): nat
    requires forall i :: 0 <= i < |s| ==> IsHex(s[i])
  {
    if s == "" then 0 else 16 * HexValue(s[..|s| - 1]) + HexValueOf(s[|s| - 1])
  }

  /** The values of an initializer list up to its closing brace, each converted to a char. */
  function Initializer(s: string): Option<seq<byte>>
    decreases |s|
  {
    if s == "" then None
    else if s[0] == '}' then Some([])
    else if s[0] == ' ' || s[0] == '\n' then Initializer(s[1..])
    else if s[0] == '0' && |s| > 1 && s[1] == 'x' then
      var n := 2 + HexLength(s[2..]);
      if n == 2 || n == |s| || s[n] != ',' then None
      else Before((HexValue(s[2..n]) % 256) as byte, Initializer(s[n + 1..]))
    else None
  }

  function Before(b: byte, rest: Option<seq<byte>>): Option<seq<byte>> {
    if rest.None? then None else Some([b] + rest.value)
  }

  /** The array that a source text declares. */
  function ReadArray(text: string): Option<seq<byte>> {
    if text == "" then None else if text[0] == '{' then Initializer(text[1..]) else ReadArray(text[1..])
  }

  lemma {:induction false} HexLengthIs(digits: string, rest: string)
    requires (forall i :: 0 <= i < |digits| ==> IsHex(digits[i])) && rest != "" && !IsHex(rest[0])
    ensures HexLength(digits + rest) == |digits|
  {
    if digits != "" {
      HexLengthIs(digits[1..], rest);
      assert (digits + rest)[1..] == digits[1..] + rest;
    } else {
      assert digits + rest == rest;
    }
  }

  lemma HexDigitValue(d: nat)
    requires d < 16
    ensures IsHex(HexDigit(d)) && HexValueOf(HexDigit(d)) == d
  {
  }

  lemma HexAppend(front: string, c: char)
    requires (forall i :: 0 <= i < |front| ==> IsHex(front[i])) && IsHex(c)
    ensures HexValue(front + [c]) == 16 * HexValue(front) + HexValueOf(c)
  {
    assert (front + [c])[..|front|] == front;
  }

  lemma TwoMore(front: string, high: char, low: char)
    requires (forall i :: 0 <= i < |front| ==> IsHex(front[i])) && IsHex(high) && IsHex(low)
    ensures forall i :: 0 <= i < |front + [high, low]| ==> IsHex((front + [high, low])[i])
    ensures HexValue(front + [high, low]) == 16 * (16 * HexValue(front) + HexValueOf(high)) + HexValueOf(low)
  {
    hide IsHex, HexValueOf, HexValue;
    HexAppend(front, high);
    HexAppend(front + [high], low);
    assert front + [high] + [low] == front + [high, low];
  }

  /** The digits of an element give its byte back, whatever stands before the last two. */
  lemma DigitsAreByte(b: byte, signed: bool)
    ensures HexDigits(b, signed) != ""
    ensures forall i :: 0 <= i < |HexDigits(b, signed)| ==> IsHex(HexDigits(b, signed)[i])
    ensures HexValue(HexDigits(b, signed)) % 256 == b as int
  {
    hide HexValue, HexDigit, HexValueOf;
    var front := if signed && b >= 128 then "ffffff" else "";
    var high, low := b as int / 16, b as int % 16;
    HexDigitValue(high);
    HexDigitValue(low);
    TwoMore(front, HexDigit(high), HexDigit(low));
    ModuloIs(HexValue(front), high, low, b as int);
  }

  lemma ModuloIs(v: nat, high: nat, low: nat, b: nat)
    requires b < 256 && b == 16 * high + low
    ensures (16 * (16 * v + high) + low) % 256 == b
  {
    assert 16 * (16 * v + high) + low == 256 * v + b;
  }

  lemma ValueIsRead(digits: string, rest: string)
    requires digits != "" && forall i :: 0 <= i < |digits| ==> IsHex(digits[i])
    ensures Initializer("0x" + digits + "," + rest) == Before((HexValue(digits) % 256) as byte, Initializer(rest))
  {
    hide HexValue;
    var s := "0x" + digits + "," + rest;
    assert s[2..] == digits + ("," + rest);
    HexLengthIs(digits, "," + rest);
    var n := 2 + |digits|;
    assert s[2..n] == digits && s[n] == ',' && s[n + 1..] == rest;
  }

  lemma ElementIsRead(b: byte, signed: bool, rest: string)
    ensures Initializer(Element(b, signed) + rest) == Before(b, Initializer(rest))
  {
    DigitsAreByte(b, signed);
    hide HexValue, HexDigits, HexLength;
    ValueIsRead(HexDigits(b, signed), " " + rest);
    assert Element(b, signed) + rest == "0x" + HexDigits(b, signed) + "," + (" " + rest);
    assert (" " + rest)[1..] == rest;
  }

  lemma {:induction false} ElementsAreRead(data: seq<byte>, signed: bool, rest: string)
    ensures Initializer(Elements(data, signed) + rest) ==
            if Initializer(rest).None? then None else Some(data + Initializer(rest).value)
  {
    hide Element, HexLength, HexValue, Initializer;
    if data == [] {
      assert Elements(data, signed) + rest == rest;
      assert forall v: seq<byte> :: data + v == v;
    } else {
      var n := |data| - 1;
      var end := if |data| % 12 == 0 then "\n" else "";
      var element := Element(data[n], signed);
      assert Elements(data, signed) + rest == Elements(data[..n], signed) + (element + (end + rest));
      hide Elements;
      LineEndIsSkipped(rest);
      ElementsAreRead(data[..n], signed, element + (end + rest));
      ElementIsRead(data[n], signed, end + rest);
      assert data[..n] + [data[n]] == data;
      assert Initializer(end + rest) == Initializer(rest);
      if Initializer(rest).Some? {
        assert data[..n] + ([data[n]] + Initializer(rest).value) == data + Initializer(rest).value;
      }
    }
  }

  lemma LineEndIsSkipped(rest: string)
    ensures Initializer("\n" + rest) == Initializer(rest) && "" + rest == rest
  {
    assert ("\n" + rest)[1..] == rest;
  }

  lemma {:induction false} BraceIsFound(front: string, rest: string)
    requires '{' !in front
    ensures ReadArray(front + "{" + rest) == Initializer(rest)
  {
    hide Initializer;
    var text := front + "{" + rest;
    if front == "" {
      assert text[1..] == rest;
    } else {
      assert text[1..] == front[1..] + "{" + rest;
      BraceIsFound(front[1..], rest);
    }
  }

  lemma ListEnd(rest: string)
    ensures Initializer("\n};\n" + rest) == Some([])
  {
    var s := "\n};\n" + rest;
    assert s[0] == '\n' && s[1..][0] == '}';
  }

  lemma ZeroValue()
    ensures IsHex('0') && HexValue("00") == 0
  {
    HexAppend("", '0');
    HexAppend("0", '0');
    assert "" + ['0'] == "0" && "0" + ['0'] == "00";
  }

  lemma EndIsRead(name: string, bytes: nat)
    ensures Initializer(Footer(name, bytes)) == Some([0])
  {
    hide LengthLine, Initializer, HexValue;
    var line := LengthLine(name, bytes);
    ListEnd(line);
    ZeroValue();
    var rest := "\n};\n" + line;
    ValueIsRead("00", rest);
    var s, zero := "0x" + "00" + "," + rest, [0 as byte];
    assert Footer(name, bytes) == s;
    assert zero + [] == zero;
  }

  /** The printed text declares the data and one NUL, however its lines are broken,
      whether a char is signed or not. */
  lemma ArrayHoldsData(name: string, data: seq<byte>, signed: bool)
    requires '{' !in name
    ensures ReadArray(Source(name, data, signed)) == Some(data + [0])
  {
    hide Elements, Initializer, Footer, ReadArray;
    var rest := Elements(data, signed) + Footer(name, |data|);
    assert Source(name, data, signed) == "char " + name + "[] = " + "{" + ("\n" + rest);
    BraceIsFound("char " + name + "[] = ", "\n" + rest);
    LineEndIsSkipped(rest);
    ElementsAreRead(data, signed, Footer(name, |data|));
    EndIsRead(name, |data|);
  }

  /** The place of the last newline of a chunk that a newline search can find. */
  predicate LastNewlineAt(chunk: seq<byte>, i: nat) {
    0 < i < |chunk| && chunk[i] == NEWLINE && forall j :: i < j < |chunk| ==> chunk[j] != NEWLINE
  }

  /** An input that one read() takes in without filling the buffer is printed with
      its last newline zeroed, unless that is the very first byte. */
  lemma OneRead(input: seq<byte>)
    requires 0 < |input| < 1024
    ensures forall i: nat :: LastNewlineAt(input, i) ==> Data([input]) == input[i := 0]
    ensures (forall i :: 0 < i < |input| ==> input[i] != NEWLINE) ==> Data([input]) == input
  {
    var none: seq<seq<byte>> := [];
    assert [input][..0] == none;
    var zeros := BufferAfter(none);
    var buf := input + zeros[|input|..];
    assert BufferAfter([input]) == Trimmed(buf, |input|);
    assert buf[|input|] == 0;
    assert Data(none) == [];
    assert Data([input]) == Trimmed(buf, |input|)[..|input|];
    var l := LastNewline(buf, |input|);
    if l == 0 {
      assert buf[..|input|] == input;
    } else {
      assert buf[l] == NEWLINE && l < |input| && input[l] == NEWLINE;
      assert buf[l := 0][..|input|] == input[l := 0];
    }
  }

  /** A read that fills the buffer is printed as it is. */
  lemma FullRead(buf: seq<byte>, chunk: seq<byte>)
    requires |buf| == BUFFER_SIZE && |chunk| == 1024
    ensures AfterRead(buf, chunk) == chunk
  {
    assert chunk + buf[|chunk|..] == chunk;
  }

  /** What the compiler sees of such an input: it, its last newline zeroed, and one NUL. */
  lemma InputIsRead(name: string, input: seq<byte>, signed: bool, i: nat)
    requires '{' !in name && |input| < 1024 && LastNewlineAt(input, i)
    ensures ReadArray(Source(name, Data([input]), signed)) == Some(input[i := 0] + [0])
  {
    OneRead(input);
    ArrayHoldsData(name, Data([input]), signed);
  }

  // ---------------------------------------------------------------- the byte behind the data

  /** What is printed of a short read: it is the chunk with its last newline zeroed, unless
      an earlier read has left a newline behind it, which is zeroed in its stead. */
  lemma ShortRead(buf: seq<byte>, chunk: seq<byte>, i: nat)
    requires |buf| == BUFFER_SIZE > |chunk| && LastNewlineAt(chunk, i)
    ensures AfterRead(buf, chunk)[..|chunk|] == if buf[|chunk|] == NEWLINE then chunk else chunk[i := 0]
  {
    var r, whole := |chunk|, chunk + buf[|chunk|..];
    assert whole[r] == buf[r] && whole[i] == NEWLINE;
    if buf[r] == NEWLINE {
      assert LastNewline(whole, r) == r;
      assert whole[r := 0][..r] == chunk;
    } else {
      assert LastNewline(whole, r) == i;
      assert whole[i := 0][..r] == chunk[i := 0];
    }
  }

  /** In any sequence of reads the last newline of a short read is the one that is zeroed
      if and only if the reads before it have not left a newline right behind its data. */
  lemma NewlineIsZeroedIff(chunks: seq<seq<byte>>, i: nat)
    requires Chunks(chunks) && chunks != [] && |chunks[|chunks| - 1]| < BUFFER_SIZE
    requires LastNewlineAt(chunks[|chunks| - 1], i)
    ensures var n := |chunks| - 1;
            Data(chunks) == Data(chunks[..n]) + chunks[n][i := 0] <==>
            BufferAfter(chunks[..n])[|chunks[n]|] != NEWLINE
  {
    var n := |chunks| - 1;
    var front, chunk := chunks[..n], chunks[n];
    ShortRead(BufferAfter(front), chunk, i);
    assert Data(chunks) == Data(front) + AfterRead(BufferAfter(front), chunk)[..|chunk|];
    hide AfterRead, BufferAfter, Data;
    SameTail(Data(front), AfterRead(BufferAfter(front), chunk)[..|chunk|], chunk[i := 0]);
    assert chunk[i := 0][i] != chunk[i];
  }

  lemma SameTail(front: seq<byte>, a: seq<byte>, b: seq<byte>)
    requires |a| == |b|
    ensures front + a == front + b <==> a == b
  {
    assert a == (front + a)[|front|..] && b == (front + b)[|front|..];
  }

  /** "ab", "c" and their newlines, then "x" and its newline: the second read keeps its
      newline, because the first has left one two places further. */
  lemma OldNewlineStaysBehind()
    ensures Data([[97, 98, 10, 99, 10], [120, 10]]) == [97, 98, 10, 99, 0, 120, 10]
  {
    var first: seq<byte>, second: seq<byte> := [97, 98, 10, 99, 10], [120, 10];
    var none: seq<seq<byte>> := [];
    assert [first][..0] == none && [first, second][..1] == [first];
    ShortRead(BufferAfter(none), first, 4);
    var buf := BufferAfter([first]);
    assert buf == AfterRead(BufferAfter(none), first);
    assert buf[..5] == first[4 := 0] && buf[2] == buf[..5][2] == 10;
    ShortRead(buf, second, 1);
    assert BufferAfter([first, second])[..2] == second;
    assert Data([first]) == Data(none) + buf[..5];
  }
}
