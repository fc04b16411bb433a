module Wrappers {
  datatype Option<+T> = None | Some(value: T)
}

module Bytes {
  newtype byte = x: int | 0 <= x < 256
}

/** Strings and the places of their characters. */
module Strings {

  /** The position of the last `c`, counted from one, or zero. */
  function LastOf(s: string, c: char): (i: nat)
    ensures i <= |s|
    ensures i > 0 ==> s[i - 1] == c
    ensures forall j :: i <= j < |s| ==> s[j] != c
  {
    if s == "" then 0
    else if s[|s| - 1] == c then |s|
    else LastOf(s[..|s| - 1], c)
  }

  lemma LastOfIsLast(s: string, c: char, i: nat)
    requires i < |s| && s[i] == c && forall j :: i < j < |s| ==> s[j] != c
    ensures LastOf(s, c) == i + 1
  {
    assert LastOf(s, c) != 0;
  }

  lemma LastOfNone(s: string, c: char)
    requires c !in s
    ensures LastOf(s, c) == 0
  {
  }

  /** A last part without `c` after a `c`. */
  lemma LastOfJoin(front: string, c: char, last: string)
    requires c !in last
    ensures var both := front + [c] + last;
            LastOf(both, c) == |front| + 1 && both[..|front|] == front && both[|front| + 1..] == last
  {
    var both := front + [c] + last;
    assert both[|front|] == c;
    assert forall j :: |front| < j < |both| ==> both[j] == last[j - |front| - 1];
    LastOfIsLast(both, c, |front|);
  }

  /** The characters of a buffer up to its first NUL. */
  function Chars(s: seq<char>): string {
    if s == [] || s[0] == '\0' then [] else [s[0]] + Chars(s[1..])
  }

  lemma {:induction false} CharsUpTo(s: seq<char>, n: nat)
    requires n < |s| && s[n] == '\0' && '\0' !in s[..n]
    ensures Chars(s) == s[..n]
  {
    if n > 0 {
      assert s[..n] == [s[0]] + s[1..][..n - 1];
      CharsUpTo(s[1..], n - 1);
    }
  }

  /** What stands behind a NUL does not matter. */
  lemma {:induction false} CharsBefore(s: seq<char>, n: nat)
    requires n < |s| && s[n] == '\0'
    ensures Chars(s) == Chars(s[..n])
  {
    if n > 0 {
      assert s[..n][1..] == s[1..][..n - 1];
      CharsBefore(s[1..], n - 1);
    }
  }

  lemma {:induction false} CharsOfFree(s: seq<char>)
    requires '\0' !in s
    ensures Chars(s) == s
  {
    if s != [] {
      CharsOfFree(s[1..]);
    }
  }

  /** The decimal digits of a number. */
  function Digits(n: nat): (s: string)
    ensures s != "" && forall i :: 0 <= i < |s| ==> '0' <= s[i] <= '9'
  {
    (if n >= 10 then Digits(n / 10) else "") + ["0123456789"[n % 10]]
  }

  predicate IsDigit(c: char) { '0' <= c <= '9' }

  function DigitValue(c: char): nat { if IsDigit(c) then c as int - '0' as int else 0 }

  /** The number that a row of digits stands for. */
  function DecimalValue(s: string): nat {
    if s == "" then 0 else 10 * DecimalValue(s[..|s| - 1]) + DigitValue(s[|s| - 1])
  }

  /** The decimal numeral of `n`, without leading zeros. */
  ghost predicate IsDecimal(s: string, n: int) {
    && s != "" && (forall c :: c in s ==> IsDigit(c)) && DecimalValue(s) == n
    && (|s| > 1 ==> s[0] != '0')
  }

  lemma {:induction false} DigitsAreDecimal(n: nat)
    ensures IsDecimal(Digits(n), n)
  {
    hide IsDecimal, DecimalValue, DigitValue, IsDigit;
    LastDigit(n % 10);
    var last := "0123456789"[n % 10];
    if n >= 10 {
      DigitsAreDecimal(n / 10);
      NoZero(n / 10);
      AppendDigit(Digits(n / 10), n / 10, last);
    } else {
      assert Digits(n) == "" + [last] == [last];
      OneDigit(last);
    }
  }

  lemma LastDigit(d: nat)
    requires d < 10
    ensures IsDigit("0123456789"[d]) && DigitValue("0123456789"[d]) == d
  {
  }

  lemma OneDigit(c: char)
    requires IsDigit(c)
    ensures IsDecimal([c], DigitValue(c))
  {
    assert [c][..0] == "";
  }

  lemma AppendDigit(s: string, n: nat, c: char)
    requires IsDecimal(s, n) && s[0] != '0' && IsDigit(c)
    ensures IsDecimal(s + [c], 10 * n + DigitValue(c))
  {
    hide DigitValue;
    assert (s + [c])[..|s|] == s;
    assert forall d :: d in s + [c] ==> d in s || d == c;
  }

  lemma {:induction false} NoZero(n: nat)
    requires n > 0
    ensures Digits(n)[0] != '0'
  {
    if n >= 10 {
      NoZero(n / 10);
    }
  }
}
