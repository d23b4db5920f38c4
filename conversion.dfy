/** The string to integer parser `str_to_int`.

    A C string is the `string` of its characters before the terminating NUL;
    the parser's scans stop at the end of it, as they stop at the NUL, which
    is neither blank, sign nor digit. */
module Conversion {

  const INT32_MAX: int := 0x7FFF_FFFF

  /** The two characters the parser skips before the number. */
  predicate IsBlank(c: char)
  {
    c == ' ' || c == '\t'
  }

  predicate IsDigit(c: char)
  {
    '0' <= c <= '9'
  }

  function DigitValue(c: char): int
  {
    c as int - '0' as int
  }

  predicate AllDigits(d: string)
  {
    forall k :: 0 <= k < |d| ==> IsDigit(d[k])
  }

  /** What is left once the leading blanks are skipped. */
  function SkipBlanks(s: string): string
  {
    if |s| > 0 && IsBlank(s[0]) then SkipBlanks(s[1..]) else s
  }

  /** What is left once at most one sign character is skipped. */
  function SkipSign(s: string): string
  {
    if |s| > 0 && (s[0] == '-' || s[0] == '+') then s[1..] else s
  }

  /** The run of digits `s` starts with. */
  function DigitRun(s: string): string
  {
    if |s| > 0 && IsDigit(s[0]) then [s[0]] + DigitRun(s[1..]) else []
  }

  /** The decimal value of a digit string, read most significant first. */
  function Decimal(d: string): int
  {
    if |d| == 0 then 0 else Decimal(d[..|d| - 1]) * 10 + DigitValue(d[|d| - 1])
  }

  /** -1 when the first non-blank character is '-', else 1. */
  function Sign(s: string): int
  {
    var t := SkipBlanks(s);
    if |t| > 0 && t[0] == '-' then -1 else 1
  }

  /** The digits the parser reads: the run after the blanks and the sign. */
  function DigitsRead(s: string): string
  {
    DigitRun(SkipSign(SkipBlanks(s)))
  }

  /** The value `str_to_int` computes: the sign times the decimal value of
      the digits it reads. */
  function StrToIntValue(s: string): int
  {
    Sign(s) * Decimal(DigitsRead(s))
  }

  // ---------------------------------------------------------------------
  // The loop

  lemma {:induction false} DigitRunDigits(s: string)
    ensures AllDigits(DigitRun(s)) && |DigitRun(s)| <= |s|
    decreases |s|
  {
    if |s| > 0 && IsDigit(s[0]) {
      DigitRunDigits(s[1..]);
    }
  }

  lemma {:induction false} DecimalNonNeg(d: string)
    requires AllDigits(d)
    ensures 0 <= Decimal(d)
    decreases |d|
  {
    if |d| > 0 {
      DecimalNonNeg(d[..|d| - 1]);
    }
  }

  /** A digit string is never worth less than its prefixes: the bound on the
      whole run bounds every value the accumulator takes. */
  lemma {:induction false} DecimalPrefix(d: string, n: nat)
    requires AllDigits(d) && n <= |d|
    ensures 0 <= Decimal(d[..n]) <= Decimal(d)
    decreases |d|
  {
    if n < |d| {
      assert d[..|d| - 1][..n] == d[..n];
      DecimalPrefix(d[..|d| - 1], n);
    } else {
      assert d[..n] == d;
      DecimalNonNeg(d);
    }
  }

  /** The digit run ends exactly at the first non-digit, and it is made of
      the string's own characters. */
  lemma {:induction false} DigitRunAt(s: string, k: nat)
    requires k <= |DigitRun(s)|
    ensures k < |DigitRun(s)| <==> k < |s| && IsDigit(s[k])
    ensures k < |DigitRun(s)| ==> DigitRun(s)[k] == s[k]
    decreases k
  {
    if k > 0 {
      assert |s| > 0 && IsDigit(s[0]) && DigitRun(s) == [s[0]] + DigitRun(s[1..]);
      DigitRunAt(s[1..], k - 1);
      if k < |s| {
        assert s[1..][k - 1] == s[k];
      }
    }
  }

  /** One more digit: the accumulator's rule computes the value of the
      longer prefix, which the whole run bounds. */
  lemma DecimalStep(d: string, k: nat)
    requires AllDigits(d) && k < |d|
    ensures Decimal(d[..k + 1]) == Decimal(d[..k]) * 10 + DigitValue(d[k])
    ensures 0 <= Decimal(d[..k + 1]) <= Decimal(d)
  {
    assert d[..k + 1][..k] == d[..k];
    DecimalPrefix(d, k + 1);
  }

  /** After the blanks and the sign: where the digits start, and the sign. */
  lemma SignStep(s: string, i: nat)
    requires i <= |s| && SkipBlanks(s[i..]) == SkipBlanks(s)
    requires i == |s| || !IsBlank(s[i])
    ensures SkipBlanks(s) == s[i..]
    ensures i < |s| && (s[i] == '-' || s[i] == '+') ==> s[i + 1..] == SkipSign(SkipBlanks(s))
    ensures !(i < |s| && (s[i] == '-' || s[i] == '+')) ==> s[i..] == SkipSign(SkipBlanks(s))
    ensures Sign(s) == if i < |s| && s[i] == '-' then -1 else 1
  {
    if i < |s| {
      assert s[i..][1..] == s[i + 1..];
    }
  }

  /** `str_to_int`: skip blanks, take one optional sign, accumulate digits
      left to right.  The C accumulator is an int32 with no overflow check,
      so the value of the digit run must fit in int32. */
  method StrToInt(s: string) returns (r: int)
    requires Decimal(DigitsRead(s)) <= INT32_MAX
    ensures r == StrToIntValue(s)
    ensures -INT32_MAX <= r <= INT32_MAX
  {
    var sign := 1;
    var i := SkipBlankChars(s);
    SignStep(s, i);
    if i < |s| && s[i] == '-' {
      sign := -1;
      i := i + 1;
    } else if i < |s| && s[i] == '+' {
      i := i + 1;
    }
    assert DigitRun(s[i..]) == DigitsRead(s);
    var result := ReadDigits(s, i);
    if sign == -1 {
      assert sign * result == -result;
    } else {
      assert sign * result == result;
    }
    r := sign * result;
  }

  /** The first loop of `str_to_int`: the index of the first character
      that is not a blank. */
  method SkipBlankChars(s: string) returns (i: nat)
    ensures i <= |s| && SkipBlanks(s[i..]) == SkipBlanks(s)
    ensures i == |s| || !IsBlank(s[i])
  {
    i := 0;
    while i < |s| && IsBlank(s[i])
      invariant i <= |s| && SkipBlanks(s[i..]) == SkipBlanks(s)
      decreases |s| - i
    {
      assert s[i..][1..] == s[i + 1..];
      i := i + 1;
    }
  }

  /** The second loop of `str_to_int`: the accumulator over the digit run
      from `q` on, whose value must fit in int32. */
  method ReadDigits(s: string, q: nat) returns (result: int)
    requires q <= |s| && Decimal(DigitRun(s[q..])) <= INT32_MAX
    ensures result == Decimal(DigitRun(s[q..]))
    ensures 0 <= result <= INT32_MAX
  {
    ghost var t := s[q..];
    ghost var d := DigitRun(t);
    DigitRunDigits(t);
    assert d[..0] == [];
    result := 0;
    var i := q;
    while i < |s| && IsDigit(s[i])
      invariant q <= i <= q + |d|
      invariant result == Decimal(d[..i - q])
      invariant 0 <= result <= INT32_MAX
      decreases |s| - i
    {
      assert t[i - q] == s[i];
      DigitRunAt(t, i - q);
      DecimalStep(d, i - q);
      result := result * 10 + DigitValue(s[i]);
      i := i + 1;
    }
    assert i == |s| || t[i - q] == s[i];
    DigitRunAt(t, i - q);
    assert d[..i - q] == d;
  }

  // ---------------------------------------------------------------------
  // What the parser reads

  /** Only ' ' and '\t' are skipped: blanks in front change nothing. */
  lemma {:induction false} BlanksSkipped(b: string, t: string)
    requires forall k :: 0 <= k < |b| ==> IsBlank(b[k])
    ensures SkipBlanks(b + t) == SkipBlanks(t)
    ensures StrToIntValue(b + t) == StrToIntValue(t)
    decreases |b|
  {
    if |b| > 0 {
      var s := b + t;
      assert s[0] == b[0] && IsBlank(s[0]);
      assert s[1..] == b[1..] + t;
      assert SkipBlanks(s) == SkipBlanks(s[1..]);
      BlanksSkipped(b[1..], t);
    } else {
      assert b + t == t;
    }
  }

  /** A first character that is none of blank, sign or digit (a newline,
      say) stops the parser at once: the result is 0. */
  lemma OtherFirstIsZero(s: string)
    requires |s| > 0 && !IsBlank(s[0]) && !IsDigit(s[0]) && s[0] != '-' && s[0] != '+'
    ensures DigitsRead(s) == [] && StrToIntValue(s) == 0
  {
  }

  /** A digit run stops at the first non-digit: what follows is not read. */
  lemma {:induction false} DigitRunStops(d: string, u: string)
    requires AllDigits(d) && (|u| == 0 || !IsDigit(u[0]))
    ensures DigitRun(d + u) == d
    decreases |d|
  {
    if |d| > 0 {
      assert (d + u)[1..] == d[1..] + u;
      DigitRunStops(d[1..], u);
    }
  }

  /** Where the string starts with a digit, a '-' or a '+': the value is
      read from there on. */
  lemma FirstCharacter(s: string)
    requires |s| > 0
    ensures IsDigit(s[0]) ==> StrToIntValue(s) == Decimal(DigitRun(s))
    ensures s[0] == '-' ==> StrToIntValue(s) == -Decimal(DigitRun(s[1..]))
    ensures s[0] == '+' ==> StrToIntValue(s) == Decimal(DigitRun(s[1..]))
  {
    if IsDigit(s[0]) || s[0] == '-' || s[0] == '+' {
      assert !IsBlank(s[0]);
      assert SkipBlanks(s) == s;
    }
  }

  /** Digits, then anything that does not start with a digit: the value is
      the digits' value; what follows them is not read. */
  lemma DigitsThen(d: string, u: string)
    requires |d| > 0 && AllDigits(d) && (|u| == 0 || !IsDigit(u[0]))
    ensures StrToIntValue(d + u) == Decimal(d)
  {
    DigitRunStops(d, u);
    assert (d + u)[0] == d[0];
    FirstCharacter(d + u);
  }

  /** One sign character in front of the digits: '-' negates the value and
      '+' keeps it. */
  lemma SignedDigits(d: string, u: string)
    requires |d| > 0 && AllDigits(d) && (|u| == 0 || !IsDigit(u[0]))
    ensures StrToIntValue(['-'] + (d + u)) == -Decimal(d)
    ensures StrToIntValue(['+'] + (d + u)) == Decimal(d)
  {
    DigitRunStops(d, u);
    var m := ['-'] + (d + u);
    assert m[0] == '-' && m[1..] == d + u;
    FirstCharacter(m);
    var p := ['+'] + (d + u);
    assert p[0] == '+' && p[1..] == d + u;
    FirstCharacter(p);
  }

  /** At most one sign is taken: a second one leaves no digit to read. */
  lemma TwoSigns(c: char, s: string)
    requires c == '-' || c == '+'
    requires |s| > 0 && (s[0] == '-' || s[0] == '+')
    ensures StrToIntValue([c] + s) == 0
  {
    var m := [c] + s;
    assert m[0] == c && m[1..] == s;
    FirstCharacter(m);
  }

  /** The magnitude of the result is the value of the digits read; with no
      digit read it is 0. */
  lemma ResultMagnitude(s: string)
    ensures StrToIntValue(s) == Decimal(DigitsRead(s)) || StrToIntValue(s) == -Decimal(DigitsRead(s))
    ensures DigitsRead(s) == [] ==> StrToIntValue(s) == 0
    ensures 0 <= Decimal(DigitsRead(s))
  {
    DigitRunDigits(SkipSign(SkipBlanks(s)));
    DecimalNonNeg(DigitsRead(s));
  }
}
