/** USART2 as a transmitter: initialisation (clock enable, the rounded baud
    divisor, transmitter and USART enable) and the character, decimal
    integer and C string writers.  Every character written to DR is
    appended to `out`; the wait for TXE before each write is assumed to end. */
module Uart {
  import opened Common
  import Conversion

  const USART2EN: bv32 := 0x2_0000
  const CR1_TE: bv32 := 0x8
  const CR1_UE: bv32 := 0x2000
  const INT32_MAX: int := 0x7FFF_FFFF

  // ---------------------------------------------------------------------
  // The baud-rate divisor

  /** BRR = (apb1clk + baud/2) / baud, in 32-bit unsigned arithmetic. */
  function Brr(apb1clk: nat, baud: nat): nat
    requires apb1clk < TWO_32 && 0 < baud < TWO_32
  {
    ((apb1clk + baud / 2) % TWO_32) / baud
  }

  /** The distance between a clock and a multiple of the baud rate. */
  function Dist(apb1clk: nat, m: int): nat
  {
    if apb1clk <= m then m - apb1clk else apb1clk - m
  }

  /** Without 32-bit overflow, BRR is apb1clk/baud rounded to the nearest
      integer, halves up: no multiple of the baud rate lies closer to the
      clock than BRR times it, and a tie goes to the larger one. */
  lemma BrrNearest(apb1clk: nat, baud: nat, k: nat)
    requires 0 < baud < TWO_32 && apb1clk + baud / 2 < TWO_32
    ensures Dist(apb1clk, Brr(apb1clk, baud) * baud) <= Dist(apb1clk, k * baud)
    ensures Dist(apb1clk, Brr(apb1clk, baud) * baud) == Dist(apb1clk, k * baud)
            ==> k <= Brr(apb1clk, baud)
  {
    var b := Brr(apb1clk, baud);
    var h := baud / 2;
    assert b == (apb1clk + h) / baud;
    DivBounds(apb1clk + h, baud);
    if k > b {
      MulMono(k, b + 1, baud);
      MulSucc(b, baud);
    } else if k < b {
      MulMono(b, k + 1, baud);
      MulSucc(k, baud);
    }
    Closest(apb1clk, baud, h, b * baud, k * baud);
  }

  /** The quotient times the divisor is within one divisor below the dividend. */
  lemma DivBounds(x: nat, y: nat)
    requires y > 0
    ensures (x / y) * y <= x < (x / y) * y + y
  {
  }

  lemma MulMono(x: nat, y: nat, c: nat)
    requires x >= y
    ensures x * c >= y * c
  {
  }

  lemma MulSucc(x: nat, c: nat)
    ensures (x + 1) * c == x * c + c
  {
  }

  /** A multiple `p` with p <= a + h < p + baud, h half of baud rounded down,
      is no farther from `a` than any other multiple `q`, and strictly
      nearer than any larger one. */
  lemma Closest(a: nat, baud: nat, h: nat, p: nat, q: nat)
    requires 2 * h <= baud <= 2 * h + 1 && p <= a + h < p + baud
    requires q >= p + baud || q + baud <= p || q == p
    ensures Dist(a, p) <= Dist(a, q)
    ensures Dist(a, p) == Dist(a, q) ==> q <= p
  {
  }

  // ---------------------------------------------------------------------
  // Decimal text

  function DigitChar(n: nat): char
    requires n < 10
  {
    ('0' as int + n) as char
  }

  /** The decimal digits of n, most significant first; none for 0. */
  function Digits(n: nat): string
  {
    if n == 0 then [] else Digits(n / 10) + [DigitChar(n % 10)]
  }

  /** The text `uart2_write_int` writes for `num`. */
  function IntText(num: int): string
  {
    if num == 0 then "0"
    else if num < 0 then ['-'] + Digits(-num)
    else Digits(num)
  }

  function Reverse(s: string): string
  {
    if |s| == 0 then [] else Reverse(s[1..]) + [s[0]]
  }

  lemma {:induction false} ReverseSnoc(s: string, c: char)
    ensures Reverse(s + [c]) == [c] + Reverse(s)
    decreases |s|
  {
    if |s| == 0 {
      assert s + [c] == [c];
    } else {
      assert (s + [c])[1..] == s[1..] + [c];
      ReverseSnoc(s[1..], c);
    }
  }

  /** Reversing from one place further to the left adds that character at the end. */
  lemma ReverseFrom(s: string, i: nat, j: nat)
    requires 0 < i <= j <= |s|
    ensures Reverse(s[i - 1..j]) == Reverse(s[i..j]) + [s[i - 1]]
  {
    assert s[i - 1..j][1..] == s[i..j];
  }

  /** Digits of a positive number are digits, the first is not '0', and there
      are at most `k` of them below 10^k. */
  lemma {:induction false} DigitsForm(n: nat)
    ensures Conversion.AllDigits(Digits(n))
    ensures n > 0 ==> |Digits(n)| > 0 && Digits(n)[0] != '0'
    ensures n == 0 <==> Digits(n) == []
    decreases n
  {
    if n > 0 {
      DigitsForm(n / 10);
      if n / 10 == 0 {
        assert Digits(n) == [DigitChar(n)];
      } else {
        assert Digits(n)[0] == Digits(n / 10)[0];
      }
    }
  }

  function Pow10(k: nat): nat
  {
    if k == 0 then 1 else 10 * Pow10(k - 1)
  }

  /** Below 10^k a number has at most k digits. */
  lemma {:induction false} DigitsLength(n: nat, k: nat)
    requires n < Pow10(k)
    ensures |Digits(n)| <= k
    decreases k
  {
    if n > 0 {
      DigitsLength(n / 10, k - 1);
    }
  }

  /** An int32 magnitude has at most ten digits. */
  lemma Int32Digits(n: nat)
    requires n <= INT32_MAX
    ensures |Digits(n)| <= 10
  {
    assert Pow10(2) == 100;
    assert Pow10(4) == 10_000 by { assert Pow10(3) == 1000; }
    assert Pow10(6) == 1_000_000 by { assert Pow10(5) == 100_000; }
    assert Pow10(8) == 100_000_000 by { assert Pow10(7) == 10_000_000; }
    assert Pow10(10) == 10_000_000_000 by { assert Pow10(9) == 1_000_000_000; }
    DigitsLength(n, 10);
  }

  /** One more digit into the buffer, least significant first. */
  lemma FillStep(m: nat, n: nat, before: string)
    requires n > 0 && Digits(m) == Digits(n) + Reverse(before)
    ensures Digits(m) == Digits(n / 10) + Reverse(before + [DigitChar(n % 10)])
  {
    var c := DigitChar(n % 10);
    assert Digits(n) == Digits(n / 10) + [c];
    ReverseSnoc(before, c);
    AppendAssoc(Digits(n / 10), [c], Reverse(before));
  }

  /** Reading the digits back gives the number. */
  lemma {:induction false} DigitsValue(n: nat)
    ensures Conversion.Decimal(Digits(n)) == n
    decreases n
  {
    if n > 0 {
      DigitsValue(n / 10);
      var d := Digits(n);
      assert d[..|d| - 1] == Digits(n / 10);
    }
  }

  /** Round trip: `str_to_int` reads back every number `uart2_write_int`
      writes. */
  lemma IntTextParses(num: int)
    requires -INT32_MAX <= num <= INT32_MAX
    ensures Conversion.StrToIntValue(IntText(num)) == num
  {
    if num == 0 {
      assert Conversion.DigitsRead("0") == "0";
    } else {
      var n := if num < 0 then -num else num;
      DigitsForm(n);
      DigitsValue(n);
      var d := Digits(n);
      assert d + [] == d;
      Conversion.DigitsThen(d, []);
      if num < 0 {
        Conversion.SignedDigits(d, []);
        assert IntText(num) == ['-'] + (d + []);
      }
    }
  }

  /** The text of a nonzero number is its digits behind a '-' when it is
      negative, with no leading zero; 0 is the single digit "0". */
  lemma IntTextForm(num: int)
    ensures num == 0 ==> IntText(num) == "0"
    ensures num > 0 ==> Conversion.AllDigits(IntText(num)) && IntText(num)[0] != '0'
    ensures num < 0 ==> IntText(num)[0] == '-' && IntText(num)[1..] == IntText(-num)
  {
    if num > 0 {
      DigitsForm(num);
    } else if num < 0 {
      DigitsForm(-num);
    }
  }

  /** The characters of a C string before its first NUL. */
  function CString(s: string): string
  {
    if |s| == 0 || s[0] == '\0' then [] else [s[0]] + CString(s[1..])
  }

  /** A string with no NUL, then a NUL: the C string is exactly that text. */
  lemma {:induction false} CStringOf(t: string, u: string)
    requires forall k :: 0 <= k < |t| ==> t[k] != '\0'
    ensures CString(t + ['\0'] + u) == t
    decreases |t|
  {
    if |t| > 0 {
      assert (t + ['\0'] + u)[1..] == t[1..] + ['\0'] + u;
      CStringOf(t[1..], u);
    } else {
      assert (t + ['\0'] + u)[0] == '\0';
    }
  }

  class Usart2 {
    /** RCC_APB1ENR, where USART2 has its clock enable bit. */
    var apb1enr: bv32
    var brr: nat
    var cr1: bv32
    /** Every character written to DR, in order. */
    var out: string

    constructor ()
      ensures apb1enr == 0 && brr == 0 && cr1 == 0 && out == []
    {
      apb1enr := 0;
      brr := 0;
      cr1 := 0;
      out := [];
    }

    /** `uart2_init`; `apb1clk` is the value `hal_clock_get_apb1clk` returns. */
    method Init(baud: nat, apb1clk: nat)
      requires apb1clk < TWO_32 && 0 < baud < TWO_32
      modifies this
      ensures apb1enr == old(apb1enr) | USART2EN
      ensures brr == Brr(apb1clk, baud)
      ensures cr1 == CR1_TE | CR1_UE
      ensures out == old(out)
    {
      apb1enr := apb1enr | USART2EN;
      brr := ((apb1clk + baud / 2) % TWO_32) / baud;
      cr1 := CR1_TE;
      cr1 := cr1 | CR1_UE;
    }

    /** `uart2_write_char`. */
    method WriteChar(c: char)
      modifies this`out
      ensures out == old(out) + [c]
    {
      out := out + [c];
    }

    /** `uart2_write_int`: '0' for zero; otherwise a '-' for a negative
        number, then the digits of its magnitude.  INT32_MIN is outside the
        domain: negating it overflows. */
    method WriteInt(num: int)
      requires -INT32_MAX <= num <= INT32_MAX
      modifies this`out
      ensures out == old(out) + IntText(num)
    {
      if num == 0 {
        WriteChar('0');
        return;
      }
      var n := num;
      if n < 0 {
        WriteChar('-');
        n := -n;
      }
      WriteDigits(n);
      if num < 0 {
        AppendAssoc(old(out), "-", Digits(n));
      }
    }

    /** The digit loops of `uart2_write_int`: the digits are produced least
        significant first into a 12-character buffer and written back to
        front. */
    method WriteDigits(n: nat)
      requires n <= INT32_MAX
      modifies this`out
      ensures out == old(out) + Digits(n)
    {
      var buf, top := FillDigits(n);
      WriteBackwards(buf, top);
    }

    /** The first loop: the digits of `n`, least significant first. */
    static method FillDigits(n: nat) returns (buf: array<char>, top: nat)
      requires n <= INT32_MAX
      ensures fresh(buf) && buf.Length == 12 && top <= 12
      ensures Reverse(buf[..top]) == Digits(n)
    {
      var k := n;
      DigitsForm(n);
      Int32Digits(n);
      buf := new char[12];
      top := 0;
      while k > 0
        invariant 0 <= k <= n && top + |Digits(k)| == |Digits(n)|
        invariant Digits(n) == Digits(k) + Reverse(buf[..top])
        decreases k
      {
        ghost var before := buf[..top];
        buf[top] := DigitChar(k % 10);
        assert buf[..top + 1] == before + [DigitChar(k % 10)];
        FillStep(n, k, before);
        k := k / 10;
        top := top + 1;
      }
    }

    /** The second loop: buf[top-1], ..., buf[0]. */
    method WriteBackwards(buf: array<char>, top: nat)
      requires top <= buf.Length
      modifies this`out
      ensures out == old(out) + Reverse(buf[..top])
    {
      var i := top;
      assert buf[top..top] == [];
      while i > 0
        invariant 0 <= i <= top
        invariant out == old(out) + Reverse(buf[i..top])
        decreases i
      {
        i := i - 1;
        ReverseFrom(buf[..], i + 1, top);
        WriteChar(buf[i]);
      }
      assert buf[..top] == buf[0..top];
    }

    /** `uart2_write_string`: the characters up to the first NUL; the
        string must hold one. */
    method WriteString(s: string)
      requires '\0' in s
      modifies this`out
      ensures out == old(out) + CString(s)
    {
      var i := 0;
      while s[i] != '\0'
        invariant i < |s| && '\0' in s[i..]
        invariant old(out) + CString(s) == out + CString(s[i..])
        decreases |s| - i
      {
        assert s[i..][1..] == s[i + 1..];
        WriteChar(s[i]);
        i := i + 1;
      }
    }
  }
}
