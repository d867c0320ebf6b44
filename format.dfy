/** What the C library's formatted output does for the two conversions the core uses:
    `%d`/`%i` of an int, written in decimal, and the truncation `snprintf` applies for a
    buffer of `size` bytes. A parser for decimal digits is the partner of the formatter. */
module Format {
  import opened Wrappers

  /** A C `int`. */
  type int32 = x: int | -0x8000_0000 <= x < 0x8000_0000

  predicate IsDigit(c: char) {
    '0' <= c <= '9'
  }

  predicate AllDigits(s: string) {
    forall i :: 0 <= i < |s| ==> IsDigit(s[i])
  }

  function DigitChar(d: nat): (c: char)
    requires d < 10
    ensures IsDigit(c)
    ensures c as int - '0' as int == d
  {
    ('0' as int + d) as char
  }

  /** The digits that `%d` writes for a non-negative value: most significant first,
      no leading zero (zero itself is "0"). */
  function DecimalDigits(n: nat): (s: string)
    ensures |s| >= 1 && AllDigits(s)
    ensures |s| > 1 ==> s[0] != '0'
    ensures s[0] == '0' <==> n == 0
    decreases n
  {
    if n < 10 then [DigitChar(n)] else DecimalDigits(n / 10) + [DigitChar(n % 10)]
  }

  /** `%d` / `%i` of any int: a minus sign before the digits of a negative value. */
  function FormatInt(i: int): string {
    if i < 0 then "-" + DecimalDigits(-i) else DecimalDigits(i)
  }

  /** The value of a run of decimal digits (the empty run reads as zero). */
  function ParseDigits(s: string): nat
    requires AllDigits(s)
  {
    if s == [] then 0 else ParseDigits(s[..|s| - 1]) * 10 + (s[|s| - 1] as int - '0' as int)
  }

  /** Reading back what `%d` wrote for a non-negative value gives that value. */
  lemma {:induction false} ParseDecimalDigits(n: nat)
    ensures ParseDigits(DecimalDigits(n)) == n
  {
    if n >= 10 {
      var s := DecimalDigits(n);
      assert s[..|s| - 1] == DecimalDigits(n / 10);
      ParseDecimalDigits(n / 10);
    }
  }

  /** Distinct values are formatted differently. */
  lemma DecimalDigitsInjective(m: nat, n: nat)
    requires DecimalDigits(m) == DecimalDigits(n)
    ensures m == n
  {
    ParseDecimalDigits(m);
    ParseDecimalDigits(n);
  }

  function Pow10(d: nat): nat {
    if d == 0 then 1 else 10 * Pow10(d - 1)
  }

  /** A value below 10^d takes at most d digits. */
  lemma {:induction false} DecimalDigitsLength(n: nat, d: nat)
    requires d >= 1 && n < Pow10(d)
    ensures |DecimalDigits(n)| <= d
  {
    if n >= 10 {
      assert d >= 2;
      assert n / 10 < Pow10(d - 1);
      DecimalDigitsLength(n / 10, d - 1);
    }
  }

  /** What `snprintf(buf, size, ...)` leaves in `buf` when the full output is `text`:
      nothing at all for a size of zero, otherwise at most `size - 1` characters (the
      last byte is the terminating NUL). A negative int size converts to a huge `size_t`,
      which truncates nothing. */
  function Snprintf(text: string, size: int): (r: Option<string>)
    ensures r.None? <==> size == 0
    ensures r.Some? ==> r.value <= text
    ensures r.Some? && size > 0 ==> |r.value| < size
    ensures r.Some? && 0 < size <= |text| ==> |r.value| == size - 1
    ensures r.Some? && (size < 0 || |text| < size) ==> r.value == text
  {
    if size == 0 then None
    else if size < 0 || |text| < size then Some(text)
    else Some(text[..size - 1])
  }
}
