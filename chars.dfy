/**
 * Character classes and conversions that Python's `str` methods provide
 * (`isalpha`, `isalnum`, `upper`, `str(int)`).  Python applies the full
 * Unicode database; this model covers ASCII and Latin-1 (U+0000..U+00FF),
 * the range the plate alphabet and file names live in.
 */
module Chars {

  predicate IsAsciiUpper(c: char) { 'A' <= c <= 'Z' }

  predicate IsAsciiLower(c: char) { 'a' <= c <= 'z' }

  predicate IsAsciiLetter(c: char) { IsAsciiUpper(c) || IsAsciiLower(c) }

  predicate IsAsciiDigit(c: char) { '0' <= c <= '9' }

  /** `c.isalpha()` on Latin-1: ASCII letters, the ordinal indicators, the
      micro sign and the accented letters except the signs U+00D7 and U+00F7. */
  predicate IsAlpha(c: char) {
    || IsAsciiLetter(c)
    || c == 'ª' || c == 'µ' || c == 'º'
    || ('À' <= c <= 'ÿ' && c != '×' && c != '÷')
  }

  /** `c.isalnum()` on Latin-1: letters, decimal digits, the superscripts
      one to three and the vulgar fractions, which Python counts as numeric. */
  predicate IsAlnum(c: char) {
    || IsAlpha(c)
    || IsAsciiDigit(c)
    || c == '²' || c == '³' || c == '¹'
    || c == '¼' || c == '½' || c == '¾'
  }

  /** `c.upper()` on Latin-1.  The result is a string because the sharp s
      upper-cases to two letters. */
  function UpperChar(c: char): (r: string)
    ensures 1 <= |r| <= 2
  {
    if IsAsciiLower(c) then [(c as int - 32) as char]
    else if c == 'ß' then "SS"
    else if c == 'µ' then "Μ"
    else if c == 'ÿ' then "Ÿ"
    else if 'à' <= c <= 'þ' && c != '÷' then [(c as int - 32) as char]
    else [c]
  }

  /** `s.upper()`: every character upper-cased in place. */
  function Upper(s: string): (r: string)
    ensures |r| >= |s|
  {
    if s == [] then [] else Upper(s[..|s| - 1]) + UpperChar(s[|s| - 1])
  }

  predicate CapitalsAndDigits(s: string) {
    forall i :: 0 <= i < |s| ==> IsAsciiUpper(s[i]) || IsAsciiDigit(s[i])
  }

  /** Upper-casing leaves capitals and digits alone. */
  lemma {:induction false} UpperKeepsCapitalsAndDigits(s: string)
    requires CapitalsAndDigits(s)
    ensures Upper(s) == s
  {
    if s != [] {
      UpperKeepsCapitalsAndDigits(s[..|s| - 1]);
      assert s == s[..|s| - 1] + [s[|s| - 1]];
    }
  }

  function DigitChar(d: nat): char
    requires d < 10
  {
    ('0' as int + d) as char
  }

  /** Decimal digits of a natural number, most significant first. */
  function NatToString(n: nat): (r: string)
    ensures |r| >= 1
    ensures forall i :: 0 <= i < |r| ==> IsAsciiDigit(r[i])
  {
    if n < 10 then [DigitChar(n)] else NatToString(n / 10) + [DigitChar(n % 10)]
  }

  /** `str(n)` for a Python int. */
  function IntToString(n: int): (r: string)
    ensures |r| >= 1
    ensures (n < 0) == (r[0] == '-')
  {
    if n < 0 then "-" + NatToString(-n) else NatToString(n)
  }

  /** `s.startswith(prefix)` */
  predicate StartsWith(s: string, prefix: string) {
    |prefix| <= |s| && s[..|prefix|] == prefix
  }

  /** `s.endswith(suffix)` */
  predicate EndsWith(s: string, suffix: string) {
    |suffix| <= |s| && s[|s| - |suffix|..] == suffix
  }
}
