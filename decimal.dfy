/** Decimal notation of natural numbers and the digit sum that reduce_number
    computes as `sum([int(i) for i in str(num)])`. */
module Decimal {

  predicate IsDigitChar(c: char) {
    '0' <= c <= '9'
  }

  predicate IsDigitString(s: string) {
    forall i :: 0 <= i < |s| ==> IsDigitChar(s[i])
  }

  /** The character that `str` writes for one decimal digit. */
  function DigitChar(d: nat): (c: char)
    requires d < 10
    ensures IsDigitChar(c)
    ensures DigitValue(c) == d
  {
    ('0' as int + d) as char
  }

  /** Python's `int(c)` on a single digit character. */
  function DigitValue(c: char): (d: nat)
    requires IsDigitChar(c)
    ensures d < 10
    ensures ('0' as int + d) as char == c
  {
    c as int - '0' as int
  }

  /** Python's `str(n)` for a non-negative integer: most significant digit
      first, no sign and no leading zero. */
  function DecimalString(n: nat): (s: string)
    ensures |s| >= 1 && IsDigitString(s)
    ensures (s[0] == '0') == (n == 0)
    ensures s[0] == '0' ==> |s| == 1
    ensures (|s| == 1) == (n < 10)
    decreases n
  {
    if n < 10 then [DigitChar(n)] else DecimalString(n / 10) + [DigitChar(n % 10)]
  }

  /** Reads a string of digits back as a number (the inverse of DecimalString). */
  function ParseDecimal(s: string): nat
    requires IsDigitString(s)
    decreases |s|
  {
    if s == [] then 0 else ParseDecimal(s[..|s| - 1]) * 10 + DigitValue(s[|s| - 1])
  }

  /** `sum([int(i) for i in s])` for a string of digits. */
  function SumOfDigitChars(s: string): (r: nat)
    requires IsDigitString(s)
    ensures r <= 9 * |s|
    ensures r == 0 <==> forall i :: 0 <= i < |s| ==> s[i] == '0'
    decreases |s|
  {
    if s == [] then 0 else SumOfDigitChars(s[..|s| - 1]) + DigitValue(s[|s| - 1])
  }

  /** The sum of the decimal digits of n. It never exceeds n, is strictly
      smaller once n has two or more digits, is zero only for zero, and keeps
      n's remainder modulo 9 (the reason digit reduction is a "digital root"). */
  function DigitSum(n: nat): (r: nat)
    ensures r <= n
    ensures n >= 10 ==> r < n
    ensures (r == 0) == (n == 0)
    ensures r % 9 == n % 9
    decreases n
  {
    if n < 10 then n
    else
      var q, d := n / 10, n % 10;
      // The residue step spelled out, so the modulo-9 postcondition does not
      // depend on the solver's nonlinear heuristics (it is seed-sensitive without).
      NinesVanish(q + d, q);
      assert n == (q + d) + 9 * q;
      SameResidueAfterAdding(DigitSum(q), q, d);
      DigitSum(q) + d
  }

  /** Adding a multiple of 9 keeps the remainder modulo 9. */
  lemma NinesVanish(a: nat, k: nat)
    ensures (a + 9 * k) % 9 == a % 9
  {
    var r := a % 9;
    assert a == 9 * (a / 9) + r;
    assert a + 9 * k == 9 * (a / 9 + k) + r;
  }

  /** Numbers with the same remainder modulo 9 keep it after adding d. */
  lemma SameResidueAfterAdding(x: nat, y: nat, d: nat)
    requires x % 9 == y % 9
    ensures (x + d) % 9 == (y + d) % 9
  {
    assert x == 9 * (x / 9) + x % 9;
    assert y == 9 * (y / 9) + y % 9;
    NinesVanish(x % 9 + d, x / 9);
    NinesVanish(y % 9 + d, y / 9);
  }

  /** DecimalString and ParseDecimal are inverse: `str` loses nothing. */
  lemma {:induction false} ParseDecimalString(n: nat)
    ensures ParseDecimal(DecimalString(n)) == n
    decreases n
  {
    var s := DecimalString(n);
    if n >= 10 {
      ParseDecimalString(n / 10);
      assert s[..|s| - 1] == DecimalString(n / 10);
    }
  }

  /** DigitSum is exactly what the source computes: the sum of the digit
      characters of `str(n)`. */
  lemma {:induction false} DigitSumOfDecimalString(n: nat)
    ensures SumOfDigitChars(DecimalString(n)) == DigitSum(n)
    decreases n
  {
    var s := DecimalString(n);
    if n >= 10 {
      DigitSumOfDecimalString(n / 10);
      assert s[..|s| - 1] == DecimalString(n / 10);
    } else {
      assert s[..0] == [];
    }
  }
}
