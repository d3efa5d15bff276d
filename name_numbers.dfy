/** letter_to_number and the three name calculators: Expression (all
    letters), Soul Urge (vowels) and Personality (consonants). Names are
    restricted to ASCII characters. */
module NameNumbers {
  import opened Reduction

  predicate IsAscii(c: char) {
    c as int < 128
  }

  predicate IsAsciiString(s: string) {
    forall i :: 0 <= i < |s| ==> IsAscii(s[i])
  }

  /** Python's `str.isalpha` on an ASCII character. */
  predicate IsAlpha(c: char)
    ensures IsAlpha(c) ==> IsAscii(c)
  {
    'a' <= c <= 'z' || 'A' <= c <= 'Z'
  }

  /** Python's `str.lower` on an ASCII character. */
  function Lower(c: char): (l: char)
    requires IsAscii(c)
    ensures IsAscii(l) && IsAlpha(l) == IsAlpha(c)
    ensures !('A' <= l <= 'Z')
    ensures 'a' <= c <= 'z' || !IsAlpha(c) ==> l == c
    ensures 'A' <= c <= 'Z' ==> l as int == c as int + 32
  {
    if 'A' <= c <= 'Z' then (c as int + 32) as char else c
  }

  /** `c.lower() in "aeiou"`: y is not a vowel. */
  predicate IsVowel(c: char)
    requires IsAscii(c)
    ensures IsVowel(c) <==> c in "aeiouAEIOU"
    ensures IsVowel(c) ==> IsAlpha(c)
  {
    Lower(c) in "aeiou"
  }

  /** letter_to_number: `ord(c.lower()) - 96`. On ASCII it lands in 1..26
      exactly for the letters, and there it is the position in the alphabet
      whatever the case. */
  function LetterToNumber(c: char): (v: int)
    requires IsAscii(c)
    ensures IsAlpha(c) <==> 1 <= v <= 26
    ensures 'a' <= c <= 'z' ==> v == c as int - 'a' as int + 1
    ensures 'A' <= c <= 'Z' ==> v == c as int - 'A' as int + 1
  {
    Lower(c) as int - 96
  }

  /** The three filters of the name calculators. */
  datatype Selection = AllLetters | VowelsOnly | ConsonantsOnly

  /** Whether a calculator's comprehension keeps character c. The Soul Urge
      filter tests only `c.lower() in vowels`, with no `isalpha`. */
  predicate Keeps(sel: Selection, c: char)
    requires IsAscii(c)
    ensures Keeps(sel, c) ==> IsAlpha(c) && 1 <= LetterToNumber(c) <= 26
  {
    match sel
    case AllLetters => IsAlpha(c)
    case VowelsOnly => IsVowel(c)
    case ConsonantsOnly => IsAlpha(c) && !IsVowel(c)
  }

  /** Every kept character is a letter, and each letter is kept by exactly
      one of the vowel and consonant filters. */
  lemma SelectionsPartitionLetters(c: char)
    requires IsAscii(c)
    ensures Keeps(VowelsOnly, c) ==> IsAlpha(c)
    ensures Keeps(AllLetters, c) <==> Keeps(VowelsOnly, c) || Keeps(ConsonantsOnly, c)
    ensures !(Keeps(VowelsOnly, c) && Keeps(ConsonantsOnly, c))
    ensures Keeps(ConsonantsOnly, 'y') && Keeps(ConsonantsOnly, 'Y') && !Keeps(VowelsOnly, 'y')
  {
  }

  /** `sum([letter_to_number(c) for c in name if keep(c)])`. The total is
      zero exactly when the filter keeps nothing, and each kept character
      adds between 1 and 26. */
  function Total(name: string, sel: Selection): (t: nat)
    requires IsAsciiString(name)
    ensures t == 0 <==> forall i :: 0 <= i < |name| ==> !Keeps(sel, name[i])
    ensures t <= 26 * |name|
    decreases |name|
  {
    if name == [] then 0
    else
      SelectionsPartitionLetters(name[0]);
      (if Keeps(sel, name[0]) then LetterToNumber(name[0]) else 0) + Total(name[1..], sel)
  }

  /** calculate_expression_number: zero exactly when the name has no letter. */
  function ExpressionNumber(name: string): (r: nat)
    requires IsAsciiString(name)
    ensures IsReduced(r)
    ensures r == 0 <==> forall i :: 0 <= i < |name| ==> !IsAlpha(name[i])
    ensures r % 9 == Total(name, AllLetters) % 9
  {
    Reduce(Total(name, AllLetters))
  }

  /** calculate_soul_urge_number: zero exactly when the name has no vowel. */
  function SoulUrgeNumber(name: string): (r: nat)
    requires IsAsciiString(name)
    ensures IsReduced(r)
    ensures r == 0 <==> forall i :: 0 <= i < |name| ==> !IsVowel(name[i])
    ensures r % 9 == Total(name, VowelsOnly) % 9
  {
    Reduce(Total(name, VowelsOnly))
  }

  /** calculate_personality_number: zero exactly when the name has no
      consonant (y included). */
  function PersonalityNumber(name: string): (r: nat)
    requires IsAsciiString(name)
    ensures IsReduced(r)
    ensures r == 0 <==> forall i :: 0 <= i < |name| ==> !(IsAlpha(name[i]) && !IsVowel(name[i]))
    ensures r % 9 == Total(name, ConsonantsOnly) % 9
  {
    Reduce(Total(name, ConsonantsOnly))
  }

  /** Before reduction, the Expression total is the Soul Urge total plus the
      Personality total. */
  lemma {:induction false} ExpressionTotalSplits(name: string)
    requires IsAsciiString(name)
    ensures Total(name, AllLetters) == Total(name, VowelsOnly) + Total(name, ConsonantsOnly)
    decreases |name|
  {
    if name != [] {
      SelectionsPartitionLetters(name[0]);
      ExpressionTotalSplits(name[1..]);
    }
  }

  /** A total over a concatenation is the sum of the totals. */
  lemma {:induction false} TotalAppend(a: string, b: string, sel: Selection)
    requires IsAsciiString(a) && IsAsciiString(b)
    ensures IsAsciiString(a + b)
    ensures Total(a + b, sel) == Total(a, sel) + Total(b, sel)
    decreases |a|
  {
    if a == [] {
      assert a + b == b;
    } else {
      assert (a + b)[0] == a[0] && (a + b)[1..] == a[1..] + b;
      TotalAppend(a[1..], b, sel);
    }
  }

  /** A space, digit or punctuation mark anywhere in a name changes none of
      the three totals. */
  lemma NonLetterAddsNothing(a: string, c: char, b: string, sel: Selection)
    requires IsAsciiString(a) && IsAscii(c) && IsAsciiString(b)
    requires !IsAlpha(c)
    ensures IsAsciiString(a + [c] + b)
    ensures Total(a + [c] + b, sel) == Total(a + b, sel)
  {
    SelectionsPartitionLetters(c);
    TotalAppend(a, [c], sel);
    TotalAppend(a + [c], b, sel);
    TotalAppend(a, b, sel);
    assert [c][1..] == [];
  }

  /** Lower-cases every character of an ASCII name. The source lower-cases
      one character at a time; this helper only serves to state that the
      calculators are case-insensitive. */
  function LowerString(s: string): (l: string)
    requires IsAsciiString(s)
    ensures |l| == |s| && IsAsciiString(l)
    ensures forall i :: 0 <= i < |s| ==> l[i] == Lower(s[i])
    decreases |s|
  {
    if s == [] then [] else [Lower(s[0])] + LowerString(s[1..])
  }

  /** The calculators are case-insensitive: lower-casing the name changes
      none of the totals. */
  lemma {:induction false} TotalIgnoresCase(name: string, sel: Selection)
    requires IsAsciiString(name)
    ensures Total(LowerString(name), sel) == Total(name, sel)
    decreases |name|
  {
    if name != [] {
      var l := LowerString(name);
      assert l[1..] == LowerString(name[1..]);
      TotalIgnoresCase(name[1..], sel);
    }
  }

  /** One step of the sum: the first character adds its value if kept. */
  lemma TotalCons(c: char, rest: string, sel: Selection)
    requires IsAscii(c) && IsAsciiString(rest)
    ensures IsAsciiString([c] + rest)
    ensures Total([c] + rest, sel) == (if Keeps(sel, c) then LetterToNumber(c) else 0) + Total(rest, sel)
  {
    assert ([c] + rest)[0] == c && ([c] + rest)[1..] == rest;
  }

  /** The letters of "Ann" as the three filters see them. */
  lemma AnnLetters()
    ensures Keeps(AllLetters, 'A') && Keeps(VowelsOnly, 'A') && !Keeps(ConsonantsOnly, 'A')
    ensures Keeps(AllLetters, 'n') && !Keeps(VowelsOnly, 'n') && Keeps(ConsonantsOnly, 'n')
    ensures LetterToNumber('A') == 1 && LetterToNumber('n') == 14
  {
    assert Lower('A') == 'a';
    assert Lower('n') == 'n';
  }

  /** The total of "Ann" under one filter, built one character at a time. */
  lemma AnnTotal(sel: Selection)
    ensures Total("Ann", sel) == (if sel.ConsonantsOnly? then 0 else 1) + (if sel.VowelsOnly? then 0 else 28)
  {
    AnnLetters();
    var n1, n2 := ['n'], ['n', 'n'];
    TotalCons('n', [], sel);
    assert n1 == ['n'] + [];
    TotalCons('n', n1, sel);
    assert n2 == ['n'] + n1;
    TotalCons('A', n2, sel);
    assert "Ann" == ['A'] + n2;
  }

  /** "Ann": a + n + n = 1 + 14 + 14 = 29 in all; the vowel a gives 1 and the
      consonants n, n give 28. */
  lemma AnnTotals()
    ensures Total("Ann", AllLetters) == 29
    ensures Total("Ann", VowelsOnly) == 1
    ensures Total("Ann", ConsonantsOnly) == 28
  {
    AnnTotal(AllLetters);
    AnnTotal(VowelsOnly);
    AnnTotal(ConsonantsOnly);
  }

  /** "Ann" gives Expression 11 (29 -> 11, a master number), Soul Urge 1 and
      Personality 1 (28 -> 10 -> 1). */
  lemma AnnExample()
    ensures ExpressionNumber("Ann") == 11
    ensures SoulUrgeNumber("Ann") == 1
    ensures PersonalityNumber("Ann") == 1
  {
    AnnTotals();
    ReduceExamples();
  }

  /** A name without letters gives 0 for all three numbers. */
  lemma LetterlessExamples()
    ensures ExpressionNumber("") == 0 && SoulUrgeNumber("") == 0 && PersonalityNumber("") == 0
    ensures ExpressionNumber("1 - 2") == 0 && SoulUrgeNumber("1 - 2") == 0
    ensures PersonalityNumber("1 - 2") == 0
  {
  }

  /** "Yy" has no vowel; its consonant sum 25 + 25 = 50 reduces to 5. */
  lemma YExample()
    ensures PersonalityNumber("Yy") == 5 && SoulUrgeNumber("Yy") == 0
  {
    assert "Yy" == ['Y'] + (['y'] + []);
    TotalCons('y', [], ConsonantsOnly);
    TotalCons('Y', ['y'], ConsonantsOnly);
    assert Total("Yy", ConsonantsOnly) == 50;
    assert Decimal.DigitSum(50) == 5;
    assert Reduce(50) == 5;
  }
}
