# Numerology calculation engine

A Dafny model of the calculation engine of a numerology chatbot. The
engine derives four numbers from a person's full name and birth date:

- **Life Path**: the date's year, month and day are added as whole
  integers, and the total is reduced.
- **Expression**: the alphabet positions of all letters of the name are
  summed (a/A = 1 … z/Z = 26), and the sum is reduced.
- **Soul Urge**: the same, over the vowels a, e, i, o, u only.
- **Personality**: the same, over the consonants only. `y` is a consonant.

*Reduction* (`reduce_number`) repeatedly replaces a number with the sum of
its decimal digits. It stops as soon as the current value is at most 9 or
is a master number (11, 22 or 33). The master-number test runs before every
step, so 29 → 11 stops at 11, while 28 → 10 → 1.

Modules, one per component:

- `Decimal` (decimal.dfy): Python's `str(n)` for `n >= 0` as
  `DecimalString`, `int(c)` on a digit as `DigitValue`, and the digit sum.
  `DigitSum` is recursive. A lemma proves it equals the sum of the digit
  characters of `DecimalString(n)`, which is what the source computes.
- `Reduction` (reduction.dfy): `Reduce` is a recursive function, and its
  termination measure is the value itself. `ReduceNumber` is the source's
  `while` loop, proved equal to `Reduce`.
- `LifePath` (life_path.dfy): a `Date` datatype and `LifePathNumber`.
- `NameNumbers` (name_numbers.dfy): ASCII character classes,
  `LetterToNumber`, and one `Total` parameterised by a `Selection`. The
  three selections are the filters of the three list comprehensions. The
  module also holds the three calculators.

Two policies of the code are worth stating:

- `IsReduced` includes 0 because `reduce_number(0)` returns 0, which a
  letterless name produces. `ReducePositive` proves that 0 comes only from 0.
- The Soul Urge filter tests only `c.lower() in "aeiou"`, with no
  `isalpha`. `Keeps` models it as written, and `SelectionsPartitionLetters`
  proves that it keeps only letters on ASCII.

## Model

| member | source | states |
|---|---|---|
| Decimal.DecimalString | app.py:16 | `str(n)` is a non-empty string of digit characters with no leading zero: it starts with '0' exactly when n is 0, and then it is the single character "0"; it has one character exactly when n < 10 |
| Decimal.ParseDecimalString | app.py:16 | reading `str(n)` back digit by digit gives n again, so `str` loses no digit |
| Decimal.DigitChar | app.py:16 | the character `str` writes for a digit is a digit character that `int` reads back as that digit |
| Decimal.DigitValue | app.py:16 | `int(i)` on a digit character is below 10, and the digit character for that value is i again |
| Decimal.SumOfDigitChars | app.py:16 | `sum([int(i) for i in s])` is at most 9 per digit and is 0 exactly when every digit is '0' |
| Decimal.DigitSum | app.py:16 | the digit sum is at most n, strictly below n once n >= 10 (the loop's termination argument), zero only for zero, and congruent to n modulo 9 |
| Decimal.DigitSumOfDecimalString | app.py:16 | `DigitSum(n)` equals `sum(int(i) for i in str(n))`, the sum of the digit characters of `str(n)` |
| Reduction.KeepsReducing | app.py:15 | for n >= 0 the loop guard `num > 9 and num not in [11, 22, 33]` holds exactly when n is outside {0..9, 11, 22, 33} |
| Reduction.Reduce | app.py:13-17 | for every n >= 0 the reduction terminates. The result is in {0..9, 11, 22, 33}, never exceeds n, is 0 exactly when n is 0, and keeps n's remainder modulo 9 |
| Reduction.ReduceNumber | app.py:13-17 | the source's `while` loop, which rebinds `num` to the digit sum of `str(num)` while the guard holds, returns exactly `Reduce(num)` |
| Reduction.ReduceIsFirstStop | app.py:15-16 | the result is the first value on the digit-sum sequence n, s(n), s(s(n)), … that is at most 9 or a master number. Every earlier value passes the loop guard, so the loop takes another step from it; the master-number test is applied to each value before it is summed |
| Reduction.ReduceFixedPoints | app.py:15-17 | an input is returned unchanged exactly when it is in {0..9, 11, 22, 33}, and reduction is idempotent |
| Reduction.ReducePositive | app.py:15-16 | the result is positive exactly when the input is positive |
| Reduction.ReduceExamples | app.py:15-16 | 29 → 11 and 38 → 11 stop at the master number; 28 → 1; 2010 → 3; 0, 11, 22 and 33 are returned unchanged |
| LifePath.LifePathNumber | app.py:19-22 | for a valid date, the Life Path number is positive, in the reduced set, and congruent modulo 9 to year + month + day |
| LifePath.LifePathDependsOnlyOnSum | app.py:21-22 | two dates with the same year + month + day total have the same Life Path number |
| LifePath.LifePathExamples | app.py:21-22 | 1990-05-15 gives 3. 1975-10-15 gives 2, whereas reducing each field first would give 11, so the sum is taken before reducing |
| NameNumbers.IsAlpha | app.py:30 | `str.isalpha` restricted to ASCII: a character it accepts is always an ASCII character, so the name restriction loses no letter the model counts |
| NameNumbers.IsVowel | app.py:35-36 | `c.lower() in "aeiou"` holds exactly for a, e, i, o, u in either case (so not for y), and only for letters |
| NameNumbers.Keeps | app.py:30-42 | the three filters as written: all letters, `c.lower() in vowels`, and letters that are not vowels. Every kept character is a letter worth 1..26 |
| NameNumbers.Lower | app.py:26 | ASCII lower-casing maps each upper-case letter to its lower-case counterpart (code + 32), leaves lower-case letters and non-letters alone, and stays ASCII |
| NameNumbers.LetterToNumber | app.py:24-26 | on ASCII, `ord(c.lower()) - 96` lies in 1..26 exactly for letters. For a letter it is the alphabet position, the same for 'a'..'z' and 'A'..'Z' |
| NameNumbers.SelectionsPartitionLetters | app.py:35-42 | the vowel filter keeps only letters. Every letter is kept by exactly one of the vowel and consonant filters, and `y`/`Y` is a consonant |
| NameNumbers.Total | app.py:30-42 | the filtered sum of letter values is 0 exactly when the filter keeps no character of the name, and is at most 26 per character |
| NameNumbers.ExpressionNumber | app.py:28-31 | the Expression number is in the reduced set, is 0 exactly when the name has no letter, and is congruent to the letter total modulo 9 |
| NameNumbers.SoulUrgeNumber | app.py:33-37 | the Soul Urge number is in the reduced set, is 0 exactly when the name has no vowel, and is congruent to the vowel total modulo 9 |
| NameNumbers.PersonalityNumber | app.py:39-43 | the Personality number is in the reduced set, is 0 exactly when the name has no consonant, and is congruent to the consonant total modulo 9 |
| NameNumbers.ExpressionTotalSplits | app.py:28-43 | before reduction, the Expression total is the Soul Urge total plus the Personality total |
| NameNumbers.TotalAppend | app.py:30 | the total of a concatenated name is the sum of the totals of its parts |
| NameNumbers.NonLetterAddsNothing | app.py:30-42 | inserting a space, digit or punctuation mark anywhere in a name changes none of the three totals |
| NameNumbers.LowerString | app.py:26 | lower-casing a name keeps its length and ASCII-ness and lower-cases each character in place |
| NameNumbers.TotalIgnoresCase | app.py:26-42 | lower-casing the whole name changes none of the three totals, so the calculators are case-insensitive |
| NameNumbers.AnnTotals | app.py:28-43 | "Ann" has letter total 29, vowel total 1 and consonant total 28 |
| NameNumbers.AnnExample | app.py:28-43 | "Ann" gives Expression 11, because 29 stops at the master number. It gives Soul Urge 1, and Personality 1 via 28 → 10 → 1 |
| NameNumbers.LetterlessExamples | app.py:28-43 | the empty name and "1 - 2" give 0 for Expression, Soul Urge and Personality, without error |
| NameNumbers.YExample | app.py:33-43 | "Yy" has no vowel (Soul Urge 0), and its consonant total 50 gives Personality 5 |

## Left out

- The Streamlit interface, secrets and form validation (app.py:10, app.py:122-184): presentation and configuration, no calculation logic.
- The OpenAI advice calls (app.py:46-68): requests to an external service; the prompt strings carry no checkable logic.
- Chart rendering (app.py:71-78) and the PDF report (app.py:88-118): fixed sequences of library calls and a file write.
- `remove_non_ascii` (app.py:83-85): its behaviour rests on Unicode NFKD decomposition tables that are not part of this model.
- Non-ASCII characters in names: `str.isalpha` and `str.lower` on arbitrary Unicode depend on Unicode tables that are not part of this model, so names are required to be ASCII.
- Negative inputs to `reduce_number`: the loop would be skipped and the value returned unchanged. The engine never produces them, so `Reduce` takes a `nat`.
- Calendar validity of dates (month lengths, leap years): the Life Path number only adds the three fields. `ValidDate` keeps only Python's `date` ranges (year 1..9999, month 1..12, day 1..31).
- Python integers are unbounded, as Dafny's are, so no integer width is modelled.
