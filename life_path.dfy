/** calculate_life_path_number: the birth date's year, month and day are
    added as whole integers and the total is reduced once. */
module LifePath {
  import opened Reduction

  /** A birth date as Python's `datetime.date` carries it. Calendar validity
      beyond these ranges (30-day months, leap years) plays no part. */
  datatype Date = Date(year: int, month: int, day: int)

  predicate ValidDate(d: Date) {
    1 <= d.year <= 9999 && 1 <= d.month <= 12 && 1 <= d.day <= 31
  }

  /** The Life Path number is a positive reduced value, congruent modulo 9 to
      the plain sum of year, month and day. */
  function LifePathNumber(d: Date): (r: nat)
    requires ValidDate(d)
    ensures IsReduced(r) && r > 0
    ensures r % 9 == (d.year + d.month + d.day) % 9
  {
    Reduce(d.year + d.month + d.day)
  }

  /** The per-field reading, which the code does not follow: reduce each
      field, then reduce the sum of the three. Kept only to show that it
      differs. */
  function PerFieldLifePath(d: Date): nat
    requires ValidDate(d)
  {
    Reduce(Reduce(d.year) + Reduce(d.month) + Reduce(d.day))
  }

  /** Dates with the same year + month + day total share a Life Path number:
      only the sum matters, not how it splits among the fields. */
  lemma LifePathDependsOnlyOnSum(d1: Date, d2: Date)
    requires ValidDate(d1) && ValidDate(d2)
    requires d1.year + d1.month + d1.day == d2.year + d2.month + d2.day
    ensures LifePathNumber(d1) == LifePathNumber(d2)
  {
  }

  /** 1990-05-15 sums to 2010, which reduces to 3. 1975-10-15 sums to 2000
      and gives 2, while reducing the fields first (1975 -> 22, 10 -> 1,
      15 -> 6, total 29 -> 11) would give the master number 11. */
  lemma LifePathExamples()
    ensures LifePathNumber(Date(1990, 5, 15)) == 3
    ensures LifePathNumber(Date(1975, 10, 15)) == 2
    ensures PerFieldLifePath(Date(1975, 10, 15)) == 11
  {
    ReduceExamples();
    assert Decimal.DigitSum(2000) == 2;
    assert Decimal.DigitSum(1975) == 22;
    assert Reduce(10) == 1 && Reduce(15) == 6;
  }
}
