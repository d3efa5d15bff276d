/** reduce_number: repeated digit summing that stops at a single digit or at
    one of the master numbers 11, 22 and 33. */
module Reduction {
  import opened Decimal

  predicate IsMaster(n: int) {
    n == 11 || n == 22 || n == 33
  }

  /** The values reduce_number can return for a non-negative input. */
  predicate IsReduced(n: int) {
    0 <= n <= 9 || IsMaster(n)
  }

  /** The loop guard of reduce_number: `num > 9 and num not in [11, 22, 33]`. */
  predicate KeepsReducing(n: int)
    ensures n >= 0 ==> (KeepsReducing(n) <==> !IsReduced(n))
  {
    n > 9 && !IsMaster(n)
  }

  /** Reduce(n) is what reduce_number returns for n. The guard is tested on
      the current value before every digit-summing step. */
  function Reduce(n: nat): (r: nat)
    ensures IsReduced(r)
    ensures r <= n
    ensures (r == 0) == (n == 0)
    ensures r % 9 == n % 9
    decreases n
  {
    if KeepsReducing(n) then Reduce(DigitSum(n)) else n
  }

  /** reduce_number as the source writes it: a loop that rebinds `num` to
      the sum of the digits of `str(num)` while the guard holds. */
  method ReduceNumber(num: nat) returns (r: nat)
    ensures r == Reduce(num)
  {
    r := num;
    while KeepsReducing(r)
      invariant Reduce(r) == Reduce(num)
      decreases r
    {
      var digits := DecimalString(r);
      DigitSumOfDecimalString(r);
      r := SumOfDigitChars(digits);
    }
  }

  /** The values digit summing visits from n: Orbit(n, k) is n after k steps. */
  function Orbit(n: nat, k: nat): nat
    decreases k
  {
    if k == 0 then n else Orbit(DigitSum(n), k - 1)
  }

  /** Reduce(n) is the FIRST reduced value on the digit-sum orbit of n: the
      master-number test stops the loop at the earliest step it can. */
  lemma {:induction false} ReduceIsFirstStop(n: nat) returns (k: nat)
    ensures Orbit(n, k) == Reduce(n)
    ensures forall j :: 0 <= j < k ==> KeepsReducing(Orbit(n, j))
    decreases n
  {
    if KeepsReducing(n) {
      var k' := ReduceIsFirstStop(DigitSum(n));
      k := k' + 1;
      forall j | 0 <= j < k
        ensures KeepsReducing(Orbit(n, j))
      {
        if j > 0 {
          assert Orbit(n, j) == Orbit(DigitSum(n), j - 1);
        }
      }
    } else {
      k := 0;
    }
  }

  /** reduce_number returns exactly the reduced values unchanged, so applying
      it twice is the same as applying it once. */
  lemma ReduceFixedPoints(n: nat)
    ensures Reduce(n) == n <==> IsReduced(n)
    ensures Reduce(Reduce(n)) == Reduce(n)
  {
  }

  /** A positive input never reduces to 0. This restates, as a lemma for
      callers, Reduce's postcondition that the result is 0 exactly for 0. */
  lemma ReducePositive(n: nat)
    ensures Reduce(n) > 0 <==> n > 0
  {
  }

  /** The worked cases: 29 -> 11 and 38 -> 11 stop at the master number,
      28 -> 10 -> 1 does not, and 2010 -> 3. */
  lemma ReduceExamples()
    ensures Reduce(29) == 11 && Reduce(38) == 11
    ensures Reduce(28) == 1 && Reduce(2010) == 3
    ensures Reduce(0) == 0 && Reduce(11) == 11 && Reduce(22) == 22 && Reduce(33) == 33
  {
    assert DigitSum(29) == 11;
    assert DigitSum(38) == 11;
    assert DigitSum(28) == 10 && DigitSum(10) == 1;
    assert DigitSum(201) == 3;
    assert DigitSum(2010) == 3;
  }
}
