/** The card number checksum (services/ai/ai_guardrails.py, _luhn) against the double-add-double
    formula of ISO/IEC 7812-1, Annex B. */
module Luhn {

  newtype Digit = d: int | 0 <= d < 10

  /** A doubled digit with its own two digits added up. */
  function Doubled(d: Digit): int {
    if 2 * (d as int) > 9 then 2 * (d as int) - 9 else 2 * (d as int)
  }

  function Weight(d: Digit, double: bool): int {
    if double then Doubled(d) else d as int
  }

  /** Annex B: going left from the last digit, every other digit is doubled, starting as `double` says. */
  function Sum(digits: seq<Digit>, double: bool): int {
    if digits == [] then 0
    else Weight(digits[|digits| - 1], double) + Sum(digits[..|digits| - 1], !double)
  }

  predicate Valid(digits: seq<Digit>) { Sum(digits, false) % 10 == 0 }

  /** Annex B: what must be appended to a number without its check digit. */
  function CheckDigit(payload: seq<Digit>): Digit {
    ((10 - Sum(payload, true) % 10) % 10) as Digit
  }

  lemma WeightModTen(a: Digit, b: Digit, double: bool)
    ensures Weight(a, double) % 10 == Weight(b, double) % 10 <==> a == b
  {
  }

  /** Doubling adds between -4 and 4 to a digit; only 0 and 9 gain the same. */
  function Gain(d: Digit): int { Doubled(d) - d as int }

  lemma SameGain(a: Digit, b: Digit)
    ensures -4 <= Gain(a) <= 4
    ensures Gain(a) == Gain(b) <==> a == b || (a == 0 && b == 9) || (a == 9 && b == 0)
  {
  }

  lemma CloseRemainders(x: int, y: int)
    requires -8 <= x - y <= 8
    ensures x % 10 == y % 10 <==> x == y
  {
  }

  lemma SwapWeights(a: Digit, b: Digit, double: bool)
    ensures (Weight(a, !double) + Weight(b, double)) % 10 == (Weight(b, !double) + Weight(a, double)) % 10
            <==> a == b || (a == 0 && b == 9) || (a == 9 && b == 0)
  {
    SameGain(a, b);
    SameGain(b, a);
    CloseRemainders(Weight(a, !double) + Weight(b, double), Weight(b, !double) + Weight(a, double));
  }

  lemma SameRemainder(left: int, m: int, m': int, right: int)
    requires (left + m + right) % 10 == 0
    ensures (left + m' + right) % 10 == 0 <==> m' % 10 == m % 10
  {
  }

  /** The sum splits at any point; whether the left part starts doubled depends on the right part's length. */
  lemma {:induction false} SumConcat(left: seq<Digit>, right: seq<Digit>, double: bool)
    ensures Sum(left + right, double) == Sum(left, double != (|right| % 2 == 1)) + Sum(right, double)
    decreases |right|
  {
    if right == [] {
      assert left + right == left;
    } else {
      var front := right[..|right| - 1];
      assert (left + right)[..|left + right| - 1] == left + front;
      SumConcat(left, front, !double);
    }
  }

  lemma SumOne(d: Digit, double: bool)
    ensures Sum([d], double) == Weight(d, double)
  {
    assert Sum([d][..0], !double) == 0;
  }

  lemma SumTwo(a: Digit, b: Digit, double: bool)
    ensures Sum([a, b], double) == Weight(a, !double) + Weight(b, double)
  {
    assert [a, b][..1] == [a];
    SumOne(a, !double);
  }

  lemma SumAround(left: seq<Digit>, mid: seq<Digit>, right: seq<Digit>)
    ensures var d := |right| % 2 == 1;
            Sum(left + mid + right, false) == Sum(left, d != (|mid| % 2 == 1)) + Sum(mid, d) + Sum(right, false)
  {
    SumConcat(left + mid, right, false);
    SumConcat(left, mid, |right| % 2 == 1);
  }

  /** Replacing one digit of a valid number keeps it valid only if the digit is the same. */
  lemma OneDigitChangeIsDetected(left: seq<Digit>, a: Digit, b: Digit, right: seq<Digit>)
    requires Valid(left + [a] + right)
    ensures Valid(left + [b] + right) <==> a == b
  {
    var d := |right| % 2 == 1;
    SumAround(left, [a], right);
    SumAround(left, [b], right);
    SumOne(a, d);
    SumOne(b, d);
    WeightModTen(a, b, d);
    SameRemainder(Sum(left, !d), Weight(a, d), Weight(b, d), Sum(right, false));
  }

  /** Swapping two neighbouring digits of a valid number goes unnoticed exactly for equal digits and for 0 next to 9. */
  lemma SwapIsDetected(left: seq<Digit>, a: Digit, b: Digit, right: seq<Digit>)
    requires Valid(left + [a, b] + right)
    ensures Valid(left + [b, a] + right) <==> a == b || {a, b} == {0, 9}
  {
    var d := |right| % 2 == 1;
    SumAround(left, [a, b], right);
    SumAround(left, [b, a], right);
    SumTwo(a, b, d);
    SumTwo(b, a, d);
    SwapWeights(a, b, d);
    SameRemainder(Sum(left, d), Weight(a, !d) + Weight(b, d), Weight(b, !d) + Weight(a, d), Sum(right, false));
    assert {a, b} == {0, 9} <==> (a == 0 && b == 9) || (a == 9 && b == 0) by {
      assert a in {a, b} && b in {a, b} && 0 in {0, 9} && 9 in {0 as Digit, 9};
    }
  }

  /** Exactly one appended digit makes a number valid, and it is the check digit of Annex B. */
  lemma OneCheckDigitFits(payload: seq<Digit>, c: Digit)
    ensures Valid(payload + [c]) <==> c == CheckDigit(payload)
  {
    SumConcat(payload, [c], false);
    SumOne(c, false);
  }

  /** The loop: digits from the last to the first, the ones at odd distance from the end doubled. */
  method CheckLuhn(digits: seq<Digit>) returns (valid: bool)
    ensures valid == Valid(digits)
    ensures digits != [] ==> (valid <==> digits[|digits| - 1] == CheckDigit(digits[..|digits| - 1]))
  {
    var total := 0;
    assert digits[..|digits|] == digits;
    for i := 0 to |digits|
      invariant total + Sum(digits[..|digits| - i], i % 2 == 1) == Sum(digits, false)
    {
      var n := digits[|digits| - 1 - i] as int;
      assert digits[..|digits| - i][..|digits| - i - 1] == digits[..|digits| - (i + 1)];
      if i % 2 != 0 {
        n := n * 2;
        if n > 9 {
          n := n - 9;
        }
      }
      total := total + n;
    }
    valid := total % 10 == 0;
    if digits != [] {
      assert digits == digits[..|digits| - 1] + [digits[|digits| - 1]];
      OneCheckDigitFits(digits[..|digits| - 1], digits[|digits| - 1]);
    }
  }
}
