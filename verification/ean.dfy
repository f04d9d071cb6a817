/** The EAN-13 check digit (GS1 General Specifications, section 7.9): digits
    taken from the least significant end, weighted 3, 1, 3, ..., and the
    check digit brings the weighted sum up to a multiple of ten. Validation
    reruns the same loop over a code that already ends in its check digit,
    starting with weight 1, and expects 0.
 */
module Ean13 {
  import Decimal

  function NextWeight(weight: int): int {
    if weight == 1 then 3 else 1
  }

  /** What the loop accumulates: `digit * weight % 10` for every digit while
      the code is positive. A code of 0 or below contributes nothing. */
  function WeightedDigitSum(code: int, weight: int): nat
    decreases if code > 0 then code else 0
  {
    if code <= 0 then 0
    else (code % 10) * weight % 10 + WeightedDigitSum(code / 10, NextWeight(weight))
  }

  function CheckDigit(code: int, initialWeight: int): (d: nat)
    ensures d < 10
    ensures (d + WeightedDigitSum(code, initialWeight)) % 10 == 0
  {
    (10 - WeightedDigitSum(code, initialWeight)) % 10
  }

  /** `Ean.calculate`: the check digit of a pre-EAN code. */
  function Calculate(code: int): (d: nat)
    ensures d <= 9
    ensures (d + WeightedDigitSum(code, 3)) % 10 == 0
    ensures code <= 0 ==> d == 0
  {
    CheckDigit(code, 3)
  }

  /** `Ean.validate?`: the weight-1 loop over the full code yields 0. */
  predicate Validate(code: int): (r: bool)
    ensures code <= 0 ==> r
  {
    CheckDigit(code, 1) == 0
  }

  /** The loop of `Ean#initialize`, as written: peel off the last digit, add
      its weighted value mod 10, flip the weight. */
  method ComputeCheckDigit(code: int, initialWeight: int) returns (ean: int)
    ensures ean == CheckDigit(code, initialWeight)
  {
    var rest := code;
    var sum := 0;
    var weight := initialWeight;
    while rest > 0
      invariant sum + WeightedDigitSum(rest, weight) == WeightedDigitSum(code, initialWeight)
      decreases rest
    {
      var c := rest % 10;
      rest := rest / 10;
      sum := sum + c * weight % 10;
      weight := if weight == 1 then 3 else 1;
    }
    ean := (10 - sum) % 10;
  }

  /** The textbook reading of the standard: the plain weighted digit sum,
      without reducing each product mod 10. */
  function StandardWeightedSum(code: int, weight: int): int
    decreases if code > 0 then code else 0
  {
    if code <= 0 then 0
    else (code % 10) * weight + StandardWeightedSum(code / 10, NextWeight(weight))
  }

  lemma ModShift(a: int, k: int)
    ensures (a + 10 * k) % 10 == a % 10
  {
  }

  lemma AddModTen(a: int, x: int, y: int)
    requires x % 10 == y % 10
    ensures (a % 10 + x) % 10 == (a + y) % 10
  {
    var k := x / 10 - y / 10 - a / 10;
    assert a % 10 + x == a + y + 10 * k;
    ModShift(a + y, k);
  }

  /** Reducing each product mod 10 does not change the sum mod 10. */
  lemma {:induction false} ReducedSumAgrees(code: int, weight: int)
    ensures WeightedDigitSum(code, weight) % 10 == StandardWeightedSum(code, weight) % 10
    decreases if code > 0 then code else 0
  {
    if code > 0 {
      ReducedSumAgrees(code / 10, NextWeight(weight));
      AddModTen((code % 10) * weight,
                WeightedDigitSum(code / 10, NextWeight(weight)),
                StandardWeightedSum(code / 10, NextWeight(weight)));
    }
  }

  /** `calculate` is the standard's check digit. */
  lemma CalculateIsStandard(code: int)
    ensures Calculate(code) == (10 - StandardWeightedSum(code, 3) % 10) % 10
  {
    ReducedSumAgrees(code, 3);
    CompletingDigit(Calculate(code), WeightedDigitSum(code, 3), StandardWeightedSum(code, 3));
  }

  /** The one digit that brings a sum up to a multiple of ten. */
  lemma CompletingDigit(d: int, reduced: int, plain: int)
    requires 0 <= d < 10 && (d + reduced) % 10 == 0 && reduced % 10 == plain % 10
    ensures d == (10 - plain % 10) % 10
  {
    AddModTen(d, reduced, plain);
  }

  lemma TenMinusMultiple(x: int)
    requires x % 10 == 0
    ensures (10 - x) % 10 == 0
  {
    assert 10 - x == 0 + 10 * (1 - x / 10);
    ModShift(0, 1 - x / 10);
  }

  /** Appending its check digit to any non-negative code gives a code that
      validates: the appended digit takes weight 1, and every earlier digit
      keeps the weight it had when the check digit was computed. */
  lemma {:induction false} ValidateAppended(code: int)
    requires code >= 0
    ensures Validate(code * 10 + Calculate(code))
  {
    var d := Calculate(code);
    AppendedCodeValidates(code * 10 + d, code, d, WeightedDigitSum(code, 3));
  }

  /** `full` is `code` followed by a digit that completes the weight-3 sum of
      `code` to a multiple of ten. */
  lemma {:induction false} AppendedCodeValidates(full: int, code: int, d: nat, sum: nat)
    requires code >= 0 && d < 10 && full == code * 10 + d
    requires sum == WeightedDigitSum(code, 3) && (d + sum) % 10 == 0
    ensures CheckDigit(full, 1) == 0
  {
    Decimal.DivModTen(code, d);
    if full > 0 {
      AppendedDigitStep(full, code, d, sum);
      CheckDigitOfMultiple(full, d + sum);
    }
  }

  /** The converse: a non-negative code that `validate?` accepts ends in the
      check digit of the code before it, so validation accepts nothing else. */
  lemma {:induction false} ValidateOnlyAppended(x: int)
    requires x >= 0 && Validate(x)
    ensures x % 10 == Calculate(x / 10)
  {
    var code, d := x / 10, x % 10;
    var sum := WeightedDigitSum(code, 3);
    if x > 0 {
      AppendedDigitStep(x, code, d, sum);
      TenMinusZero(d + sum);
      SameCompletingDigit(d, Calculate(code), sum);
    }
  }

  /** `validate?` accepts a non-negative code exactly when its last digit is
      the check digit `calculate` gives for the rest. */
  lemma ValidateIffAppended(x: int)
    requires x >= 0
    ensures Validate(x) <==> x % 10 == Calculate(x / 10)
  {
    if Validate(x) {
      ValidateOnlyAppended(x);
    }
    if x % 10 == Calculate(x / 10) {
      ValidateAppended(x / 10);
    }
  }

  lemma TenMinusZero(k: int)
    requires k >= 0 && (10 - k) % 10 == 0
    ensures k % 10 == 0
  {
    assert k == 10 * (1 - (10 - k) / 10);
    ModShift(0, 1 - (10 - k) / 10);
  }

  /** Only one digit brings a given sum up to a multiple of ten. */
  lemma SameCompletingDigit(d: int, c: int, sum: int)
    requires 0 <= d < 10 && 0 <= c < 10 && (d + sum) % 10 == 0 && (c + sum) % 10 == 0
    ensures d == c
  {
  }

  /** The last digit of a code is the first one the loop reads, with weight 1. */
  lemma AppendedDigitStep(full: int, code: int, d: nat, sum: nat)
    requires full > 0 && full % 10 == d && full / 10 == code && d < 10
    requires sum == WeightedDigitSum(code, 3)
    ensures WeightedDigitSum(full, 1) == d + sum
  {
    DigitStep(full, 1, d, code, sum);
    assert d * 1 % 10 == d;
  }

  lemma CheckDigitOfMultiple(code: int, sum: int)
    requires WeightedDigitSum(code, 1) == sum && sum % 10 == 0
    ensures CheckDigit(code, 1) == 0
  {
    TenMinusMultiple(sum);
  }

  /** One turn of the loop on a concrete code, for the worked examples below. */
  lemma DigitStep(code: int, weight: int, digit: int, rest: int, sum: int)
    requires code > 0 && code % 10 == digit && code / 10 == rest
    requires WeightedDigitSum(rest, NextWeight(weight)) == sum
    ensures WeightedDigitSum(code, weight) == digit * weight % 10 + sum
  {
  }

  lemma CalculateExamples()
    ensures Calculate(450000123475) == 7
    ensures Calculate(58000000180) == 6
    ensures Calculate(0) == 0
  {
    DigitStep(4, 1, 4, 0, 0);
    DigitStep(45, 3, 5, 4, 4);
    DigitStep(450, 1, 0, 45, 9);
    DigitStep(4500, 3, 0, 450, 9);
    DigitStep(45000, 1, 0, 4500, 9);
    DigitStep(450000, 3, 0, 45000, 9);
    DigitStep(4500001, 1, 1, 450000, 9);
    DigitStep(45000012, 3, 2, 4500001, 10);
    DigitStep(450000123, 1, 3, 45000012, 16);
    DigitStep(4500001234, 3, 4, 450000123, 19);
    DigitStep(45000012347, 1, 7, 4500001234, 21);
    DigitStep(450000123475, 3, 5, 45000012347, 28);

    DigitStep(5, 3, 5, 0, 0);
    DigitStep(58, 1, 8, 5, 5);
    DigitStep(580, 3, 0, 58, 13);
    DigitStep(5800, 1, 0, 580, 13);
    DigitStep(58000, 3, 0, 5800, 13);
    DigitStep(580000, 1, 0, 58000, 13);
    DigitStep(5800000, 3, 0, 580000, 13);
    DigitStep(58000000, 1, 0, 5800000, 13);
    DigitStep(580000001, 3, 1, 58000000, 13);
    DigitStep(5800000018, 1, 8, 580000001, 16);
    DigitStep(58000000180, 3, 0, 5800000018, 24);
  }

  /** The digits of 4500101234757 do not bring the weight-1 sum to a multiple of ten. */
  lemma ValidateRejectsExample()
    ensures !Validate(4500101234757)
  {
    DigitStep(4, 1, 4, 0, 0);
    DigitStep(45, 3, 5, 4, 4);
    DigitStep(450, 1, 0, 45, 9);
    DigitStep(4500, 3, 0, 450, 9);
    DigitStep(45001, 1, 1, 4500, 9);
    DigitStep(450010, 3, 0, 45001, 10);
    DigitStep(4500101, 1, 1, 450010, 10);
    DigitStep(45001012, 3, 2, 4500101, 11);
    DigitStep(450010123, 1, 3, 45001012, 17);
    DigitStep(4500101234, 3, 4, 450010123, 20);
    DigitStep(45001012347, 1, 7, 4500101234, 22);
    DigitStep(450010123475, 3, 5, 45001012347, 29);
    DigitStep(4500101234757, 1, 7, 450010123475, 34);
    assert WeightedDigitSum(4500101234757, 1) == 41;
  }

  lemma ValidateAcceptsExamples()
    ensures Validate(4500001234757) && Validate(580000001806)
  {
    CalculateExamples();
    ValidateAppended(450000123475);
    ValidateAppended(58000000180);
  }
}
