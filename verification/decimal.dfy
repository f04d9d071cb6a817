/** Decimal text as Ruby produces and reads it: `Integer#to_s`, `String#to_i`
    on digit strings, and `String#rjust`. Every barcode field passes through
    these, so the layout lemmas of the codec rest on the facts proved here.
 */
module Decimal {

  predicate IsDigit(c: char) {
    '0' <= c <= '9'
  }

  predicate AllDigits(s: string) {
    forall i :: 0 <= i < |s| ==> IsDigit(s[i])
  }

  function DigitChar(d: nat): (c: char)
    requires d < 10
    ensures IsDigit(c)
  {
    ('0' as int + d) as char
  }

  function DigitValue(c: char): (d: nat)
    requires IsDigit(c)
    ensures d < 10
  {
    c as int - '0' as int
  }

  function Pow10(k: nat): (r: nat)
    ensures r >= 1
  {
    if k == 0 then 1 else 10 * Pow10(k - 1)
  }

  /** `Integer#to_s` on a non-negative integer: shortest decimal form, "0" for zero. */
  function NatToS(n: nat): (s: string)
    ensures 1 <= |s| && AllDigits(s)
  {
    if n < 10 then [DigitChar(n)] else NatToS(n / 10) + [DigitChar(n % 10)]
  }

  /** `Integer#to_s`: a leading '-' for negative values. */
  function IntToS(n: int): (s: string)
    ensures 1 <= |s|
    ensures AllDigits(s) <==> n >= 0
  {
    if n < 0 then
      var s := "-" + NatToS(-n);
      assert !IsDigit(s[0]);
      s
    else NatToS(n)
  }

  /** `String#to_i` on a string made only of digits (leading zeros allowed). */
  function DigitsValue(s: string): (v: nat)
    requires AllDigits(s)
    ensures v < Pow10(|s|)
  {
    if s == [] then 0 else 10 * DigitsValue(s[..|s| - 1]) + DigitValue(s[|s| - 1])
  }

  /** The `width` low-order decimal digits of `n`, most significant first,
      zero-padded on the left. */
  function PadDigits(n: nat, width: nat): (s: string)
    ensures |s| == width && AllDigits(s)
  {
    if width == 0 then [] else PadDigits(n / 10, width - 1) + [DigitChar(n % 10)]
  }

  function Repeat(c: char, k: nat): (s: string)
    ensures |s| == k
    ensures forall i :: 0 <= i < k ==> s[i] == c
  {
    if k == 0 then [] else Repeat(c, k - 1) + [c]
  }

  /** `String#rjust(width, fill)` with a one-character fill. */
  function LeftPad(s: string, width: nat, fill: char): (r: string)
    ensures |r| == if |s| < width then width else |s|
    ensures r[|r| - |s|..] == s
    ensures forall i :: 0 <= i < |r| - |s| ==> r[i] == fill
  {
    if |s| < width then Repeat(fill, width - |s|) + s else s
  }

  /** Reading back a zero-padded field recovers the number it was written from. */
  lemma {:induction false} PadDigitsValue(n: nat, width: nat)
    requires n < Pow10(width)
    ensures DigitsValue(PadDigits(n, width)) == n
  {
    if width > 0 {
      var s := PadDigits(n, width);
      assert s[..|s| - 1] == PadDigits(n / 10, width - 1);
      PadDigitsValue(n / 10, width - 1);
    }
  }

  /** The decimal form of `n` has at most `k` digits exactly when `n < 10^k`. */
  lemma {:induction false} NatToSLength(n: nat, k: nat)
    requires k >= 1
    ensures |NatToS(n)| <= k <==> n < Pow10(k)
  {
    if n >= 10 {
      if k == 1 {
        assert |NatToS(n)| == |NatToS(n / 10)| + 1;
      } else {
        NatToSLength(n / 10, k - 1);
      }
    }
  }

  lemma {:induction false} PadDigitsZero(width: nat)
    ensures PadDigits(0, width) == Repeat('0', width)
  {
    if width > 0 {
      PadDigitsZero(width - 1);
    }
  }

  /** Zero-padding the shortest form on the left gives the fixed-width form. */
  lemma {:induction false} PadDigitsOfNatToS(n: nat, width: nat)
    requires |NatToS(n)| <= width
    ensures PadDigits(n, width) == Repeat('0', width - |NatToS(n)|) + NatToS(n)
    ensures LeftPad(NatToS(n), width, '0') == PadDigits(n, width)
  {
    PadDigitsAsZeros(n, width);
    LeftPadAsRepeat(NatToS(n), width, '0');
  }

  lemma {:induction false} PadDigitsAsZeros(n: nat, width: nat)
    requires |NatToS(n)| <= width
    ensures PadDigits(n, width) == Repeat('0', width - |NatToS(n)|) + NatToS(n)
  {
    if n < 10 {
      assert n / 10 == 0 && n % 10 == n;
      PadDigitsZero(width - 1);
    } else {
      var s := NatToS(n / 10);
      PadDigitsAsZeros(n / 10, width - 1);
      assert NatToS(n) == s + [DigitChar(n % 10)];
      assert PadDigits(n, width) == PadDigits(n / 10, width - 1) + [DigitChar(n % 10)];
      assert Repeat('0', width - 1 - |s|) + s + [DigitChar(n % 10)]
          == Repeat('0', width - 1 - |s|) + (s + [DigitChar(n % 10)]);
    }
  }

  /** `rjust` pads with exactly the missing number of fill characters. */
  lemma LeftPadAsRepeat(s: string, width: nat, fill: char)
    requires |s| <= width
    ensures LeftPad(s, width, fill) == Repeat(fill, width - |s|) + s
  {
    if |s| == width {
      assert Repeat(fill, 0) == [];
    }
  }

  /** `a` followed by `k` zero digits, by repeated multiplication by ten. */
  function Shifted(a: nat, k: nat): nat {
    if k == 0 then a else 10 * Shifted(a, k - 1)
  }

  lemma {:induction false} ShiftedIsProduct(a: nat, k: nat)
    ensures Shifted(a, k) == a * Pow10(k)
  {
    if k > 0 {
      ShiftedIsProduct(a, k - 1);
      assert a * Pow10(k) == 10 * (a * Pow10(k - 1));
    }
  }

  /** Place value: writing `a·10^k + b` in `j + k` digits writes `a` in the
      first `j` and `b` in the last `k`. */
  lemma {:induction false} PadDigitsSplit(a: nat, b: nat, j: nat, k: nat)
    requires b < Pow10(k)
    ensures PadDigits(a * Pow10(k) + b, j + k) == PadDigits(a, j) + PadDigits(b, k)
  {
    ShiftedIsProduct(a, k);
    ShiftedSplit(a, b, j, k);
  }

  lemma {:induction false} ShiftedSplit(a: nat, b: nat, j: nat, k: nat)
    requires b < Pow10(k)
    ensures PadDigits(Shifted(a, k) + b, j + k) == PadDigits(a, j) + PadDigits(b, k)
  {
    if k > 0 {
      DropDigit(b, k);
      ShiftedSplit(a, b / 10, j, k - 1);
      AppendLastDigit(Shifted(a, k) + b, Shifted(a, k - 1) + b / 10, a, b, j, k);
    }
  }

  lemma DropDigit(b: nat, k: nat)
    requires k > 0 && b < Pow10(k)
    ensures b / 10 < Pow10(k - 1) && b == 10 * (b / 10) + b % 10
  {
  }

  /** One induction step of the split: the last digit of `x` is the last digit of `b`. */
  lemma AppendLastDigit(x: nat, q: nat, a: nat, b: nat, j: nat, k: nat)
    requires k > 0 && x == 10 * q + b % 10
    requires PadDigits(q, j + (k - 1)) == PadDigits(a, j) + PadDigits(b / 10, k - 1)
    ensures PadDigits(x, j + k) == PadDigits(a, j) + PadDigits(b, k)
  {
    DivModTen(q, b % 10);
    assert PadDigits(x, j + k) == PadDigits(q, j + (k - 1)) + [DigitChar(b % 10)];
    assert PadDigits(b, k) == PadDigits(b / 10, k - 1) + [DigitChar(b % 10)];
    assert PadDigits(a, j) + PadDigits(b / 10, k - 1) + [DigitChar(b % 10)]
        == PadDigits(a, j) + (PadDigits(b / 10, k - 1) + [DigitChar(b % 10)]);
  }

  lemma DivModTen(q: nat, r: nat)
    requires r < 10
    ensures (10 * q + r) / 10 == q && (10 * q + r) % 10 == r
  {
  }
}
