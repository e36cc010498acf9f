/**
 * Decimal rounding as Python's built-in `round(x, n)` performs it: to the
 * nearest multiple of 10^-n, a value exactly halfway between two multiples
 * going to the one whose last digit is even. Numbers are exact reals here,
 * so binary floating-point artefacts are not modelled.
 *
 * Scaling by 10^n is written as n repeated multiplications by ten (`Shift`)
 * and its inverse (`Unshift`), so that every step stays linear.
 */
module Rounding {

  function Abs(x: real): real
  {
    if x < 0.0 then -x else x
  }

  /** x * 10^n */
  function Shift(x: real, n: nat): real
  {
    if n == 0 then x else 10.0 * Shift(x, n - 1)
  }

  /** x / 10^n */
  function Unshift(x: real, n: nat): real
    decreases n
  {
    if n == 0 then x else Unshift(x / 10.0, n - 1)
  }

  /** `x` is a multiple of 10^-n, i.e. it has at most `n` decimals. */
  predicate OnGrid(x: real, n: nat)
  {
    Shift(x, n).Floor as real == Shift(x, n)
  }

  /** The integer nearest to `y`; a tie goes to the even neighbour. */
  function RoundHalfEven(y: real): (k: int)
    ensures Abs(k as real - y) <= 0.5
    ensures Abs(k as real - y) == 0.5 ==> k % 2 == 0
  {
    var f := y.Floor;
    var frac := y - f as real;
    if frac < 0.5 then f
    else if frac > 0.5 then f + 1
    else if f % 2 == 0 then f
    else f + 1
  }

  /**
   * Round `x` to `n` decimals: the result has `n` decimals and is strictly
   * within half a unit of the last kept decimal, or exactly half a unit away
   * with an even last digit.
   */
  function RoundTo(x: real, n: nat): (r: real)
    ensures OnGrid(r, n)
    ensures || Shift(Abs(r - x), n) < 0.5
            || (Shift(Abs(r - x), n) == 0.5 && Shift(r, n).Floor % 2 == 0)
  {
    var k := RoundHalfEven(Shift(x, n));
    ShiftUnshift(k as real, n);
    ShiftAbs(Unshift(k as real, n) - x, n);
    ShiftSub(Unshift(k as real, n), x, n);
    Unshift(k as real, n)
  }

  // ---------------------------------------------------------------------------
  // Scaling by a power of ten

  lemma {:induction false} ShiftUnshift(y: real, n: nat)
    ensures Shift(Unshift(y, n), n) == y
    decreases n
  {
    if n > 0 {
      ShiftUnshift(y / 10.0, n - 1);
    }
  }

  lemma {:induction false} UnshiftShift(x: real, n: nat)
    ensures Unshift(Shift(x, n), n) == x
  {
    if n > 0 {
      UnshiftShift(x, n - 1);
    }
  }

  lemma {:induction false} ShiftSub(a: real, b: real, n: nat)
    ensures Shift(a - b, n) == Shift(a, n) - Shift(b, n)
  {
    if n > 0 {
      ShiftSub(a, b, n - 1);
    }
  }

  /** Scaling by 10^n is strictly increasing. */
  lemma {:induction false} ShiftStrictlyMonotone(a: real, b: real, n: nat)
    requires a < b
    ensures Shift(a, n) < Shift(b, n)
  {
    if n > 0 {
      ShiftStrictlyMonotone(a, b, n - 1);
    }
  }

  lemma ShiftOrder(a: real, b: real, n: nat)
    ensures a <= b <==> Shift(a, n) <= Shift(b, n)
  {
    if a < b {
      ShiftStrictlyMonotone(a, b, n);
    } else if b < a {
      ShiftStrictlyMonotone(b, a, n);
    }
  }

  lemma ShiftAbs(d: real, n: nat)
    ensures Shift(Abs(d), n) == Abs(Shift(d, n))
  {
    ShiftOrder(0.0, d, n);
    ShiftSub(0.0, d, n);
    ShiftSub(0.0, 0.0, n);
  }

  // ---------------------------------------------------------------------------
  // Round half to even on integers

  /** No integer is closer to `y` than `RoundHalfEven(y)`. */
  lemma RoundHalfEvenIsNearest(y: real, k: int)
    ensures Abs(RoundHalfEven(y) as real - y) <= Abs(k as real - y)
  {
    var r := RoundHalfEven(y);
    if k != r {
      assert k <= r - 1 || k >= r + 1;
    }
  }

  /**
   * Reference definition of round-half-to-even: `k` is the result exactly
   * when it is strictly within 1/2 of `y`, or exactly 1/2 away and even.
   */
  lemma RoundHalfEvenCharacterized(y: real, k: int)
    ensures RoundHalfEven(y) == k <==>
              Abs(k as real - y) < 0.5 || (Abs(k as real - y) == 0.5 && k % 2 == 0)
  {
    var r := RoundHalfEven(y);
    if k != r {
      assert k <= r - 1 || k >= r + 1;
    }
  }

  /** Rounding never reverses the order of two values. */
  lemma RoundHalfEvenMonotone(y1: real, y2: real)
    requires y1 <= y2
    ensures RoundHalfEven(y1) <= RoundHalfEven(y2)
  {
  }

  // ---------------------------------------------------------------------------
  // Rounding to n decimals

  /** `RoundTo(x, n)` scaled by 10^n is the integer nearest to `x` scaled by 10^n. */
  lemma RoundToScaled(x: real, n: nat)
    ensures Shift(RoundTo(x, n), n) == RoundHalfEven(Shift(x, n)) as real
  {
    ShiftUnshift(RoundHalfEven(Shift(x, n)) as real, n);
  }

  /** The result is within half a unit of the last kept decimal: |r - x| * 10^n <= 1/2. */
  lemma RoundToError(x: real, n: nat)
    ensures Shift(Abs(RoundTo(x, n) - x), n) <= 0.5
  {
    RoundToScaled(x, n);
    ShiftAbs(RoundTo(x, n) - x, n);
    ShiftSub(RoundTo(x, n), x, n);
  }

  /** `RoundTo` returns the multiple of 10^-n nearest to `x`. */
  lemma RoundToIsNearest(x: real, n: nat, k: int)
    ensures Abs(RoundTo(x, n) - x) <= Abs(Unshift(k as real, n) - x)
  {
    var r, g := RoundTo(x, n), Unshift(k as real, n);
    RoundToScaled(x, n);
    ShiftUnshift(k as real, n);
    RoundHalfEvenIsNearest(Shift(x, n), k);
    ShiftAbs(r - x, n);
    ShiftSub(r, x, n);
    ShiftAbs(g - x, n);
    ShiftSub(g, x, n);
    ShiftOrder(Abs(r - x), Abs(g - x), n);
  }

  /**
   * Reference definition of rounding to `n` decimals, ties to even: the
   * value with `n` decimals and scaled last digit `k` is the result exactly
   * when it is strictly within half a unit of `x`, or exactly half a unit
   * away and `k` is even.
   */
  lemma RoundToCharacterized(x: real, n: nat, k: int)
    ensures RoundTo(x, n) == Unshift(k as real, n) <==>
              || Shift(Abs(Unshift(k as real, n) - x), n) < 0.5
              || (Shift(Abs(Unshift(k as real, n) - x), n) == 0.5 && k % 2 == 0)
  {
    var y := Shift(x, n);
    var r := RoundHalfEven(y);
    RoundToScaled(x, n);
    ShiftUnshift(k as real, n);
    ShiftAbs(Unshift(k as real, n) - x, n);
    ShiftSub(Unshift(k as real, n), x, n);
    RoundHalfEvenCharacterized(y, k);
    if RoundTo(x, n) == Unshift(k as real, n) {
      assert r == k;
    } else {
      ShiftOrder(RoundTo(x, n), Unshift(k as real, n), n);
      ShiftOrder(Unshift(k as real, n), RoundTo(x, n), n);
      assert r != k;
    }
  }

  /** A value that already has `n` decimals is left unchanged. */
  lemma RoundToGridPoint(k: int, n: nat)
    ensures RoundTo(Unshift(k as real, n), n) == Unshift(k as real, n)
  {
    ShiftUnshift(k as real, n);
    RoundHalfEvenCharacterized(k as real, k);
  }

  /** Rounding twice to the same number of decimals is rounding once. */
  lemma RoundToIdempotent(x: real, n: nat)
    ensures RoundTo(RoundTo(x, n), n) == RoundTo(x, n)
  {
    RoundToGridPoint(RoundHalfEven(Shift(x, n)), n);
  }

  /** Rounding to `n` decimals preserves the order of its arguments. */
  lemma RoundToMonotone(x1: real, x2: real, n: nat)
    requires x1 <= x2
    ensures RoundTo(x1, n) <= RoundTo(x2, n)
  {
    ShiftOrder(x1, x2, n);
    RoundHalfEvenMonotone(Shift(x1, n), Shift(x2, n));
    RoundToScaled(x1, n);
    RoundToScaled(x2, n);
    ShiftOrder(RoundTo(x1, n), RoundTo(x2, n), n);
  }

  /** A value between two multiples of 10^-n rounds to a value between them. */
  lemma RoundToWithin(x: real, n: nat, lo: int, hi: int)
    requires Unshift(lo as real, n) <= x <= Unshift(hi as real, n)
    ensures Unshift(lo as real, n) <= RoundTo(x, n) <= Unshift(hi as real, n)
  {
    RoundToMonotone(Unshift(lo as real, n), x, n);
    RoundToMonotone(x, Unshift(hi as real, n), n);
    RoundToGridPoint(lo, n);
    RoundToGridPoint(hi, n);
  }
}
